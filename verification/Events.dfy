/** The fan-out of daemon events to subscribers, each behind a bounded queue. */
module Events {
  import opened Wrappers

  const EVENT_BUFFER_CAPACITY: nat := 64
  const U64_MAX: nat := 0xFFFF_FFFF_FFFF_FFFF

  datatype Event = Event(sequence: nat, name: string, payload: string)

  // One subscriber's channel: what waits in it, what its receiver has taken, whether the receiver still
  // exists, and the sequence number when it was created.
  datatype Channel = Channel(queue: seq<Event>, received: seq<Event>, connected: bool, since: nat)

  // `published` is every event so far; `poisoned` is set when the sequence is exhausted.
  datatype Hub = Hub(
    sequence: nat, subscribers: seq<nat>, channels: map<nat, Channel>, published: seq<Event>, poisoned: bool)

  const EMPTY := Hub(0, [], map[], [], false)

  predicate Accepts(c: Channel) { c.connected && |c.queue| < EVENT_BUFFER_CAPACITY }

  function Push(c: Channel, e: Event): Channel { c.(queue := c.queue + [e]) }

  function Kept(subscribers: seq<nat>, channels: map<nat, Channel>): seq<nat> {
    if subscribers == [] then []
    else
      var n := |subscribers| - 1;
      Kept(subscribers[..n], channels) +
      if subscribers[n] in channels && Accepts(channels[subscribers[n]]) then [subscribers[n]] else []
  }

  lemma NoneKept(channels: map<nat, Channel>)
    ensures Kept([], channels) == []
  {
  }

  lemma KeptExtends(subscribers: seq<nat>, i: nat, channels: map<nat, Channel>)
    requires i < |subscribers|
    ensures var c := subscribers[i];
      Kept(subscribers[..i + 1], channels) ==
        Kept(subscribers[..i], channels) + if c in channels && Accepts(channels[c]) then [c] else []
  {
    hide Accepts;
    assert subscribers[..i + 1][..i] == subscribers[..i];
  }

  // Every subscriber that can take the event gets it; the others are dropped for good.
  function Publish(h: Hub, name: string, payload: string): Hub {
    if h.poisoned then h
    else if h.sequence == U64_MAX then h.(poisoned := true)
    else
      var e := Event(h.sequence + 1, name, payload);
      h.(sequence := e.sequence,
         channels := map c | c in h.channels ::
           if c in h.subscribers && Accepts(h.channels[c]) then Push(h.channels[c], e) else h.channels[c],
         subscribers := Kept(h.subscribers, h.channels),
         published := h.published + [e])
  }

  function Subscribe(h: Hub, id: nat): Hub {
    if h.poisoned || id in h.channels then h
    else
      h.(channels := h.channels[id := Channel([], [], true, h.sequence)], subscribers := h.subscribers + [id])
  }

  function Receive(h: Hub, id: nat): Hub {
    if id in h.channels && h.channels[id].connected && h.channels[id].queue != [] then
      var c := h.channels[id];
      h.(channels := h.channels[id := c.(queue := c.queue[1..], received := c.received + [c.queue[0]])])
    else h
  }

  // The receiver goes away; what waits is lost with it.
  function Disconnect(h: Hub, id: nat): Hub {
    if id in h.channels then h.(channels := h.channels[id := h.channels[id].(connected := false)]) else h
  }

  datatype Step =
    | Subscribes(id: nat)
    | Publishes(name: string, payload: string)
    | Receives(id: nat)
    | Disconnects(id: nat)

  function Apply(h: Hub, step: Step): Hub {
    match step
    case Subscribes(id) => Subscribe(h, id)
    case Publishes(name, payload) => Publish(h, name, payload)
    case Receives(id) => Receive(h, id)
    case Disconnects(id) => Disconnect(h, id)
  }

  function Run(h: Hub, steps: seq<Step>): Hub
    decreases steps
  {
    if steps == [] then h else Run(Apply(h, steps[0]), steps[1..])
  }

  /** The hub's mutex-held state; a channel is named by the id it was created with. */
  class EventHub {
    var sequence: nat
    var subscribers: seq<nat>
    var channels: map<nat, Channel>
    var poisoned: bool
    ghost var published: seq<Event>

    ghost function View(): Hub
      reads this
    {
      Hub(sequence, subscribers, channels, published, poisoned)
    }

    constructor ()
      ensures View() == EMPTY
    {
      sequence, subscribers, channels, poisoned, published := 0, [], map[], false, [];
    }

    // `id` names the new channel.
    method AddSubscriber(id: nat) returns (added: bool)
      modifies this`channels, this`subscribers
      ensures View() == Subscribe(old(View()), id)
      ensures added == (!poisoned && id !in old(channels))
    {
      if poisoned || id in channels { return false; }
      channels := channels[id := Channel([], [], true, sequence)];
      subscribers := subscribers + [id];
      added := true;
    }

    method TrySend(id: nat, e: Event) returns (sent: bool)
      requires id in channels
      modifies this`channels
      ensures sent == Accepts(old(channels)[id])
      ensures channels == if sent then old(channels)[id := Push(old(channels)[id], e)] else old(channels)
    {
      var c := channels[id];
      sent := c.connected && |c.queue| < EVENT_BUFFER_CAPACITY;
      if sent { channels := channels[id := Push(c, e)]; }
    }

    // `retain`: each sender is tried in turn, and only those that succeed stay.
    method Retain(e: Event)
      requires Distinct(subscribers) && forall c :: c in subscribers ==> c in channels
      modifies this`channels, this`subscribers
      ensures subscribers == Kept(old(subscribers), old(channels))
      ensures channels.Keys == old(channels.Keys)
      ensures forall c :: c in channels ==>
        channels[c] ==
        if c in old(subscribers) && Accepts(old(channels)[c]) then Push(old(channels)[c], e) else old(channels)[c]
    {
      hide Accepts, Push, Kept;
      var before := subscribers;
      NoneKept(old(channels));
      var kept: seq<nat> := [];
      for i := 0 to |before|
        invariant kept == Kept(before[..i], old(channels))
        invariant channels.Keys == old(channels.Keys)
        invariant forall c :: c in channels ==>
          channels[c] ==
          if c in before[..i] && Accepts(old(channels)[c]) then Push(old(channels)[c], e) else old(channels)[c]
      {
        KeptExtends(before, i, old(channels));
        assert forall c :: c in before[..i + 1] <==> c in before[..i] || c == before[i];
        assert before[i] !in before[..i];
        var sent := TrySend(before[i], e);
        if sent { kept := kept + [before[i]]; }
      }
      assert before[..|before|] == before;
      subscribers := kept;
    }

    method PublishEvent(name: string, payload: string) returns (e: Option<Event>)
      requires Distinct(subscribers) && forall c :: c in subscribers ==> c in channels
      modifies this
      ensures View() == Publish(old(View()), name, payload)
      ensures e == if poisoned then None else Some(Event(sequence, name, payload))
    {
      if poisoned { return None; }
      if sequence == U64_MAX {
        poisoned := true;
        return None;
      }
      sequence := sequence + 1;
      var message := Event(sequence, name, payload);
      published := published + [message];
      Retain(message);
      assert channels == Publish(old(View()), name, payload).channels;
      e := Some(message);
    }
  }

  predicate Distinct(s: seq<nat>) {
    forall i, j :: 0 <= i < j < |s| ==> s[i] != s[j]
  }

  // ----- what every run keeps

  function Total(c: Channel): seq<Event> { c.received + c.queue }

  // The events a channel has got are those published from its creation on, without a gap.
  predicate ChannelOk(c: Channel, published: seq<Event>) {
    && c.since + |Total(c)| <= |published|
    && Total(c) == published[c.since..c.since + |Total(c)|]
    && |c.queue| <= EVENT_BUFFER_CAPACITY
  }

  // A subscriber has missed nothing.
  predicate UpToDate(c: Channel, published: seq<Event>) { c.since + |Total(c)| == |published| }

  predicate Sound(h: Hub) {
    && h.sequence == |h.published| <= U64_MAX
    && (forall i :: 0 <= i < |h.published| ==> h.published[i].sequence == i + 1)
    && Distinct(h.subscribers)
    && (forall c :: c in h.channels ==> ChannelOk(h.channels[c], h.published))
    && (forall c :: c in h.subscribers ==> c in h.channels && UpToDate(h.channels[c], h.published))
  }

  lemma {:induction false} KeptMembers(subscribers: seq<nat>, channels: map<nat, Channel>)
    requires Distinct(subscribers)
    ensures Distinct(Kept(subscribers, channels))
    ensures forall c :: c in Kept(subscribers, channels) <==> c in subscribers && c in channels && Accepts(channels[c])
  {
    hide Accepts;
    if subscribers != [] {
      var n := |subscribers| - 1;
      KeptMembers(subscribers[..n], channels);
      assert subscribers == subscribers[..n] + [subscribers[n]];
      assert subscribers[n] !in subscribers[..n];
    }
  }

  lemma PushedOk(c: Channel, published: seq<Event>, e: Event)
    requires ChannelOk(c, published) && UpToDate(c, published) && Accepts(c)
    ensures ChannelOk(Push(c, e), published + [e]) && UpToDate(Push(c, e), published + [e])
  {
    assert Total(Push(c, e)) == Total(c) + [e];
    assert (published + [e])[c.since..] == published[c.since..] + [e];
  }

  lemma OthersOk(c: Channel, published: seq<Event>, e: Event)
    requires ChannelOk(c, published)
    ensures ChannelOk(c, published + [e])
  {
    assert (published + [e])[c.since..c.since + |Total(c)|] == published[c.since..c.since + |Total(c)|];
  }

  lemma ChannelAfterPublish(h: Hub, e: Event, c: nat)
    requires Sound(h) && c in h.channels
    ensures var after := if c in h.subscribers && Accepts(h.channels[c]) then Push(h.channels[c], e) else h.channels[c];
      && ChannelOk(after, h.published + [e])
      && (c in h.subscribers && Accepts(h.channels[c]) ==> UpToDate(after, h.published + [e]))
  {
    if c in h.subscribers && Accepts(h.channels[c]) {
      PushedOk(h.channels[c], h.published, e);
    } else {
      OthersOk(h.channels[c], h.published, e);
    }
  }

  lemma PublishKeeps(h: Hub, name: string, payload: string)
    requires Sound(h)
    ensures Sound(Publish(h, name, payload))
  {
    hide ChannelOk, UpToDate, Accepts, Push, Total;
    if !h.poisoned && h.sequence < U64_MAX {
      var e := Event(h.sequence + 1, name, payload);
      KeptMembers(h.subscribers, h.channels);
      forall c | c in h.channels
        ensures var after :=
            if c in h.subscribers && Accepts(h.channels[c]) then Push(h.channels[c], e) else h.channels[c];
          && ChannelOk(after, h.published + [e])
          && (c in h.subscribers && Accepts(h.channels[c]) ==> UpToDate(after, h.published + [e]))
      {
        ChannelAfterPublish(h, e, c);
      }
      hide Kept;
    }
  }

  lemma ReceiveKeeps(h: Hub, id: nat)
    requires Sound(h)
    ensures Sound(Receive(h, id))
  {
    if Receive(h, id) != h {
      var c, d := h.channels[id], Receive(h, id).channels[id];
      assert Total(d) == Total(c);
    }
  }

  lemma StepKeeps(h: Hub, step: Step)
    requires Sound(h)
    ensures Sound(Apply(h, step))
  {
    match step
    case Subscribes(id) =>
      if !h.poisoned && id !in h.channels { assert ChannelOk(Channel([], [], true, h.sequence), h.published); }
    case Publishes(name, payload) => PublishKeeps(h, name, payload);
    case Receives(id) => ReceiveKeeps(h, id);
    case Disconnects(id) =>
      if id in h.channels { assert Total(h.channels[id].(connected := false)) == Total(h.channels[id]); }
  }

  lemma {:induction false} RunKeeps(h: Hub, steps: seq<Step>)
    requires Sound(h)
    ensures Sound(Run(h, steps))
    decreases steps
  {
    if steps != [] {
      hide Sound, Apply;
      StepKeeps(h, steps[0]);
      RunKeeps(Apply(h, steps[0]), steps[1..]);
    }
  }

  /**
   * In every run: what a subscriber has been delivered, followed by what waits for it, is a gap-free run of
   * sequence numbers that starts just after its subscription; its queue never exceeds 64 events; and while
   * it has not been dropped it has every event published since.
   */
  lemma DeliveryHasNoGaps(steps: seq<Step>, id: nat)
    requires id in Run(EMPTY, steps).channels
    ensures var h := Run(EMPTY, steps);
      var c := h.channels[id];
      && |c.queue| <= EVENT_BUFFER_CAPACITY
      && c.since + |Total(c)| <= |h.published|
      && (forall i :: 0 <= i < |Total(c)| ==>
            Total(c)[i] == h.published[c.since + i] && Total(c)[i].sequence == c.since + i + 1)
      && (id in h.subscribers ==> c.since + |Total(c)| == |h.published|)
  {
    RunKeeps(EMPTY, steps);
    var h := Run(EMPTY, steps);
    assert ChannelOk(h.channels[id], h.published);
  }

  lemma StepKeepsDropped(h: Hub, step: Step, id: nat)
    requires Sound(h) && id in h.channels && id !in h.subscribers
    ensures var h' := Apply(h, step);
      id in h'.channels && id !in h'.subscribers && Total(h'.channels[id]) == Total(h.channels[id])
      && h'.channels[id].since == h.channels[id].since
  {
    hide ChannelOk, UpToDate;
    KeptMembers(h.subscribers, h.channels);
  }

  /** A subscriber whose send has failed once is dropped and gets nothing more, however long the run. */
  lemma {:induction false} DroppedGetsNothingMore(h: Hub, steps: seq<Step>, id: nat)
    requires Sound(h) && id in h.channels && id !in h.subscribers
    ensures id in Run(h, steps).channels && Total(Run(h, steps).channels[id]) == Total(h.channels[id])
    decreases steps
  {
    if steps != [] {
      hide Sound, Apply, Total;
      StepKeeps(h, steps[0]);
      StepKeepsDropped(h, steps[0], id);
      DroppedGetsNothingMore(Apply(h, steps[0]), steps[1..], id);
    }
  }

  /** One send failing is exactly what drops a subscriber. */
  lemma FailedSendDrops(h: Hub, name: string, payload: string, id: nat)
    requires Sound(h) && !h.poisoned && h.sequence < U64_MAX && id in h.subscribers
    ensures id !in Publish(h, name, payload).subscribers <==>
            !h.channels[id].connected || |h.channels[id].queue| == EVENT_BUFFER_CAPACITY
  {
    KeptMembers(h.subscribers, h.channels);
    assert ChannelOk(h.channels[id], h.published);
  }

  // What the publishing calls of a run ask to be told, in order.
  function Told(steps: seq<Step>): seq<(string, string)> {
    if steps == [] then []
    else
      var n := |steps| - 1;
      Told(steps[..n]) + if steps[n].Publishes? then [(steps[n].name, steps[n].payload)] else []
  }

  lemma {:induction false} RunLast(h: Hub, steps: seq<Step>)
    requires steps != []
    ensures Run(h, steps) == Apply(Run(h, steps[..|steps| - 1]), steps[|steps| - 1])
    decreases steps
  {
    hide Apply;
    var n := |steps| - 1;
    if n == 0 {
      assert steps[..0] == [] && steps[1..] == [];
    } else {
      RunLast(Apply(h, steps[0]), steps[1..]);
      assert steps[1..][..n - 1] == steps[..n][1..];
    }
  }

  /** As long as the numbers last, every publishing call is one event: its own name and payload, next number. */
  lemma {:induction false} PublishedIsTold(steps: seq<Step>)
    requires |Told(steps)| <= U64_MAX
    ensures var h := Run(EMPTY, steps);
      && !h.poisoned && |h.published| == |Told(steps)|
      && forall i :: 0 <= i < |Told(steps)| ==> h.published[i] == Event(i + 1, Told(steps)[i].0, Told(steps)[i].1)
    decreases |steps|
  {
    if steps != [] {
      var n := |steps| - 1;
      PublishedIsTold(steps[..n]);
      RunLast(EMPTY, steps);
      RunKeeps(EMPTY, steps[..n]);
      hide Kept, Distinct, ChannelOk, UpToDate;
    }
  }
}
