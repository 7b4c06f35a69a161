/** Each rule's entry in the manager follows the abstract runtime state machine. */
module Refinement {
  import opened Wrappers
  import opened Rules
  import opened Sections
  import opened Slots
  import opened Protocol
  import opened Coordination
  import opened Conversion
  import Status

  // The entry of a rule and a machine state agree; retrying and failed entries keep no attempt id.
  predicate Matches(entry: Option<Attempt>, m: Status.RuntimeState) {
    match entry
    case None => m == Status.Stopped
    case Some(Starting(marker)) => m == Status.Starting(marker)
    case Some(Active(managed)) => m == Status.Active(managed.marker)
    case Some(Reconnecting(_)) => m.Reconnecting?
    case Some(Failed) => m.Failed?
  }

  const REMOVAL := [Status.StopRequested, Status.CleanupComplete]

  function BeginEvents(before: Option<Attempt>, after: Option<Attempt>): seq<Status.RuntimeEvent> {
    if after == before then []
    else if after.Some? && after.value.Starting? then [Status.StartRequested(after.value.marker)]
    else REMOVAL
  }

  function RecordEvents(call: Call): seq<Status.RuntimeEvent>
    requires call.LaunchFailed?
  {
    var retry := call.rule.reconnect && Retryable(call.kind) && !call.purpose.ByEdit?;
    [Status.AttemptFailed(call.marker, retry)] + (if call.purpose.ByEdit? then REMOVAL else [])
  }

  function MaintainEvents(s: Sys, gone: set<RuleId>, now: nat, id: RuleId): seq<Status.RuntimeEvent> {
    match EntryOf(s.st, id)
    case Some(Active(managed)) =>
      if id in gone then [Status.ProcessExited(managed.marker, ReconnectEnabled(s.st, id))] else []
    case Some(Reconnecting(due)) => if due <= now then REMOVAL else []
    case _ => []
  }

  /** What a step means to the machine of one rule. A step on another rule means nothing. */
  function EventsOf(s: Sys, step: Step, id: RuleId): seq<Status.RuntimeEvent>
    requires Apply(s, step).Some?
  {
    var before, after := EntryOf(s.st, id), EntryOf(Apply(s, step).value.st, id);
    match step
    case BeginStart(_, _, _) => BeginEvents(before, after)
    case EditRestarts(_, _) => BeginEvents(before, after)
    case CommitStart(c, _) =>
      if s.calls[c].id == id && HoldsMarker(s.st, id, s.calls[c].managed.marker)
      then [Status.ForwardingAccepted(s.calls[c].managed.marker)] else []
    case RecordFailure(c, _) =>
      if s.calls[c].id == id && HoldsMarker(s.st, id, s.calls[c].marker) then RecordEvents(s.calls[c]) else []
    case BeginStop(_) => if after == before then [] else REMOVAL
    case BeginEdit(_, _) => if after == before then [] else REMOVAL
    case Maintenance(gone, now) => MaintainEvents(s, gone, now, id)
    case _ => []
  }

  // The edit's failed-stop mark is the one change the machine has no event for.
  predicate MarksFailed(s: Sys, step: Step, id: RuleId) {
    step.EditMarks? && step.call in s.calls && s.calls[step.call].EditStopFailed?
    && s.calls[step.call].job.expected.id == id
  }

  predicate Follows(events: seq<Status.RuntimeEvent>, m: Status.RuntimeState, after: Option<Attempt>) {
    Status.NextAll(m, events).Ok? && Matches(after, Status.NextAll(m, events).value)
  }

  lemma OneEvent(m: Status.RuntimeState, e: Status.RuntimeEvent)
    ensures Status.NextAll(m, [e]) == Status.Next(m, e)
  {
    assert [e][1..] == [];
  }

  lemma TwoEvents(m: Status.RuntimeState, e: Status.RuntimeEvent, f: Status.RuntimeEvent)
    requires Status.Next(m, e).Ok?
    ensures Status.NextAll(m, [e, f]) == Status.Next(Status.Next(m, e).value, f)
  {
    assert [e, f][1..] == [f];
    OneEvent(Status.Next(m, e).value, f);
  }

  lemma RemovalFollows(entry: Option<Attempt>, m: Status.RuntimeState)
    requires Matches(entry, m) && entry.Some?
    ensures Follows(REMOVAL, m, None)
  {
    TwoEvents(m, Status.StopRequested, Status.CleanupComplete);
  }

  lemma BeginFollows(before: Option<Attempt>, after: Option<Attempt>, m: Status.RuntimeState)
    requires Matches(before, m)
    requires after == before
             || (before == Some(Failed) && after == None)
             || ((before == None || before == Some(Failed)) && after.Some? && after.value.Starting?)
    ensures Follows(BeginEvents(before, after), m, after)
  {
    if after != before {
      if after.Some? { OneEvent(m, Status.StartRequested(after.value.marker)); } else { RemovalFollows(before, m); }
    }
  }

  lemma RecordFollows(call: Call, m: Status.RuntimeState, after: Option<Attempt>)
    requires call.LaunchFailed? && Matches(Some(Starting(call.marker)), m)
    requires if call.purpose.ByEdit? then after == None
             else if call.rule.reconnect && Retryable(call.kind) then after.Some? && after.value.Reconnecting?
             else after == Some(Failed)
    ensures Follows(RecordEvents(call), m, after)
  {
    var retry := call.rule.reconnect && Retryable(call.kind) && !call.purpose.ByEdit?;
    var e := Status.AttemptFailed(call.marker, retry);
    OneEvent(m, e);
    if call.purpose.ByEdit? {
      var failed := Status.Next(m, e).value;
      RemovalFollows(Some(Failed), failed);
      Status.NextAllConcat(m, [e], REMOVAL);
    } else {
      assert [e] + [] == [e];
    }
  }

  lemma EntryElsewhere(st: State, st': State, id: RuleId, j: RuleId)
    requires SameElsewhere(st, st', id) && j != id
    ensures EntryOf(st', j) == EntryOf(st, j)
  {
    assert SlotOf(st', j) == SlotOf(st, j);
  }

  lemma StartFollows(s: Sys, step: Step, id: RuleId, m: Status.RuntimeState)
    requires Apply(s, step).Some? && (step.BeginStart? || step.EditRestarts?)
    requires Matches(EntryOf(s.st, id), m)
    ensures Follows(EventsOf(s, step, id), m, EntryOf(Apply(s, step).value.st, id))
  {
    var s' := Apply(s, step).value;
    var sel := if step.BeginStart? then step.sel else ById(s.calls[step.call].job.expected.id);
    var mode := if step.EditRestarts? then ForEdit else if step.automatic then Automatic else Explicit;
    StartBeginSlots(s.st, sel, mode, s.next, step.port);
    var before, after := EntryOf(s.st, id), EntryOf(s'.st, id);
    assert before == SlotOf(s.st, id).entry && after == SlotOf(s'.st, id).entry;
    if Resolve(s.st, sel).Ok? && Resolve(s.st, sel).value != id {
      EntryElsewhere(s.st, s'.st, Resolve(s.st, sel).value, id);
    }
    assert EventsOf(s, step, id) == BeginEvents(before, after);
    hide StartBegin, Resolve, SlotOf, SameElsewhere, EventsOf;
    BeginFollows(before, after, m);
  }

  lemma CommitFollows(s: Sys, c: nat, now: nat, id: RuleId, m: Status.RuntimeState)
    requires StepCommitStart(s, c, now).Some? && Matches(EntryOf(s.st, id), m)
    ensures Follows(EventsOf(s, CommitStart(c, now), id), m, EntryOf(StepCommitStart(s, c, now).value.st, id))
  {
    var call := s.calls[c];
    OneEvent(m, Status.ForwardingAccepted(call.managed.marker));
  }

  lemma RecordStepFollows(s: Sys, c: nat, now: nat, id: RuleId, m: Status.RuntimeState)
    requires StepRecordFailure(s, c, now).Some? && Matches(EntryOf(s.st, id), m)
    ensures Follows(EventsOf(s, RecordFailure(c, now), id), m, EntryOf(StepRecordFailure(s, c, now).value.st, id))
  {
    var call := s.calls[c];
    var s' := StepRecordFailure(s, c, now).value;
    StartFailSlots(s.st, call.id, call.rule, ModeOf(call.purpose), call.marker, call.kind, now);
    assert EntryOf(s.st, call.id) == SlotOf(s.st, call.id).entry;
    assert EntryOf(s'.st, call.id) == SlotOf(s'.st, call.id).entry;
    if id != call.id { EntryElsewhere(s.st, s'.st, call.id, id); }
    hide StartFail, SlotOf, SameElsewhere;
    if id == call.id && HoldsMarker(s.st, id, call.marker) {
      RecordFollows(call, m, EntryOf(s'.st, id));
    }
  }

  lemma StopFollows(s: Sys, step: Step, id: RuleId, m: Status.RuntimeState)
    requires Apply(s, step).Some? && (step.BeginStop? || step.BeginEdit?)
    requires Matches(EntryOf(s.st, id), m)
    ensures Follows(EventsOf(s, step, id), m, EntryOf(Apply(s, step).value.st, id))
  {
    var s' := Apply(s, step).value;
    var after := EntryOf(s'.st, id);
    hide EditRequest, ValidRuleSet;
    assert after == EntryOf(s.st, id) || after == None;
    if after != EntryOf(s.st, id) { RemovalFollows(EntryOf(s.st, id), m); }
  }

  lemma MaintainedEntry(st: State, gone: set<RuleId>, now: nat, id: RuleId)
    ensures var before, after := EntryOf(st, id), EntryOf(Maintain(st, gone, now), id);
      match before
      case Some(Active(_)) =>
        if id !in gone then after == before
        else if ReconnectEnabled(st, id) then after.Some? && after.value.Reconnecting?
        else after == Some(Failed)
      case Some(Reconnecting(due)) => after == if due <= now then None else before
      case _ => after == before
  {
    MaintainSlots(st, gone, now, id);
    assert EntryOf(st, id) == SlotOf(st, id).entry;
    assert EntryOf(Maintain(st, gone, now), id) == SlotOf(Maintain(st, gone, now), id).entry;
    assert SlotOf(st, id).stored == FindRule(st.rules, id);
    hide Maintain, SlotOf, FindRule;
  }

  lemma MaintainFollows(s: Sys, gone: set<RuleId>, now: nat, id: RuleId, m: Status.RuntimeState)
    requires Matches(EntryOf(s.st, id), m)
    ensures Follows(EventsOf(s, Maintenance(gone, now), id), m, EntryOf(StepMaintenance(s, gone, now).st, id))
  {
    MaintainedEntry(s.st, gone, now, id);
    hide Maintain, EntryOf, ReconnectEnabled;
    assert EventsOf(s, Maintenance(gone, now), id) == MaintainEvents(s, gone, now, id);
    hide EventsOf;
    match EntryOf(s.st, id) {
      case Some(Active(managed)) => OneEvent(m, Status.ProcessExited(managed.marker, ReconnectEnabled(s.st, id)));
      case Some(Reconnecting(due)) => RemovalFollows(EntryOf(s.st, id), m);
      case _ =>
    }
  }

  lemma QuietRequest(s: Sys, step: Step)
    requires step.AddRule? || step.ImportRules? || step.RemoveRule? || step.ChangeSettings?
    ensures Apply(s, step).Some? && Apply(s, step).value.st.running == s.st.running
  {
    hide SaveConfig, ValidRuleSet, ToDomain, AllToDomain, Upsert, WithoutRule, FreshIds, Resolve;
  }

  lemma QuietSave(s: Sys, c: nat, fault: SaveFault)
    requires StepEditSaves(s, c, fault).Some?
    ensures StepEditSaves(s, c, fault).value.st.running == s.st.running
  {
    hide SaveConfig, RuleSetErrors, FindRule, ReplaceRule;
  }

  lemma QuietStep(s: Sys, step: Step, id: RuleId)
    requires Apply(s, step).Some? && !MarksFailed(s, step, id)
    requires !step.BeginStart? && !step.EditRestarts? && !step.CommitStart? && !step.RecordFailure?
    requires !step.BeginStop? && !step.BeginEdit? && !step.Maintenance?
    ensures EntryOf(Apply(s, step).value.st, id) == EntryOf(s.st, id)
  {
    hide Add, Import, Remove, UpdateSettings, EditSave;
    match step
    case AddRule(_, _) => QuietRequest(s, step);
    case ImportRules(_, _) => QuietRequest(s, step);
    case RemoveRule(_, _) => QuietRequest(s, step);
    case ChangeSettings(_, _) => QuietRequest(s, step);
    case EditSaves(c, fault) => QuietSave(s, c, fault);
    case _ =>
  }

  /**
   * Whatever machine state agrees with a rule's entry, the events of a step are accepted from it and
   * lead to a state that agrees with the entry after the step; the failed-stop mark is excepted.
   */
  lemma StepFollowsMachine(s: Sys, step: Step, id: RuleId, m: Status.RuntimeState)
    requires Coordinated(s) && Apply(s, step).Some? && !MarksFailed(s, step, id)
    requires Matches(EntryOf(s.st, id), m)
    ensures Follows(EventsOf(s, step, id), m, EntryOf(Apply(s, step).value.st, id))
  {
    match step
    case BeginStart(_, _, _) => StartFollows(s, step, id, m);
    case EditRestarts(_, _) => StartFollows(s, step, id, m);
    case CommitStart(c, now) => CommitFollows(s, c, now, id, m);
    case RecordFailure(c, now) => RecordStepFollows(s, c, now, id, m);
    case BeginStop(_) => StopFollows(s, step, id, m);
    case BeginEdit(_, _) => StopFollows(s, step, id, m);
    case Maintenance(gone, now) => MaintainFollows(s, gone, now, id, m);
    case _ =>
      QuietStep(s, step, id);
      assert EventsOf(s, step, id) == [];
  }

  lemma NoEventFailsAStoppedRule(e: Status.RuntimeEvent)
    ensures !Follows([e], Status.Stopped, Some(Failed))
  {
    OneEvent(Status.Stopped, e);
  }

  /** The failed-stop mark puts a stopped rule in Failed, which no single event of the machine does. */
  lemma MarkIsNoEvent(s: Sys, c: nat, e: Status.RuntimeEvent)
    requires Coordinated(s) && StepEditMarks(s, c).Some?
    ensures var id := s.calls[c].job.expected.id;
      && Matches(EntryOf(s.st, id), Status.Stopped)
      && EntryOf(StepEditMarks(s, c).value.st, id) == Some(Failed)
      && !Follows([e], Status.Stopped, Some(Failed))
  {
    var id := s.calls[c].job.expected.id;
    EditClaim(s, c);
    assert EntryOf(s.st, id) == SlotOf(s.st, id).entry;
    assert EntryOf(EditMarkFailed(s.st, id), id) == Some(Failed);
    hide Coordinated, SlotOf, EntryOf, EditMarkFailed, ValidRule, Follows;
    NoEventFailsAStoppedRule(e);
  }
}
