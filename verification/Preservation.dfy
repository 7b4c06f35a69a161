/** Every step of the protocol keeps the coordination invariant. */
module Preservation {
  import opened Wrappers
  import opened Rules
  import opened Conversion
  import opened Sections
  import opened Slots
  import opened Protocol
  import opened Coordination

  // ----- configuration requests change only what is stored

  lemma ConfigStepKeeps(s: Sys, st': State)
    requires Coordinated(s)
    requires forall j :: EntryOf(st', j) == EntryOf(s.st, j) && InfoOf(st', j) == InfoOf(s.st, j)
    requires st'.editing == s.st.editing && st'.manuallyStopped == s.st.manuallyStopped
    requires forall j :: FindRule(st'.rules, j) != FindRule(s.st.rules, j) ==>
               !SlotOf(s.st, j).editing && SlotOf(s.st, j).entry.None?
    ensures Coordinated(s.(st := st'))
  {
    var s' := s.(st := st');
    forall j ensures SlotOf(st', j) == SlotOf(s.st, j).(stored := SlotOf(st', j).stored) {
      assert EntryOf(st', j) == EntryOf(s.st, j);
    }
    forall j ensures SlotOk(SlotOf(st', j)) {
      assert SlotOk(SlotOf(s.st, j));
    }
    forall c | c in s'.calls ensures CallOk(SlotOf(st', RuleOf(s'.calls[c])), s'.calls[c]) {
      var j := RuleOf(s.calls[c]);
      assert CallOk(SlotOf(s.st, j), s.calls[c]);
      if FindRule(st'.rules, j) != FindRule(s.st.rules, j) {
        BystanderOfConfig(SlotOf(s.st, j), SlotOf(st', j), s.calls[c]);
      }
    }
    forall j | j in st'.running && st'.running[j].Starting? ensures st'.running[j].marker < s.next {
      assert EntryOf(st', j) == EntryOf(s.st, j);
    }
  }

  lemma AddKeeps(s: Sys, wire: WireRule, fault: SaveFault)
    requires Coordinated(s)
    ensures Coordinated(s.(st := Add(s.st, wire, fault).0))
  {
    AddSlots(s.st, wire, fault);
    var st' := Add(s.st, wire, fault).0;
    hide Add;
    if st'.rules != s.st.rules {
      assert SlotOk(SlotOf(s.st, ToDomain(wire).value.id));
    }
    ConfigStepKeeps(s, st');
  }

  lemma ImportKeeps(s: Sys, wires: seq<WireRule>, fault: SaveFault)
    requires Coordinated(s)
    ensures Coordinated(s.(st := Import(s.st, wires, fault).0))
  {
    ImportSlots(s.st, wires, fault);
    var st' := Import(s.st, wires, fault).0;
    hide Import;
    forall j | FindRule(st'.rules, j) != FindRule(s.st.rules, j)
      ensures !SlotOf(s.st, j).editing && SlotOf(s.st, j).entry.None?
    {
      assert SlotOk(SlotOf(s.st, j));
    }
    ConfigStepKeeps(s, st');
  }

  lemma RemoveKeeps(s: Sys, sel: Selector, fault: SaveFault)
    requires Coordinated(s)
    ensures Coordinated(s.(st := Remove(s.st, sel, fault).0))
  {
    RemoveSlots(s.st, sel, fault);
    var st' := Remove(s.st, sel, fault).0;
    hide Remove;
    ConfigStepKeeps(s, st');
  }

  lemma SettingsKeep(s: Sys, settings: Settings, fault: SaveFault)
    requires Coordinated(s)
    ensures Coordinated(s.(st := UpdateSettings(s.st, settings, fault).0))
  {
    var st' := UpdateSettings(s.st, settings, fault).0;
    assert st'.rules == s.st.rules && st'.running == s.st.running && st'.diagnostics == s.st.diagnostics;
    ConfigStepKeeps(s, st');
  }

  // ----- steps that touch the slot of one rule and replace at most one call

  lemma OtherCallsStay(s: Sys, s': Sys, c: nat)
    requires s'.calls - {c} == s.calls - {c}
    ensures forall d :: d != c ==> (d in s'.calls <==> d in s.calls) && (d in s.calls ==> s'.calls[d] == s.calls[d])
  {
    assert forall d :: d != c ==> (d in s'.calls <==> d in s'.calls - {c}) && (d in s.calls <==> d in s.calls - {c});
    assert forall d :: d in s'.calls - {c} ==> s'.calls[d] == (s'.calls - {c})[d];
    assert forall d :: d in s.calls - {c} ==> s.calls[d] == (s.calls - {c})[d];
  }

  lemma SlotsStayOk(s: Sys, s': Sys, id: RuleId)
    requires Coordinated(s) && SameElsewhere(s.st, s'.st, id) && SlotOk(SlotOf(s'.st, id))
    ensures SlotsOk(s')
  {
    hide SlotOf, SlotOk, CallsOk, CallsApart, NamesFresh;
    forall j ensures SlotOk(SlotOf(s'.st, j)) {
      assert SlotOk(SlotOf(s.st, j));
    }
  }

  lemma CallsStayOk(s: Sys, s': Sys, id: RuleId, c: nat)
    requires Coordinated(s) && SameElsewhere(s.st, s'.st, id)
    requires forall d :: d != c ==> (d in s'.calls <==> d in s.calls) && (d in s.calls ==> s'.calls[d] == s.calls[d])
    requires c in s'.calls ==> CallOk(SlotOf(s'.st, RuleOf(s'.calls[c])), s'.calls[c])
    requires forall d :: d in s.calls && d != c && RuleOf(s.calls[d]) == id ==> CallOk(SlotOf(s'.st, id), s.calls[d])
    ensures CallsOk(s')
  {
    hide SlotOf, SlotsOk, CallOk, CallsApart, NamesFresh;
    forall d | d in s'.calls ensures CallOk(SlotOf(s'.st, RuleOf(s'.calls[d])), s'.calls[d]) {
      if d != c {
        assert CallOk(SlotOf(s.st, RuleOf(s.calls[d])), s.calls[d]);
      }
    }
  }

  lemma NamesStayFresh(s: Sys, s': Sys, id: RuleId, c: nat)
    requires Coordinated(s) && SameElsewhere(s.st, s'.st, id) && s.next <= s'.next
    requires forall d :: d != c ==> (d in s'.calls <==> d in s.calls) && (d in s.calls ==> s'.calls[d] == s.calls[d])
    requires c in s'.calls ==> c < s'.next && MarkerBelow(MarkerOf(s'.calls[c]), s'.next)
    requires var entry := SlotOf(s'.st, id).entry;
      entry.Some? && entry.value.Starting? ==> entry.value.marker < s'.next
    ensures NamesFresh(s')
  {
    hide SlotsOk, CallsOk, CallsApart;
    forall j | j in s'.st.running && s'.st.running[j].Starting? ensures s'.st.running[j].marker < s'.next {
      assert SlotOf(s'.st, j).entry == EntryOf(s'.st, j);
      if j != id {
        assert SlotOf(s'.st, j) == SlotOf(s.st, j);
        assert EntryOf(s'.st, j) == EntryOf(s.st, j);
      }
    }
  }

  lemma CallsStayApart(s: Sys, s': Sys, c: nat)
    requires Coordinated(s)
    requires forall d :: d != c ==> (d in s'.calls <==> d in s.calls) && (d in s.calls ==> s'.calls[d] == s.calls[d])
    requires c in s'.calls ==> forall d :: d in s.calls && d != c ==> Apart(s'.calls[c], s.calls[d])
    ensures CallsApart(s')
  {
    hide SlotsOk, CallsOk, NamesFresh;
    forall d, e | d in s'.calls && e in s'.calls && d != e ensures Apart(s'.calls[d], s'.calls[e]) {
      if d != c && e != c { assert Apart(s.calls[d], s.calls[e]); }
    }
  }

  /**
   * The common shape: the slot of `id` changes, call `c` is replaced (or removed, or created),
   * and every other call about `id` has been shown to keep its claim.
   */
  lemma OneRuleStepKeeps(s: Sys, s': Sys, id: RuleId, c: nat)
    requires Coordinated(s)
    requires SameElsewhere(s.st, s'.st, id)
    requires SlotOk(SlotOf(s'.st, id))
    requires s'.calls - {c} == s.calls - {c} && s.next <= s'.next
    requires c in s'.calls ==>
               && c < s'.next && MarkerBelow(MarkerOf(s'.calls[c]), s'.next)
               && CallOk(SlotOf(s'.st, RuleOf(s'.calls[c])), s'.calls[c])
    requires forall d :: d in s.calls && d != c && RuleOf(s.calls[d]) == id ==> CallOk(SlotOf(s'.st, id), s.calls[d])
    requires c in s'.calls ==> forall d :: d in s.calls && d != c ==> Apart(s'.calls[c], s.calls[d])
    requires var entry := SlotOf(s'.st, id).entry;
      entry.Some? && entry.value.Starting? ==> entry.value.marker < s'.next
    ensures Coordinated(s')
  {
    hide SlotOf, SlotOk, SameElsewhere, CallOk, Apart, SlotsOk, CallsOk, CallsApart, NamesFresh;
    OtherCallsStay(s, s', c);
    SlotsStayOk(s, s', id);
    CallsStayOk(s, s', id, c);
    CallsStayApart(s, s', c);
    NamesStayFresh(s, s', id, c);
  }

  /** The slot of `id` changes and a new call about it is created. */
  lemma NewCallStep(s: Sys, s': Sys, id: RuleId, call: Call)
    requires Coordinated(s)
    requires SameElsewhere(s.st, s'.st, id) && SlotOk(SlotOf(s'.st, id))
    requires s'.calls == s.calls[s.next := call] && s'.next == s.next + 1
    requires RuleOf(call) == id && CallOk(SlotOf(s'.st, id), call)
    requires MarkerOf(call).None? || MarkerOf(call) == Some(s.next)
    requires IsEdit(call) ==> forall d :: d in s.calls && IsEdit(s.calls[d]) ==> RuleOf(s.calls[d]) != id
    requires forall d :: d in s.calls && RuleOf(s.calls[d]) == id ==> CallOk(SlotOf(s'.st, id), s.calls[d])
    requires var entry := SlotOf(s'.st, id).entry;
      entry.Some? && entry.value.Starting? ==> entry.value.marker < s'.next
    ensures Coordinated(s')
  {
    hide CallOk, SlotOk;
    forall d | d in s.calls ensures d != s.next && Apart(call, s.calls[d]) {
      assert MarkerBelow(MarkerOf(s.calls[d]), s.next);
    }
    assert s'.calls - {s.next} == s.calls - {s.next};
    OneRuleStepKeeps(s, s', id, s.next);
  }

  lemma BeginStartBystander(before: Slot, after: Slot, call: Call, fresh_: Marker)
    requires CallOk(before, call) && MarkerBelow(MarkerOf(call), fresh_)
    requires before.editing ==> after.entry == before.entry
    requires after == before.(entry := after.entry, vetoed := after.vetoed)
    requires after.entry == before.entry
             || (before.entry == Some(Failed) && after.entry == None)
             || ((before.entry == None || before.entry == Some(Failed)) && after.entry == Some(Starting(fresh_)))
    ensures CallOk(after, call)
  {
  }

  lemma BeginStartSlotOk(st: State, sel: Selector, mode: StartMode, marker: Marker, port: PortCheck)
    requires mode != ForEdit && Resolve(st, sel).Ok? && SlotOk(SlotOf(st, Resolve(st, sel).value))
    ensures SlotOk(SlotOf(StartBegin(st, sel, mode, marker, port).0, Resolve(st, sel).value))
  {
    hide StartBegin, Resolve, SlotOf, SameElsewhere;
    StartBeginSlots(st, sel, mode, marker, port);
  }

  lemma EntryBelow(s: Sys, id: RuleId)
    requires Coordinated(s)
    ensures var entry := SlotOf(s.st, id).entry;
      entry.Some? && entry.value.Starting? ==> entry.value.marker < s.next
  {
    hide SlotsOk, CallsOk, CallsApart;
  }

  lemma BeginStartBystanders(s: Sys, st': State, id: RuleId)
    requires Coordinated(s)
    requires var before, after := SlotOf(s.st, id), SlotOf(st', id);
      && (before.editing ==> after.entry == before.entry)
      && after == before.(entry := after.entry, vetoed := after.vetoed)
      && (after.entry == before.entry
          || (before.entry == Some(Failed) && after.entry == None)
          || ((before.entry == None || before.entry == Some(Failed)) && after.entry == Some(Starting(s.next))))
    ensures forall d :: d in s.calls && RuleOf(s.calls[d]) == id ==> CallOk(SlotOf(st', id), s.calls[d])
    ensures s.next !in s.calls
  {
    hide SlotOf, CallOk, SlotsOk, CallsApart;
    forall d | d in s.calls && RuleOf(s.calls[d]) == id ensures CallOk(SlotOf(st', id), s.calls[d]) {
      BeginStartBystander(SlotOf(s.st, id), SlotOf(st', id), s.calls[d], s.next);
    }
  }

  lemma BeginStartKeeps(s: Sys, sel: Selector, automatic: bool, port: PortCheck)
    requires Coordinated(s)
    ensures Coordinated(StepBeginStart(s, sel, automatic, port))
  {
    var mode := if automatic then Automatic else Explicit;
    var (st', out) := StartBegin(s.st, sel, mode, s.next, port);
    var s' := StepBeginStart(s, sel, automatic, port);
    StartBeginSlots(s.st, sel, mode, s.next, port);
    hide StartBegin, Resolve, SlotOk;
    if Resolve(s.st, sel).Ok? {
      var id := Resolve(s.st, sel).value;
      var before, after := SlotOf(s.st, id), SlotOf(st', id);
      assert SlotOk(before);
      BeginStartSlotOk(s.st, sel, mode, s.next, port);
      EntryBelow(s, id);
      hide SameElsewhere, Coordinated;
      BeginStartBystanders(s, st', id);
      if out.Launch? {
        NewCallStep(s, s', id, s'.calls[s.next]);
      } else {
        OneRuleStepKeeps(s, s', id, s.next);
      }
    }
  }

  lemma LaunchSucceedsKeeps(s: Sys, c: nat)
    requires Coordinated(s) && StepLaunchSucceeds(s, c).Some?
    ensures Coordinated(StepLaunchSucceeds(s, c).value)
  {
    OneCallStep(s, StepLaunchSucceeds(s, c).value, c);
  }

  lemma LaunchFailsKeeps(s: Sys, c: nat, kind: DiagnosticKind)
    requires Coordinated(s) && StepLaunchFails(s, c, kind).Some?
    ensures Coordinated(StepLaunchFails(s, c, kind).value)
  {
    OneCallStep(s, StepLaunchFails(s, c, kind).value, c);
  }

  /** A step that changes no state, only moves one call on to a call with the same claim. */
  lemma OneCallStep(s: Sys, s': Sys, c: nat)
    requires Coordinated(s) && c in s.calls
    requires s'.st == s.st && s'.calls - {c} == s.calls - {c} && s.next <= s'.next
    requires c in s'.calls ==>
               && RuleOf(s'.calls[c]) == RuleOf(s.calls[c])
               && (MarkerOf(s'.calls[c]) == MarkerOf(s.calls[c]) || MarkerOf(s'.calls[c]).None?)
               && (IsEdit(s'.calls[c]) ==> IsEdit(s.calls[c]))
               && CallOk(SlotOf(s.st, RuleOf(s.calls[c])), s'.calls[c])
    ensures Coordinated(s')
  {
    var id := RuleOf(s.calls[c]);
    assert SlotOk(SlotOf(s.st, id));
    forall d | d in s.calls && d != c && RuleOf(s.calls[d]) == id ensures CallOk(SlotOf(s'.st, id), s.calls[d]) {
      assert CallOk(SlotOf(s.st, id), s.calls[d]);
    }
    if c in s'.calls {
      forall d | d in s.calls && d != c ensures Apart(s'.calls[c], s.calls[d]) {
        assert Apart(s.calls[c], s.calls[d]);
      }
    }
    assert EntryOf(s.st, id).Some? ==> id in s.st.running;
    OneRuleStepKeeps(s, s', id, c);
  }

  lemma CommitStartKeeps(s: Sys, c: nat, now: nat)
    requires Coordinated(s) && StepCommitStart(s, c, now).Some?
    ensures Coordinated(StepCommitStart(s, c, now).value)
  {
    var call := s.calls[c];
    var s' := StepCommitStart(s, c, now).value;
    var before, after := SlotOf(s.st, call.id), SlotOf(s'.st, call.id);
    StartCommitSlots(s.st, call.id, ModeOf(call.purpose), call.managed, now);
    assert CallOk(before, call);
    assert SlotOk(before);
    hide StartCommit;
    if before.entry != Some(Starting(call.managed.marker)) { OneCallStep(s, s', c); return; }
    MarkerHolderStep(s, s', c, true);
  }

  lemma RecordFailureKeeps(s: Sys, c: nat, now: nat)
    requires Coordinated(s) && StepRecordFailure(s, c, now).Some?
    ensures Coordinated(StepRecordFailure(s, c, now).value)
  {
    var call := s.calls[c];
    var s' := StepRecordFailure(s, c, now).value;
    var before, after := SlotOf(s.st, call.id), SlotOf(s'.st, call.id);
    StartFailSlots(s.st, call.id, call.rule, ModeOf(call.purpose), call.marker, call.kind, now);
    assert CallOk(before, call);
    assert SlotOk(before);
    hide StartFail;
    if before.entry != Some(Starting(call.marker)) { OneCallStep(s, s', c); return; }
    MarkerHolderStep(s, s', c, false);
  }

  lemma MarkerHolderBystanders(s: Sys, c: nat, after: Slot)
    requires Coordinated(s) && c in s.calls && MarkerOf(s.calls[c]).Some?
    requires var before := SlotOf(s.st, RuleOf(s.calls[c]));
      && before.entry == Some(Starting(MarkerOf(s.calls[c]).value))
      && after.stored == before.stored && after.editing == before.editing
      && (after.entry.Some? ==> !after.entry.value.Starting?)
    ensures forall d :: d in s.calls && d != c && RuleOf(s.calls[d]) == RuleOf(s.calls[c]) ==> CallOk(after, s.calls[d])
  {
    var id := RuleOf(s.calls[c]);
    forall d | d in s.calls && d != c && RuleOf(s.calls[d]) == id ensures CallOk(after, s.calls[d]) {
      assert Apart(s.calls[c], s.calls[d]);
      BystanderOfEntry(SlotOf(s.st, id), after, s.calls[d]);
    }
  }

  lemma AfterStartClaim(s: Sys, c: nat, after: Slot, active: bool)
    requires Coordinated(s) && c in s.calls && MarkerOf(s.calls[c]).Some?
    requires var before := SlotOf(s.st, RuleOf(s.calls[c]));
      after.stored == before.stored && after.editing == before.editing
    ensures var calls := AfterStart(s, c, PurposeOf(s.calls[c]), active);
      && calls - {c} == s.calls - {c}
      && (c in calls ==>
            && RuleOf(calls[c]) == RuleOf(s.calls[c]) && MarkerOf(calls[c]).None? && IsEdit(s.calls[c])
            && CallOk(after, calls[c]))
  {
    hide Coordinated, SlotOf, ValidRule, Committed;
    if PurposeOf(s.calls[c]).ByEdit? { StartClaim(s, c); }
    hide Target;
  }

  /** The call whose marker is in place replaces it by an entry that is no marker. */
  lemma MarkerHolderStep(s: Sys, s': Sys, c: nat, active: bool)
    requires Coordinated(s) && c in s.calls && MarkerOf(s.calls[c]).Some?
    requires var id := RuleOf(s.calls[c]);
      && SameElsewhere(s.st, s'.st, id)
      && SlotOf(s.st, id).entry == Some(Starting(MarkerOf(s.calls[c]).value))
      && SlotOk(SlotOf(s'.st, id))
      && SlotOf(s'.st, id).stored == SlotOf(s.st, id).stored
      && SlotOf(s'.st, id).editing == SlotOf(s.st, id).editing
      && (SlotOf(s'.st, id).entry.Some? ==> !SlotOf(s'.st, id).entry.value.Starting?)
    requires s'.calls == AfterStart(s, c, PurposeOf(s.calls[c]), active)
    requires s'.next == s.next
    ensures Coordinated(s')
  {
    var id := RuleOf(s.calls[c]);
    var after := SlotOf(s'.st, id);
    MarkerHolderBystanders(s, c, after);
    AfterStartClaim(s, c, after, active);
    assert EntryOf(s'.st, id) == after.entry;
    hide CallOk, SlotOk, SameElsewhere, AfterStart;
    forall d | d in s.calls && d != c && c in s'.calls ensures Apart(s'.calls[c], s.calls[d]) {
      assert Apart(s.calls[c], s.calls[d]);
    }
    assert c < s.next;
    OneRuleStepKeeps(s, s', id, c);
  }

  lemma CallEndKeeps(s: Sys, s': Sys, c: nat)
    requires Coordinated(s) && c in s.calls
    requires s'.st == s.st && s'.calls == s.calls - {c} && s'.next == s.next
    ensures Coordinated(s')
  {
    OneCallStep(s, s', c);
  }

  lemma DiscardEndsKeeps(s: Sys, c: nat)
    requires Coordinated(s) && StepDiscardEnds(s, c).Some?
    ensures Coordinated(StepDiscardEnds(s, c).value)
  {
    assert CallOk(SlotOf(s.st, RuleOf(s.calls[c])), s.calls[c]);
    CallEndKeeps(s, StepDiscardEnds(s, c).value, c);
  }

  lemma BeginStopKeeps(s: Sys, sel: Selector)
    requires Coordinated(s)
    ensures Coordinated(StepBeginStop(s, sel))
  {
    hide Coordinated, SlotOf, SameElsewhere;
    StopSlots(s.st, sel);
    NextIsFresh(s);
    MarkersAreBelow(s);
    var (st', out) := Stop(s.st, sel);
    hide Stop;
    if out.Ok? {
      var id := out.value.0;
      SlotIsOk(s, id);
      NotReserved(s, id, SlotOf(st', id));
      OneRuleStepKeeps(s, StepBeginStop(s, sel), id, s.next);
    }
  }

  lemma StopEndsKeeps(s: Sys, c: nat)
    requires Coordinated(s) && StepStopEnds(s, c).Some?
    ensures Coordinated(StepStopEnds(s, c).value)
  {
    CallEndKeeps(s, StepStopEnds(s, c).value, c);
  }

  lemma RequestedJob(expected: WireRule, replacement: WireRule)
    requires EditRequest(expected, replacement).Ok?
    ensures JobOk(EditRequest(expected, replacement).value)
  {
    RuleRoundTrip(replacement, EditRequest(expected, replacement).value.replacement);
    hide ToDomain, ToWire, ValidRule;
  }

  lemma NotReserved(s: Sys, id: RuleId, after: Slot)
    requires Coordinated(s) && !SlotOf(s.st, id).editing && after.entry.None?
    ensures forall d :: d in s.calls && IsEdit(s.calls[d]) ==> RuleOf(s.calls[d]) != id
    ensures forall d :: d in s.calls && RuleOf(s.calls[d]) == id ==> CallOk(after, s.calls[d])
  {
    forall d | d in s.calls && IsEdit(s.calls[d]) ensures RuleOf(s.calls[d]) != id {
      assert CallOk(SlotOf(s.st, RuleOf(s.calls[d])), s.calls[d]);
    }
    forall d | d in s.calls && RuleOf(s.calls[d]) == id ensures CallOk(after, s.calls[d]) {
      BystanderOfEdit(SlotOf(s.st, id), after, s.calls[d]);
    }
  }

  lemma BeginEditKeeps(s: Sys, expected: WireRule, replacement: WireRule)
    requires Coordinated(s)
    ensures Coordinated(StepBeginEdit(s, expected, replacement))
  {
    hide Coordinated, SlotOf, SameElsewhere, EditRequest, ValidRule, ValidRuleSet, ReplaceRule;
    if EditRequest(expected, replacement).Ok? {
      var job := EditRequest(expected, replacement).value;
      RequestedJob(expected, replacement);
      EditBeginSlots(s.st, job);
      var (st', out) := EditBegin(s.st, job);
      hide EditBegin;
      if out.Ok? {
        var id := job.expected.id;
        SlotIsOk(s, id);
        NotReserved(s, id, SlotOf(st', id));
        NewCallStep(s, StepBeginEdit(s, expected, replacement), id, EditStopping(job, out.value));
      }
    }
  }

  lemma EditStopEndsKeeps(s: Sys, c: nat, stopped: bool)
    requires Coordinated(s) && StepEditStopEnds(s, c, stopped).Some?
    ensures Coordinated(StepEditStopEnds(s, c, stopped).value)
  {
    hide Coordinated, SlotOf, ValidRule;
    EditClaim(s, c);
    OneCallStep(s, StepEditStopEnds(s, c, stopped).value, c);
  }

  /** An edit changes the rule it has reserved. */
  lemma EditorStep(s: Sys, s': Sys, c: nat)
    requires Coordinated(s) && c in s.calls && IsEdit(s.calls[c])
    requires var id := RuleOf(s.calls[c]);
      var entry := SlotOf(s'.st, id).entry;
      && SameElsewhere(s.st, s'.st, id)
      && SlotOk(SlotOf(s'.st, id))
      && (entry.Some? && entry.value.Starting? ==>
            && entry.value.marker < s'.next
            && forall d :: d in s.calls && d != c && RuleOf(s.calls[d]) == id ==>
                 MarkerOf(s.calls[d]) != Some(entry.value.marker))
    requires s'.calls - {c} == s.calls - {c} && s.next <= s'.next
    requires c in s'.calls ==>
               && RuleOf(s'.calls[c]) == RuleOf(s.calls[c])
               && MarkerBelow(MarkerOf(s'.calls[c]), s'.next)
               && (MarkerOf(s'.calls[c]).Some? ==> MarkerOf(s'.calls[c]).value >= s.next)
               && CallOk(SlotOf(s'.st, RuleOf(s.calls[c])), s'.calls[c])
    ensures Coordinated(s')
  {
    var id := RuleOf(s.calls[c]);
    var before, after := SlotOf(s.st, id), SlotOf(s'.st, id);
    forall d | d in s.calls && d != c && RuleOf(s.calls[d]) == id ensures CallOk(after, s.calls[d]) {
      assert Apart(s.calls[c], s.calls[d]);
      assert CallOk(before, s.calls[d]);
    }
    forall d | d in s.calls && d != c && c in s'.calls ensures Apart(s'.calls[c], s.calls[d]) {
      assert Apart(s.calls[c], s.calls[d]);
      assert MarkerBelow(MarkerOf(s.calls[d]), s.next);
    }
    OneRuleStepKeeps(s, s', id, c);
  }

  lemma EditMarksKeeps(s: Sys, c: nat)
    requires Coordinated(s) && StepEditMarks(s, c).Some?
    ensures Coordinated(StepEditMarks(s, c).value)
  {
    hide Coordinated, SlotOf, SameElsewhere, ValidRule;
    EditClaim(s, c);
    SlotIsOk(s, RuleOf(s.calls[c]));
    EditMarkSlots(s.st, RuleOf(s.calls[c]));
    hide EditMarkFailed;
    EditorStep(s, StepEditMarks(s, c).value, c);
  }

  lemma EditSavesKeeps(s: Sys, c: nat, fault: SaveFault)
    requires Coordinated(s) && StepEditSaves(s, c, fault).Some?
    ensures Coordinated(StepEditSaves(s, c, fault).value)
  {
    hide Coordinated, SlotOf, SameElsewhere, ValidRule, Committed;
    EditClaim(s, c);
    SlotIsOk(s, RuleOf(s.calls[c]));
    EditSaveSlots(s.st, s.calls[c].job, fault);
    hide EditSave;
    EditorStep(s, StepEditSaves(s, c, fault).value, c);
  }

  lemma EditRestartsKeeps(s: Sys, c: nat, port: PortCheck)
    requires Coordinated(s) && StepEditRestarts(s, c, port).Some?
    ensures Coordinated(StepEditRestarts(s, c, port).value)
  {
    hide Coordinated, SlotOf, SameElsewhere, ValidRule, Target;
    RestartClaim(s, c);
    SlotIsOk(s, RuleOf(s.calls[c]));
    MarkersAreBelow(s);
    StartBeginSlots(s.st, ById(RuleOf(s.calls[c])), ForEdit, s.next, port);
    hide StartBegin;
    EditorStep(s, StepEditRestarts(s, c, port).value, c);
  }

  lemma EditFinishesKeeps(s: Sys, c: nat)
    requires Coordinated(s) && StepEditFinishes(s, c).Some?
    ensures Coordinated(StepEditFinishes(s, c).value)
  {
    var id := RuleOf(s.calls[c]);
    var s' := StepEditFinishes(s, c).value;
    SlotIsOk(s, id);
    EditFinishSlots(s.st, id);
    hide EditFinish, SameElsewhere, SlotOf;
    forall d | d in s.calls && d != c && RuleOf(s.calls[d]) == id ensures CallOk(SlotOf(s'.st, id), s.calls[d]) {
      assert Apart(s.calls[c], s.calls[d]);
      assert CallOk(SlotOf(s.st, id), s.calls[d]);
    }
    assert EntryOf(s'.st, id) == EntryOf(s.st, id);
    hide SlotOk, CallOk;
    OneRuleStepKeeps(s, s', id, c);
  }

  lemma MaintenanceKeeps(s: Sys, gone: set<RuleId>, now: nat)
    requires Coordinated(s)
    ensures Coordinated(StepMaintenance(s, gone, now))
  {
    var s' := StepMaintenance(s, gone, now);
    forall j ensures SlotOk(SlotOf(s'.st, j)) {
      assert SlotOk(SlotOf(s.st, j));
      MaintainSlots(s.st, gone, now, j);
    }
    forall c | c in s'.calls ensures CallOk(SlotOf(s'.st, RuleOf(s'.calls[c])), s'.calls[c]) {
      var j := RuleOf(s.calls[c]);
      assert SlotOk(SlotOf(s.st, j));
      assert CallOk(SlotOf(s.st, j), s.calls[c]);
      MaintainSlots(s.st, gone, now, j);
      MaintainBystander(SlotOf(s.st, j), SlotOf(s'.st, j), s.calls[c]);
    }
    forall j | j in s'.st.running && s'.st.running[j].Starting? ensures s'.st.running[j].marker < s'.next {
      MaintainSlots(s.st, gone, now, j);
      assert EntryOf(s'.st, j) == EntryOf(s.st, j);
    }
  }

  lemma MaintainBystander(before: Slot, after: Slot, call: Call)
    requires CallOk(before, call)
    requires after.stored == before.stored && after.editing == before.editing
    requires after.entry == before.entry ||
             (&& before.entry.Some? && !before.entry.value.Starting?
              && (after.entry.Some? ==> !after.entry.value.Starting?))
    ensures CallOk(after, call)
  {
  }

  /** Every enabled step keeps the invariant. */
  lemma StepKeeps(s: Sys, step: Step)
    requires Coordinated(s) && Apply(s, step).Some?
    ensures Coordinated(Apply(s, step).value)
  {
    hide Coordinated, StepBeginStart, StepLaunchSucceeds, StepLaunchFails, StepCommitStart, StepRecordFailure,
         StepDiscardEnds, StepBeginStop, StepStopEnds, StepBeginEdit, StepEditStopEnds, StepEditMarks,
         StepEditSaves, StepEditRestarts, StepEditFinishes, StepMaintenance, Add, Import, Remove, UpdateSettings;
    match step
    case AddRule(wire, fault) => AddKeeps(s, wire, fault);
    case ImportRules(wires, fault) => ImportKeeps(s, wires, fault);
    case RemoveRule(sel, fault) => RemoveKeeps(s, sel, fault);
    case ChangeSettings(settings, fault) => SettingsKeep(s, settings, fault);
    case BeginStart(sel, automatic, port) => BeginStartKeeps(s, sel, automatic, port);
    case LaunchSucceeds(c) => LaunchSucceedsKeeps(s, c);
    case LaunchFails(c, kind) => LaunchFailsKeeps(s, c, kind);
    case CommitStart(c, now) => CommitStartKeeps(s, c, now);
    case RecordFailure(c, now) => RecordFailureKeeps(s, c, now);
    case DiscardEnds(c) => DiscardEndsKeeps(s, c);
    case BeginStop(sel) => BeginStopKeeps(s, sel);
    case StopEnds(c) => StopEndsKeeps(s, c);
    case BeginEdit(expected, replacement) => BeginEditKeeps(s, expected, replacement);
    case EditStopEnds(c, stopped) => EditStopEndsKeeps(s, c, stopped);
    case EditMarks(c) => EditMarksKeeps(s, c);
    case EditSaves(c, fault) => EditSavesKeeps(s, c, fault);
    case EditRestarts(c, port) => EditRestartsKeeps(s, c, port);
    case EditFinishes(c) => EditFinishesKeeps(s, c);
    case Maintenance(gone, now) => MaintenanceKeeps(s, gone, now);
  }
}
