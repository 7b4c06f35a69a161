/** Nothing is left behind: markers and edit reservations always belong to a call still in flight. */
module Orphans {
  import opened Wrappers
  import opened Rules
  import opened Conversion
  import opened Sections
  import opened Slots
  import opened Protocol
  import opened Coordination
  import opened Preservation
  import opened Lifecycle
  import Desired

  // The call at `c` stands behind what the daemon shows of this rule.
  predicate Backs(call: Call, slot: Slot, id: RuleId) {
    && RuleOf(call) == id
    && (slot.editing ==> IsEdit(call))
    && (slot.entry.Some? && slot.entry.value.Starting? ==> MarkerOf(call) == Some(slot.entry.value.marker))
  }

  predicate NeedsCall(slot: Slot) {
    slot.editing || (slot.entry.Some? && slot.entry.value.Starting?)
  }

  ghost predicate NoOrphans(s: Sys) {
    forall id :: NeedsCall(SlotOf(s.st, id)) ==>
      exists c :: c in s.calls && Backs(s.calls[c], SlotOf(s.st, id), id)
  }

  function CallAt(s: Sys, c: nat): Option<Call> {
    if c in s.calls then Some(s.calls[c]) else None
  }

  // After the step the rule needs no call, or has the stepping call, or still has the call it had.
  predicate Covered(before: Slot, after: Slot, was: Option<Call>, is_: Option<Call>, id: RuleId) {
    NeedsCall(after) ==>
      || (is_.Some? && Backs(is_.value, after, id))
      || (&& NeedsCall(before)
          && (was.Some? ==> !Backs(was.value, before, id))
          && (after.editing ==> before.editing)
          && (after.entry.Some? && after.entry.value.Starting? ==> after.entry == before.entry))
  }

  lemma StepLeavesNoOrphans(s: Sys, s': Sys, id: RuleId, c: nat)
    requires NoOrphans(s) && SameElsewhere(s.st, s'.st, id)
    requires s'.calls - {c} == s.calls - {c} && (c in s.calls ==> RuleOf(s.calls[c]) == id)
    requires Covered(SlotOf(s.st, id), SlotOf(s'.st, id), CallAt(s, c), CallAt(s', c), id)
    ensures NoOrphans(s')
  {
    hide SlotOf;
    forall j | NeedsCall(SlotOf(s'.st, j))
      ensures exists d :: d in s'.calls && Backs(s'.calls[d], SlotOf(s'.st, j), j)
    {
      if j == id && c in s'.calls && Backs(s'.calls[c], SlotOf(s'.st, id), id) {
      } else {
        var d :| d in s.calls && Backs(s.calls[d], SlotOf(s.st, j), j);
        assert d != c && d in s.calls - {c};
        assert d in s'.calls - {c} && s'.calls[d] == (s'.calls - {c})[d] == (s.calls - {c})[d];
        assert Backs(s'.calls[d], SlotOf(s'.st, j), j);
      }
    }
  }

  lemma ConfigKeepsNeeds(s: Sys, step: Step)
    requires step.AddRule? || step.ImportRules? || step.RemoveRule? || step.ChangeSettings?
    ensures Apply(s, step).Some?
    ensures var s' := Apply(s, step).value;
      s'.calls == s.calls && s'.st.running == s.st.running && s'.st.editing == s.st.editing
  {
    hide ToDomain, AllToDomain, ValidRuleSet, SaveConfig, Upsert, WithoutRule, FreshIds, Resolve;
  }

  lemma ConfigLeavesNoOrphans(s: Sys, step: Step)
    requires NoOrphans(s) && (step.AddRule? || step.ImportRules? || step.RemoveRule? || step.ChangeSettings?)
    ensures NoOrphans(Apply(s, step).value)
  {
    ConfigKeepsNeeds(s, step);
    hide NoOrphans, Apply;
    SameNeedsNoOrphans(s, Apply(s, step).value);
  }

  lemma SameNeedsNoOrphans(s: Sys, s': Sys)
    requires NoOrphans(s) && s'.calls == s.calls && s'.st.running == s.st.running && s'.st.editing == s.st.editing
    ensures NoOrphans(s')
  {
    forall j | NeedsCall(SlotOf(s'.st, j))
      ensures exists c :: c in s'.calls && Backs(s'.calls[c], SlotOf(s'.st, j), j)
    {
      assert SlotOf(s'.st, j).entry == SlotOf(s.st, j).entry && SlotOf(s'.st, j).editing == SlotOf(s.st, j).editing;
      var c :| c in s.calls && Backs(s.calls[c], SlotOf(s.st, j), j);
      assert Backs(s'.calls[c], SlotOf(s'.st, j), j);
    }
  }

  lemma BeginStartLeavesNoOrphans(s: Sys, sel: Selector, automatic: bool, port: PortCheck)
    requires NoOrphans(s) && Coordinated(s)
    ensures NoOrphans(StepBeginStart(s, sel, automatic, port))
  {
    var s' := StepBeginStart(s, sel, automatic, port);
    hide Coordinated, NoOrphans;
    NextIsFresh(s);
    StartBeginSlots(s.st, sel, if automatic then Automatic else Explicit, s.next, port);
    assert s'.calls - {s.next} == s.calls - {s.next};
    hide StartBegin, SlotOf, SameElsewhere;
    if Resolve(s.st, sel).Ok? {
      StepLeavesNoOrphans(s, s', Resolve(s.st, sel).value, s.next);
    }
  }

  /** A step that changes no state and leaves the call, or a call that can back no more and no less. */
  lemma CallLeavesNoOrphans(s: Sys, s': Sys, c: nat)
    requires NoOrphans(s) && c in s.calls && s'.st == s.st && s'.calls - {c} == s.calls - {c}
    requires c in s'.calls ==>
               RuleOf(s'.calls[c]) == RuleOf(s.calls[c]) && IsEdit(s'.calls[c]) == IsEdit(s.calls[c])
               && MarkerOf(s'.calls[c]) == MarkerOf(s.calls[c])
    requires c !in s'.calls ==> !IsEdit(s.calls[c]) && MarkerOf(s.calls[c]).None?
    ensures NoOrphans(s')
  {
    hide NoOrphans, SlotOf;
    StepLeavesNoOrphans(s, s', RuleOf(s.calls[c]), c);
  }

  lemma CommitLeavesNoOrphans(s: Sys, c: nat, now: nat)
    requires NoOrphans(s) && Coordinated(s) && StepCommitStart(s, c, now).Some?
    ensures NoOrphans(StepCommitStart(s, c, now).value)
  {
    hide Coordinated, NoOrphans, SlotOf, SameElsewhere;
    var s' := StepCommitStart(s, c, now).value;
    var call := s.calls[c];
    assert s'.calls - {c} == s.calls - {c};
    CommittedIsCovered(s, c, now);
    StartCommitSlots(s.st, call.id, ModeOf(call.purpose), call.managed, now);
    hide StartCommit, Covered;
    StepLeavesNoOrphans(s, s', call.id, c);
  }

  lemma CommittedIsCovered(s: Sys, c: nat, now: nat)
    requires NoOrphans(s) && Coordinated(s) && StepCommitStart(s, c, now).Some?
    ensures var s' := StepCommitStart(s, c, now).value;
      var id := s.calls[c].id;
      Covered(SlotOf(s.st, id), SlotOf(s'.st, id), CallAt(s, c), CallAt(s', c), id)
  {
    hide Coordinated, NoOrphans, SlotOf, SameElsewhere;
    var call := s.calls[c];
    if call.purpose.ByEdit? { StartClaim(s, c); }
    StartCommitSlots(s.st, call.id, ModeOf(call.purpose), call.managed, now);
    NoEditorInTheWay(s, c);
    hide StartCommit, Target, JobOk;
  }

  lemma RecordLeavesNoOrphans(s: Sys, c: nat, now: nat)
    requires NoOrphans(s) && Coordinated(s) && StepRecordFailure(s, c, now).Some?
    ensures NoOrphans(StepRecordFailure(s, c, now).value)
  {
    hide Coordinated, NoOrphans, SlotOf, SameElsewhere;
    var s' := StepRecordFailure(s, c, now).value;
    var call := s.calls[c];
    if call.purpose.ByEdit? { StartClaim(s, c); }
    assert s'.calls - {c} == s.calls - {c};
    StartFailSlots(s.st, call.id, call.rule, ModeOf(call.purpose), call.marker, call.kind, now);
    NoEditorInTheWay(s, c);
    hide StartFail, Target, JobOk;
    StepLeavesNoOrphans(s, s', call.id, c);
  }

  /** While a start of a rule holds its marker, only that start can be backing an edit of the rule. */
  lemma NoEditorInTheWay(s: Sys, c: nat)
    requires Coordinated(s) && NoOrphans(s) && c in s.calls && MarkerOf(s.calls[c]).Some?
    ensures var id := RuleOf(s.calls[c]);
      var slot := SlotOf(s.st, id);
      slot.entry == Some(Starting(MarkerOf(s.calls[c]).value)) ==>
        slot.editing ==> IsEdit(s.calls[c])
  {
    var id := RuleOf(s.calls[c]);
    var slot := SlotOf(s.st, id);
    if slot.editing && slot.entry == Some(Starting(MarkerOf(s.calls[c]).value)) {
      assert NeedsCall(slot);
      var d :| d in s.calls && Backs(s.calls[d], slot, id);
      assert c != d ==> Apart(s.calls[c], s.calls[d]);
    }
  }

  lemma StopLeavesNoOrphans(s: Sys, sel: Selector)
    requires NoOrphans(s) && Coordinated(s)
    ensures NoOrphans(StepBeginStop(s, sel))
  {
    hide Coordinated, NoOrphans, SlotOf, SameElsewhere;
    var s' := StepBeginStop(s, sel);
    NextIsFresh(s);
    StopSlots(s.st, sel);
    assert s'.calls - {s.next} == s.calls - {s.next};
    hide Stop;
    if Stop(s.st, sel).1.Ok? { StepLeavesNoOrphans(s, s', Stop(s.st, sel).1.value.0, s.next); }
  }

  lemma BeginEditLeavesNoOrphans(s: Sys, expected: WireRule, replacement: WireRule)
    requires NoOrphans(s) && Coordinated(s)
    ensures NoOrphans(StepBeginEdit(s, expected, replacement))
  {
    assert s.next !in s.calls;
    if EditRequest(expected, replacement).Ok? {
      var s' := StepBeginEdit(s, expected, replacement);
      var job := EditRequest(expected, replacement).value;
      hide EditRequest, Coordinated, NoOrphans, ValidRuleSet, ReplaceRule;
      var (st', out) := EditBegin(s.st, job);
      EditBeginSlots(s.st, job);
      hide EditBegin, SlotOf, SameElsewhere;
      if out.Ok? { OpenedEditBacksItself(s, s', job, out.value); }
    }
  }

  lemma OpenedEditBacksItself(s: Sys, s': Sys, job: EditJob, managed: Managed)
    requires NoOrphans(s) && s.next !in s.calls
    requires SameElsewhere(s.st, s'.st, job.expected.id) && SlotOf(s'.st, job.expected.id).entry.None?
    requires s'.calls == s.calls[s.next := EditStopping(job, managed)]
    ensures NoOrphans(s')
  {
    assert s'.calls - {s.next} == s.calls - {s.next};
    hide NoOrphans, SlotOf, SameElsewhere;
    StepLeavesNoOrphans(s, s', job.expected.id, s.next);
  }

  lemma EditMarksLeavesNoOrphans(s: Sys, c: nat)
    requires NoOrphans(s) && Coordinated(s) && StepEditMarks(s, c).Some?
    ensures NoOrphans(StepEditMarks(s, c).value)
  {
    hide NoOrphans, Coordinated, ValidRule, SlotOf, SameElsewhere, Committed;
    var s' := StepEditMarks(s, c).value;
    assert s'.calls - {c} == s.calls - {c};
    EditMarkSlots(s.st, RuleOf(s.calls[c]));
    hide EditMarkFailed;
    StepLeavesNoOrphans(s, s', RuleOf(s.calls[c]), c);
  }

  lemma EditSavesLeavesNoOrphans(s: Sys, c: nat, fault: SaveFault)
    requires NoOrphans(s) && Coordinated(s) && StepEditSaves(s, c, fault).Some?
    ensures NoOrphans(StepEditSaves(s, c, fault).value)
  {
    hide NoOrphans, Coordinated, ValidRule, SlotOf, SameElsewhere, Committed;
    var s' := StepEditSaves(s, c, fault).value;
    EditClaim(s, c);
    assert s'.calls - {c} == s.calls - {c};
    EditSaveSlots(s.st, s.calls[c].job, fault);
    hide EditSave;
    StepLeavesNoOrphans(s, s', RuleOf(s.calls[c]), c);
  }

  lemma EditRestartsLeavesNoOrphans(s: Sys, c: nat, port: PortCheck)
    requires NoOrphans(s) && Coordinated(s) && StepEditRestarts(s, c, port).Some?
    ensures NoOrphans(StepEditRestarts(s, c, port).value)
  {
    hide NoOrphans, Coordinated, ValidRule, SlotOf, SameElsewhere, Committed;
    var s' := StepEditRestarts(s, c, port).value;
    RestartClaim(s, c);
    assert s'.calls - {c} == s.calls - {c};
    StartBeginSlots(s.st, ById(RuleOf(s.calls[c])), ForEdit, s.next, port);
    hide StartBegin;
    StepLeavesNoOrphans(s, s', RuleOf(s.calls[c]), c);
  }

  lemma EditFinishesLeavesNoOrphans(s: Sys, c: nat)
    requires NoOrphans(s) && Coordinated(s) && StepEditFinishes(s, c).Some?
    ensures NoOrphans(StepEditFinishes(s, c).value)
  {
    var s' := StepEditFinishes(s, c).value;
    assert s'.calls - {c} == s.calls - {c};
    EditFinishSlots(s.st, RuleOf(s.calls[c]));
    FinisherHoldsNoMarker(s, c);
    hide NoOrphans, Coordinated, EditFinish, SlotOf, SameElsewhere;
    StepLeavesNoOrphans(s, s', RuleOf(s.calls[c]), c);
  }

  lemma FinisherHoldsNoMarker(s: Sys, c: nat)
    requires NoOrphans(s) && Coordinated(s) && c in s.calls && s.calls[c].EditFinishing?
    ensures var entry := SlotOf(s.st, RuleOf(s.calls[c])).entry; entry.Some? ==> !entry.value.Starting?
  {
    var id := RuleOf(s.calls[c]);
    var slot := SlotOf(s.st, id);
    assert CallOk(slot, s.calls[c]);
    var d :| d in s.calls && Backs(s.calls[d], slot, id);
    assert c != d ==> Apart(s.calls[c], s.calls[d]);
  }

  lemma MaintenanceLeavesNoOrphans(s: Sys, gone: set<RuleId>, now: nat)
    requires NoOrphans(s)
    ensures NoOrphans(StepMaintenance(s, gone, now))
  {
    var s' := StepMaintenance(s, gone, now);
    forall j | NeedsCall(SlotOf(s'.st, j))
      ensures exists c :: c in s'.calls && Backs(s'.calls[c], SlotOf(s'.st, j), j)
    {
      MaintainSlots(s.st, gone, now, j);
      assert NeedsCall(SlotOf(s.st, j));
      var c :| c in s.calls && Backs(s.calls[c], SlotOf(s.st, j), j);
      assert Backs(s'.calls[c], SlotOf(s'.st, j), j);
    }
  }

  lemma DiscardLeavesNoOrphans(s: Sys, c: nat)
    requires NoOrphans(s) && Coordinated(s) && StepDiscardEnds(s, c).Some?
    ensures NoOrphans(StepDiscardEnds(s, c).value)
  {
    hide NoOrphans, Coordinated;
    NoEditDiscards(s, c);
    CallLeavesNoOrphans(s, StepDiscardEnds(s, c).value, c);
  }

  lemma LaunchOrStopLeavesNoOrphans(s: Sys, step: Step)
    requires NoOrphans(s) && Apply(s, step).Some?
    requires step.LaunchSucceeds? || step.LaunchFails? || step.StopEnds? || step.EditStopEnds?
    ensures NoOrphans(Apply(s, step).value)
  {
    hide NoOrphans;
    match step
    case LaunchSucceeds(c) => CallLeavesNoOrphans(s, StepLaunchSucceeds(s, c).value, c);
    case LaunchFails(c, kind) => CallLeavesNoOrphans(s, StepLaunchFails(s, c, kind).value, c);
    case StopEnds(c) => CallLeavesNoOrphans(s, StepStopEnds(s, c).value, c);
    case EditStopEnds(c, stopped) => CallLeavesNoOrphans(s, StepEditStopEnds(s, c, stopped).value, c);
  }

  lemma StepKeepsNoOrphans(s: Sys, step: Step)
    requires NoOrphans(s) && Coordinated(s) && Apply(s, step).Some?
    ensures NoOrphans(Apply(s, step).value)
  {
    hide NoOrphans, Coordinated, StepBeginStart, StepLaunchSucceeds, StepLaunchFails, StepCommitStart,
         StepRecordFailure, StepDiscardEnds, StepBeginStop, StepStopEnds, StepBeginEdit, StepEditStopEnds,
         StepEditMarks, StepEditSaves, StepEditRestarts, StepEditFinishes, StepMaintenance, Add, Import, Remove,
         UpdateSettings;
    match step
    case AddRule(_, _) => ConfigLeavesNoOrphans(s, step);
    case ImportRules(_, _) => ConfigLeavesNoOrphans(s, step);
    case RemoveRule(_, _) => ConfigLeavesNoOrphans(s, step);
    case ChangeSettings(_, _) => ConfigLeavesNoOrphans(s, step);
    case BeginStart(sel, automatic, port) => BeginStartLeavesNoOrphans(s, sel, automatic, port);
    case LaunchSucceeds(_) => LaunchOrStopLeavesNoOrphans(s, step);
    case LaunchFails(_, _) => LaunchOrStopLeavesNoOrphans(s, step);
    case CommitStart(c, now) => CommitLeavesNoOrphans(s, c, now);
    case RecordFailure(c, now) => RecordLeavesNoOrphans(s, c, now);
    case DiscardEnds(c) => DiscardLeavesNoOrphans(s, c);
    case BeginStop(sel) => StopLeavesNoOrphans(s, sel);
    case StopEnds(_) => LaunchOrStopLeavesNoOrphans(s, step);
    case BeginEdit(expected, replacement) => BeginEditLeavesNoOrphans(s, expected, replacement);
    case EditStopEnds(_, _) => LaunchOrStopLeavesNoOrphans(s, step);
    case EditMarks(c) => EditMarksLeavesNoOrphans(s, c);
    case EditSaves(c, fault) => EditSavesLeavesNoOrphans(s, c, fault);
    case EditRestarts(c, port) => EditRestartsLeavesNoOrphans(s, c, port);
    case EditFinishes(c) => EditFinishesLeavesNoOrphans(s, c);
    case Maintenance(gone, now) => MaintenanceLeavesNoOrphans(s, gone, now);
  }

  lemma {:induction false} RunKeepsNoOrphans(s: Sys, steps: seq<Step>)
    requires NoOrphans(s) && Coordinated(s) && Run(s, steps).Some?
    ensures NoOrphans(Run(s, steps).value)
    decreases steps
  {
    if steps != [] {
      hide NoOrphans, Coordinated, Apply;
      StepKeepsNoOrphans(s, steps[0]);
      StepKeeps(s, steps[0]);
      RunKeepsNoOrphans(Apply(s, steps[0]).value, steps[1..]);
    }
  }

  /**
   * A rule shown as starting has a start in flight that holds exactly its marker, and a rule reserved by
   * an edit has that edit in flight: neither state can be left behind.
   */
  lemma NothingIsLeftBehind(s: Sys, id: RuleId)
    requires Reachable(s)
    ensures id in s.st.running && s.st.running[id].Starting? ==>
              exists c :: c in s.calls && RuleOf(s.calls[c]) == id
                          && MarkerOf(s.calls[c]) == Some(s.st.running[id].marker)
    ensures id in s.st.editing ==> exists c :: c in s.calls && RuleOf(s.calls[c]) == id && IsEdit(s.calls[c])
  {
    var file, steps :| Reaches(file, steps, s);
    OpenedIsSound(file);
    RunKeepsNoOrphans(Opened(file, Desired.DecodedFile(file).value), steps);
    var slot := SlotOf(s.st, id);
    if NeedsCall(slot) {
      var c :| c in s.calls && Backs(s.calls[c], slot, id);
    }
  }
}
