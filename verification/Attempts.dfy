/** Launched process attempts are a conserved resource: each live one is held in exactly one place. */
module Attempts {
  import opened Wrappers
  import opened Rules
  import opened Conversion
  import opened Sections
  import opened Slots
  import opened Protocol
  import opened Coordination

  datatype Place = InRunning(id: RuleId) | InCall(call: nat)

  // The attempt a suspended call owns.
  function HeldBy(call: Call): Option<Token> {
    match call
    case Launched(_, managed, _) => Some(managed.token)
    case Discarding(_, managed, _) => Some(managed.token)
    case Stopping(_, managed) => Some(managed.token)
    case EditStopping(_, managed) => Some(managed.token)
    case _ => None
  }

  function HeldIn(entry: Option<Attempt>): Option<Token> {
    if entry.Some? && entry.value.Active? then Some(entry.value.managed.token) else None
  }

  function HeldAt(s: Sys, p: Place): Option<Token> {
    match p
    case InRunning(id) => HeldIn(EntryOf(s.st, id))
    case InCall(c) => if c in s.calls then HeldBy(s.calls[c]) else None
  }

  /** Held attempts are live, live attempts are held, and no attempt is held twice. */
  ghost predicate Conserved(s: Sys) {
    && (forall p :: HeldAt(s, p).Some? ==> HeldAt(s, p).value in s.launched && HeldAt(s, p).value !in s.ended)
    && (forall t :: t in s.launched && t !in s.ended ==> exists p :: HeldAt(s, p) == Some(t))
    && (forall p, q :: HeldAt(s, p).Some? && HeldAt(s, p) == HeldAt(s, q) ==> p == q)
    && s.ended <= s.launched
    && (forall t :: t in s.launched ==> t < s.next)
  }

  // ----- the four ways a step can treat attempts

  ghost predicate Unmoved(s: Sys, s': Sys) {
    && (forall p :: HeldAt(s', p) == HeldAt(s, p))
    && s'.launched == s.launched && s'.ended == s.ended && s.next <= s'.next
  }

  ghost predicate Moved(s: Sys, s': Sys, from: Place, to: Place) {
    && from != to && HeldAt(s, to).None?
    && HeldAt(s', to) == HeldAt(s, from) && HeldAt(s', from).None?
    && (forall p :: p != from && p != to ==> HeldAt(s', p) == HeldAt(s, p))
    && s'.launched == s.launched && s'.ended == s.ended && s.next <= s'.next
  }

  ghost predicate Born(s: Sys, s': Sys, at: Place) {
    && HeldAt(s, at).None? && HeldAt(s', at) == Some(s.next)
    && (forall p :: p != at ==> HeldAt(s', p) == HeldAt(s, p))
    && s'.launched == s.launched + {s.next} && s'.ended == s.ended && s'.next == s.next + 1
  }

  ghost predicate Released(s: Sys, s': Sys) {
    && (forall p :: HeldAt(s', p) == HeldAt(s, p)
                    || (HeldAt(s', p).None? && HeldAt(s, p).value in s'.ended))
    && s.ended <= s'.ended
    && (forall t :: t in s'.ended && t !in s.ended ==>
          exists p :: HeldAt(s, p) == Some(t) && HeldAt(s', p).None?)
    && s'.launched == s.launched && s.next <= s'.next
  }

  lemma UnmovedConserves(s: Sys, s': Sys)
    requires Conserved(s) && Unmoved(s, s')
    ensures Conserved(s')
  {
    forall t | t in s'.launched && t !in s'.ended ensures exists p :: HeldAt(s', p) == Some(t) {
      var p :| HeldAt(s, p) == Some(t);
      assert HeldAt(s', p) == Some(t);
    }
  }

  lemma MovedConserves(s: Sys, s': Sys, from: Place, to: Place)
    requires Conserved(s) && Moved(s, s', from, to)
    ensures Conserved(s')
  {
    forall t | t in s'.launched && t !in s'.ended ensures exists p :: HeldAt(s', p) == Some(t) {
      var p :| HeldAt(s, p) == Some(t);
      assert HeldAt(s', if p == from then to else p) == Some(t);
    }
    forall p, q | HeldAt(s', p).Some? && HeldAt(s', p) == HeldAt(s', q) ensures p == q {
      assert HeldAt(s, if p == to then from else p) == HeldAt(s, if q == to then from else q);
    }
  }

  lemma BornConserves(s: Sys, s': Sys, at: Place)
    requires Conserved(s) && Born(s, s', at)
    ensures Conserved(s')
  {
    assert s.next !in s.launched;
    forall t | t in s'.launched && t !in s'.ended ensures exists p :: HeldAt(s', p) == Some(t) {
      if t == s.next {
        assert HeldAt(s', at) == Some(t);
      } else {
        var p :| HeldAt(s, p) == Some(t);
        assert HeldAt(s', p) == Some(t);
      }
    }
    forall p, q | HeldAt(s', p).Some? && HeldAt(s', p) == HeldAt(s', q) ensures p == q {
      if p != at && q != at { assert HeldAt(s, p) == HeldAt(s, q); }
    }
  }

  lemma ReleasedConserves(s: Sys, s': Sys)
    requires Conserved(s) && Released(s, s')
    ensures Conserved(s')
  {
    forall t | t in s'.launched && t !in s'.ended ensures exists p :: HeldAt(s', p) == Some(t) {
      var p :| HeldAt(s, p) == Some(t);
      assert HeldAt(s', p) == Some(t);
    }
    forall p | HeldAt(s', p).Some? ensures HeldAt(s', p).value in s'.launched && HeldAt(s', p).value !in s'.ended {
      var t := HeldAt(s', p).value;
      assert HeldAt(s, p) == Some(t);
      assert forall q :: HeldAt(s, q) == Some(t) ==> q == p;
    }
    forall t | t in s'.ended ensures t in s'.launched {
      if t !in s.ended {
        var p :| HeldAt(s, p) == Some(t) && HeldAt(s', p).None?;
      }
    }
    forall p, q | HeldAt(s', p).Some? && HeldAt(s', p) == HeldAt(s', q) ensures p == q {
      assert HeldAt(s, p) == HeldAt(s, q);
    }
  }

  // ----- each step

  ghost predicate SameEntries(st: State, st': State, id: RuleId) {
    forall j :: j != id ==> EntryOf(st', j) == EntryOf(st, j)
  }

  lemma ElsewhereEntries(st: State, st': State, id: RuleId)
    requires SameElsewhere(st, st', id)
    ensures SameEntries(st, st', id)
  {
    forall j | j != id ensures EntryOf(st', j) == EntryOf(st, j) {
      assert SlotOf(st', j) == SlotOf(st, j);
    }
  }

  lemma ConfigStepConserves(s: Sys, st': State)
    requires Conserved(s) && forall j :: EntryOf(st', j) == EntryOf(s.st, j)
    ensures Conserved(s.(st := st'))
  {
    UnmovedConserves(s, s.(st := st'));
  }

  lemma BeginStartConserves(s: Sys, sel: Selector, automatic: bool, port: PortCheck)
    requires Conserved(s) && Coordinated(s)
    ensures Conserved(StepBeginStart(s, sel, automatic, port))
  {
    hide Conserved, Coordinated;
    NextIsFresh(s);
    StartHoldsTheSame(s.st, sel, if automatic then Automatic else Explicit, s.next, port);
    hide StartBegin;
    EditorConserves(s, StepBeginStart(s, sel, automatic, port), s.next);
  }

  lemma EditRestartsConserves(s: Sys, c: nat, port: PortCheck)
    requires Conserved(s) && StepEditRestarts(s, c, port).Some?
    ensures Conserved(StepEditRestarts(s, c, port).value)
  {
    hide Conserved;
    StartHoldsTheSame(s.st, ById(s.calls[c].job.expected.id), ForEdit, s.next, port);
    hide StartBegin;
    EditorConserves(s, StepEditRestarts(s, c, port).value, c);
  }

  lemma StartHoldsTheSame(st: State, sel: Selector, mode: StartMode, marker: Marker, port: PortCheck)
    ensures forall j :: HeldIn(EntryOf(StartBegin(st, sel, mode, marker, port).0, j)) == HeldIn(EntryOf(st, j))
  {
    StartBeginSlots(st, sel, mode, marker, port);
    var st' := StartBegin(st, sel, mode, marker, port).0;
    hide StartBegin, SlotOf;
    if Resolve(st, sel).Ok? { SlotsHoldTheSame(st, st', Resolve(st, sel).value); }
  }

  lemma CommitConserves(s: Sys, c: nat, now: nat)
    requires Conserved(s) && StepCommitStart(s, c, now).Some?
    ensures Conserved(StepCommitStart(s, c, now).value)
  {
    var s' := StepCommitStart(s, c, now).value;
    var call := s.calls[c];
    StartCommitSlots(s.st, call.id, ModeOf(call.purpose), call.managed, now);
    ElsewhereEntries(s.st, s'.st, call.id);
    var done := StartCommit(s.st, call.id, ModeOf(call.purpose), call.managed, now).1;
    assert EntryOf(s.st, call.id) == SlotOf(s.st, call.id).entry;
    assert EntryOf(s'.st, call.id) == SlotOf(s'.st, call.id).entry;
    hide StartCommit, SameElsewhere, SlotOf;
    if done {
      assert Moved(s, s', InCall(c), InRunning(call.id));
      MovedConserves(s, s', InCall(c), InRunning(call.id));
    } else {
      UnmovedConserves(s, s');
    }
  }

  lemma RecordConserves(s: Sys, c: nat, now: nat)
    requires Conserved(s) && StepRecordFailure(s, c, now).Some?
    ensures Conserved(StepRecordFailure(s, c, now).value)
  {
    var s' := StepRecordFailure(s, c, now).value;
    var call := s.calls[c];
    StartFailSlots(s.st, call.id, call.rule, ModeOf(call.purpose), call.marker, call.kind, now);
    ElsewhereEntries(s.st, s'.st, call.id);
    assert EntryOf(s.st, call.id) == SlotOf(s.st, call.id).entry;
    assert EntryOf(s'.st, call.id) == SlotOf(s'.st, call.id).entry;
    hide StartFail, SameElsewhere, SlotOf;
    UnmovedConserves(s, s');
  }

  lemma BeginStopConserves(s: Sys, sel: Selector)
    requires Conserved(s) && Coordinated(s)
    ensures Conserved(StepBeginStop(s, sel))
  {
    hide Conserved, Coordinated;
    NextIsFresh(s);
    StopSlots(s.st, sel);
    var s' := StepBeginStop(s, sel);
    var out := Stop(s.st, sel).1;
    hide Stop, SlotOf, SameElsewhere;
    if out.Ok? {
      if HeldIn(out.value.1).Some? {
        AttemptMovesToCall(s, s', out.value.0, Stopping(out.value.0, out.value.1.value.managed));
      } else {
        SlotsHoldTheSame(s.st, s'.st, out.value.0);
        EditorConserves(s, s', s.next);
      }
    }
  }

  /** A call that takes an active attempt out of the running map holds it from then on. */
  lemma AttemptMovesToCall(s: Sys, s': Sys, id: RuleId, call: Call)
    requires Conserved(s) && s.next !in s.calls
    requires SameElsewhere(s.st, s'.st, id) && SlotOf(s'.st, id).entry.None?
    requires HeldIn(SlotOf(s.st, id).entry).Some? && HeldBy(call) == HeldIn(SlotOf(s.st, id).entry)
    requires s'.calls == s.calls[s.next := call] && s'.next == s.next + 1
    requires s'.launched == s.launched && s'.ended == s.ended
    ensures Conserved(s')
  {
    ElsewhereEntries(s.st, s'.st, id);
    assert EntryOf(s.st, id) == SlotOf(s.st, id).entry && EntryOf(s'.st, id) == SlotOf(s'.st, id).entry;
    hide SameElsewhere, SlotOf;
    assert Moved(s, s', InRunning(id), InCall(s.next));
    MovedConserves(s, s', InRunning(id), InCall(s.next));
  }

  lemma EditTakesAttempt(s: Sys, job: EditJob)
    requires Conserved(s) && s.next !in s.calls && EditBegin(s.st, job).1.Ok?
    ensures var (st', out) := EditBegin(s.st, job);
      Conserved(s.(st := st', calls := s.calls[s.next := EditStopping(job, out.value)], next := s.next + 1))
  {
    hide Conserved, SlotOf, SameElsewhere, ValidRuleSet, ReplaceRule;
    var (st', out) := EditBegin(s.st, job);
    EditBeginSlots(s.st, job);
    hide EditBegin;
    var s' := s.(st := st', calls := s.calls[s.next := EditStopping(job, out.value)], next := s.next + 1);
    AttemptMovesToCall(s, s', job.expected.id, EditStopping(job, out.value));
  }

  lemma BeginEditConserves(s: Sys, expected: WireRule, replacement: WireRule)
    requires Conserved(s) && Coordinated(s)
    ensures Conserved(StepBeginEdit(s, expected, replacement))
  {
    hide Conserved, Coordinated, EditRequest, EditBegin;
    NextIsFresh(s);
    if EditRequest(expected, replacement).Ok? {
      var job := EditRequest(expected, replacement).value;
      if EditBegin(s.st, job).1.Ok? { EditTakesAttempt(s, job); }
    }
  }

  /** The calls that end an attempt hold it until then. */
  lemma CallReleases(s: Sys, s': Sys, c: nat)
    requires Conserved(s) && c in s.calls && HeldBy(s.calls[c]).Some?
    requires s'.st == s.st && s'.calls - {c} == s.calls - {c} && (c in s'.calls ==> HeldBy(s'.calls[c]).None?)
    requires s'.ended == s.ended + {HeldBy(s.calls[c]).value} && s'.launched == s.launched && s'.next == s.next
    ensures Conserved(s')
  {
    assert forall d :: d != c ==> (d in s'.calls <==> d in s'.calls - {c}) && (d in s.calls <==> d in s.calls - {c});
    assert forall d :: d in s'.calls - {c} ==> s'.calls[d] == (s'.calls - {c})[d];
    assert forall d :: d in s.calls - {c} ==> s.calls[d] == (s.calls - {c})[d];
    assert HeldAt(s, InCall(c)) == HeldBy(s.calls[c]) && HeldAt(s', InCall(c)).None?;
    ReleasedConserves(s, s');
  }

  lemma EditorConserves(s: Sys, s': Sys, c: nat)
    requires Conserved(s) && (c in s.calls ==> HeldBy(s.calls[c]).None?)
    requires s'.calls - {c} == s.calls - {c} && (c in s'.calls ==> HeldBy(s'.calls[c]).None?)
    requires forall j :: HeldIn(EntryOf(s'.st, j)) == HeldIn(EntryOf(s.st, j))
    requires s'.ended == s.ended && s'.launched == s.launched && s.next <= s'.next
    ensures Conserved(s')
  {
    assert forall d :: d != c ==> (d in s'.calls <==> d in s'.calls - {c}) && (d in s.calls <==> d in s.calls - {c});
    assert forall d :: d in s'.calls - {c} ==> s'.calls[d] == (s'.calls - {c})[d];
    assert forall d :: d in s.calls - {c} ==> s.calls[d] == (s.calls - {c})[d];
    UnmovedConserves(s, s');
  }

  lemma EditMarksConserves(s: Sys, c: nat)
    requires Conserved(s) && Coordinated(s) && StepEditMarks(s, c).Some?
    ensures Conserved(StepEditMarks(s, c).value)
  {
    hide Coordinated, Conserved, ValidRule, SlotOf, SameElsewhere, Committed;
    var id := s.calls[c].job.expected.id;
    EditClaim(s, c);
    EditMarkSlots(s.st, id);
    SlotsHoldTheSame(s.st, StepEditMarks(s, c).value.st, id);
    hide EditMarkFailed;
    EditorConserves(s, StepEditMarks(s, c).value, c);
  }

  lemma EditSavesConserves(s: Sys, c: nat, fault: SaveFault)
    requires Conserved(s) && Coordinated(s) && StepEditSaves(s, c, fault).Some?
    ensures Conserved(StepEditSaves(s, c, fault).value)
  {
    hide Coordinated, Conserved, ValidRule, SlotOf, SameElsewhere, Committed;
    var id := s.calls[c].job.expected.id;
    EditClaim(s, c);
    EditSaveSlots(s.st, s.calls[c].job, fault);
    SlotsHoldTheSame(s.st, StepEditSaves(s, c, fault).value.st, id);
    hide EditSave;
    EditorConserves(s, StepEditSaves(s, c, fault).value, c);
  }

  lemma EditFinishesConserves(s: Sys, c: nat)
    requires Conserved(s) && StepEditFinishes(s, c).Some?
    ensures Conserved(StepEditFinishes(s, c).value)
  {
    var id := s.calls[c].job.expected.id;
    EditFinishSlots(s.st, id);
    hide EditFinish, Conserved;
    SlotsHoldTheSame(s.st, StepEditFinishes(s, c).value.st, id);
    EditorConserves(s, StepEditFinishes(s, c).value, c);
  }

  lemma SlotsHoldTheSame(st: State, st': State, id: RuleId)
    requires SameElsewhere(st, st', id) && HeldIn(SlotOf(st', id).entry) == HeldIn(SlotOf(st, id).entry)
    ensures forall j :: HeldIn(EntryOf(st', j)) == HeldIn(EntryOf(st, j))
  {
    ElsewhereEntries(st, st', id);
    assert EntryOf(st, id) == SlotOf(st, id).entry && EntryOf(st', id) == SlotOf(st', id).entry;
  }

  lemma MaintenanceConserves(s: Sys, gone: set<RuleId>, now: nat)
    requires Conserved(s)
    ensures Conserved(StepMaintenance(s, gone, now))
  {
    var s' := StepMaintenance(s, gone, now);
    forall p ensures HeldAt(s', p) == HeldAt(s, p) || (HeldAt(s', p).None? && HeldAt(s, p).value in s'.ended) {
      if p.InRunning? {
        MaintainSlots(s.st, gone, now, p.id);
        assert EntryOf(s.st, p.id) == SlotOf(s.st, p.id).entry && EntryOf(s'.st, p.id) == SlotOf(s'.st, p.id).entry;
        if HeldIn(EntryOf(s.st, p.id)).Some? && p.id in gone {
          assert p.id in EndedIds(s.st, gone);
        }
      }
    }
    forall t | t in s'.ended && t !in s.ended ensures exists p :: HeldAt(s, p) == Some(t) && HeldAt(s', p).None? {
      var id :| id in EndedIds(s.st, gone) && s.st.running[id].managed.token == t;
      MaintainSlots(s.st, gone, now, id);
      assert EntryOf(s.st, id) == SlotOf(s.st, id).entry && EntryOf(s'.st, id) == SlotOf(s'.st, id).entry;
      assert HeldAt(s, InRunning(id)) == Some(t) && HeldAt(s', InRunning(id)).None?;
    }
    hide Maintain, HeldAt;
    ReleasedConserves(s, s');
  }

  lemma ConfigMovesNoEntry(s: Sys, step: Step)
    requires step.AddRule? || step.ImportRules? || step.RemoveRule? || step.ChangeSettings?
    ensures Apply(s, step).Some? && Apply(s, step).value == s.(st := Apply(s, step).value.st)
    ensures Apply(s, step).value.st.running == s.st.running
  {
    hide ToDomain, AllToDomain, ValidRuleSet, SaveConfig, Upsert, WithoutRule, FreshIds, Resolve;
  }

  lemma ConfigConserves(s: Sys, step: Step)
    requires Conserved(s)
    requires step.AddRule? || step.ImportRules? || step.RemoveRule? || step.ChangeSettings?
    ensures Conserved(Apply(s, step).value)
  {
    ConfigMovesNoEntry(s, step);
    hide Conserved, Apply;
    ConfigStepConserves(s, Apply(s, step).value.st);
  }

  lemma StopEndsConserves(s: Sys, step: Step)
    requires Conserved(s) && Apply(s, step).Some?
    requires step.DiscardEnds? || step.StopEnds? || step.EditStopEnds?
    ensures Conserved(Apply(s, step).value)
  {
    hide Conserved;
    match step
    case DiscardEnds(c) => CallReleases(s, StepDiscardEnds(s, c).value, c);
    case StopEnds(c) => CallReleases(s, StepStopEnds(s, c).value, c);
    case EditStopEnds(c, stopped) => CallReleases(s, StepEditStopEnds(s, c, stopped).value, c);
  }

  lemma StepConserves(s: Sys, step: Step)
    requires Conserved(s) && Coordinated(s) && Apply(s, step).Some?
    ensures Conserved(Apply(s, step).value)
  {
    hide Conserved, Coordinated, StepBeginStart, StepLaunchSucceeds, StepLaunchFails, StepCommitStart,
         StepRecordFailure, StepDiscardEnds, StepBeginStop, StepStopEnds, StepBeginEdit, StepEditStopEnds,
         StepEditMarks, StepEditSaves, StepEditRestarts, StepEditFinishes, StepMaintenance, Add, Import, Remove,
         UpdateSettings;
    match step
    case AddRule(_, _) => ConfigConserves(s, step);
    case ImportRules(_, _) => ConfigConserves(s, step);
    case RemoveRule(_, _) => ConfigConserves(s, step);
    case ChangeSettings(_, _) => ConfigConserves(s, step);
    case BeginStart(sel, automatic, port) => BeginStartConserves(s, sel, automatic, port);
    case LaunchSucceeds(c) => LaunchConserves(s, c);
    case LaunchFails(c, kind) => LaunchFailsConserves(s, c, kind);
    case CommitStart(c, now) => CommitConserves(s, c, now);
    case RecordFailure(c, now) => RecordConserves(s, c, now);
    case DiscardEnds(_) => StopEndsConserves(s, step);
    case BeginStop(sel) => BeginStopConserves(s, sel);
    case StopEnds(_) => StopEndsConserves(s, step);
    case BeginEdit(expected, replacement) => BeginEditConserves(s, expected, replacement);
    case EditStopEnds(_, _) => StopEndsConserves(s, step);
    case EditMarks(c) => EditMarksConserves(s, c);
    case EditSaves(c, fault) => EditSavesConserves(s, c, fault);
    case EditRestarts(c, port) => EditRestartsConserves(s, c, port);
    case EditFinishes(c) => EditFinishesConserves(s, c);
    case Maintenance(gone, now) => MaintenanceConserves(s, gone, now);
  }

  lemma LaunchFailsConserves(s: Sys, c: nat, kind: DiagnosticKind)
    requires Conserved(s) && StepLaunchFails(s, c, kind).Some?
    ensures Conserved(StepLaunchFails(s, c, kind).value)
  {
    EditorConserves(s, StepLaunchFails(s, c, kind).value, c);
  }

  lemma LaunchConserves(s: Sys, c: nat)
    requires Conserved(s) && StepLaunchSucceeds(s, c).Some?
    ensures Conserved(StepLaunchSucceeds(s, c).value)
  {
    BornConserves(s, StepLaunchSucceeds(s, c).value, InCall(c));
  }
}
