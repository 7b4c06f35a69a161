/** The main results about the manager: what holds in every reachable state and over every run. */
module Lifecycle {
  import opened Wrappers
  import opened Rules
  import opened Conversion
  import opened Sections
  import opened Slots
  import opened Protocol
  import opened Coordination
  import opened Preservation
  import opened Desired
  import opened Attempts
  import opened Refinement
  import Status

  ghost predicate Sound(s: Sys) {
    Coordinated(s) && Conserved(s) && DataOk(s.st)
  }

  /** The daemon opens on a readable file or none, and every run from there stays sound. */
  lemma OpenedIsSound(file: Option<ConfigV2>)
    requires DecodedFile(file).Ok?
    ensures Sound(Opened(file, DecodedFile(file).value))
  {
    OpenedDataOk(file);
    OpenedIsCoordinated(file);
    hide DataOk, DecodedFile, Coordinated;
  }

  lemma OpenedDataOk(file: Option<ConfigV2>)
    requires DecodedFile(file).Ok?
    ensures DataOk(Opened(file, DecodedFile(file).value).st)
  {
    var p := DecodedFile(file).value;
    if file.Some? {
      DomainIsValid(file.value);
    }
    ValidRuleSetIsPairwise(p.rules);
    hide IntoDomain, ValidRule, PairwiseCompatible, RuleSetErrors;
  }

  lemma OpenedIsCoordinated(file: Option<ConfigV2>)
    requires DecodedFile(file).Ok?
    ensures Coordinated(Opened(file, DecodedFile(file).value))
  {
    hide DecodedFile;
  }

  lemma StepStaysSound(s: Sys, step: Step)
    requires Sound(s) && Apply(s, step).Some?
    ensures Sound(Apply(s, step).value)
  {
    hide Coordinated, Conserved, DataOk, Apply;
    StepKeeps(s, step);
    StepConserves(s, step);
    StepKeepsData(s, step);
  }

  lemma {:induction false} RunStaysSound(s: Sys, steps: seq<Step>)
    requires Sound(s) && Run(s, steps).Some?
    ensures Sound(Run(s, steps).value)
    decreases steps
  {
    if steps != [] {
      hide Sound, Apply;
      StepStaysSound(s, steps[0]);
      RunStaysSound(Apply(s, steps[0]).value, steps[1..]);
    }
  }

  ghost predicate Reachable(s: Sys) {
    exists file, steps :: Reaches(file, steps, s)
  }

  ghost predicate Reaches(file: Option<ConfigV2>, steps: seq<Step>, s: Sys) {
    DecodedFile(file).Ok? && Run(Opened(file, DecodedFile(file).value), steps) == Some(s)
  }

  lemma ReachableIsSound(s: Sys)
    requires Reachable(s)
    ensures Sound(s)
  {
    var file, steps :| Reaches(file, steps, s);
    OpenedIsSound(file);
    RunStaysSound(Opened(file, DecodedFile(file).value), steps);
  }

  // ----- desired configuration

  /**
   * At every lock release: decoding config.toml gives exactly the rules and settings in memory, the rules
   * are valid and compatible, and every running or reserved id names a stored rule.
   */
  lemma MemoryIsTheFile(s: Sys)
    requires Reachable(s)
    ensures DecodedFile(s.st.file) == Ok(Persisted(s.st.rules, s.st.settings))
    ensures AllValid(s.st.rules) && PairwiseCompatible(s.st.rules)
    ensures forall id :: id in s.st.running || id in s.st.editing ==> FindRule(s.st.rules, id).Some?
  {
    ReachableIsSound(s);
    forall id | id in s.st.running || id in s.st.editing ensures FindRule(s.st.rules, id).Some? {
      assert SlotOk(SlotOf(s.st, id));
    }
  }

  lemma {:induction false} IdsStayUnique(s: Sys, steps: seq<Step>)
    requires Coordinated(s) && UniqueIds(s.st.rules) && Run(s, steps).Some?
    ensures UniqueIds(Run(s, steps).value.st.rules)
    decreases steps
  {
    if steps != [] {
      hide Coordinated, UniqueIds, Apply;
      StepKeeps(s, steps[0]);
      StepKeepsUniqueIds(s, steps[0]);
      IdsStayUnique(Apply(s, steps[0]).value, steps[1..]);
    }
  }

  /**
   * No update is lost: whatever is interleaved, the rules and settings after a run are the replay, in
   * order, of the writes the run's replies acknowledged. An edit contributes one write, of its own rule.
   */
  lemma {:induction false} AcknowledgedWritesAreTheState(s: Sys, steps: seq<Step>)
    requires Coordinated(s) && Run(s, steps).Some?
    ensures ConfigOf(Run(s, steps).value.st) == Replay(ConfigOf(s.st), WritesOf(s, steps))
    decreases steps
  {
    if steps != [] {
      hide Coordinated, Apply, ConfigOf, WriteOf, Replay;
      var next := Apply(s, steps[0]).value;
      StepKeeps(s, steps[0]);
      StepReplays(s, steps[0]);
      AcknowledgedWritesAreTheState(next, steps[1..]);
      ReplayConcat(ConfigOf(s.st), WriteOf(s, steps[0]), WritesOf(next, steps[1..]));
    } else {
      assert WritesOf(s, steps) == [];
    }
  }

  // ----- attempts

  /** An attempt shown as active was launched from exactly the rule now stored for its id. */
  lemma ActiveRunsTheStoredRule(s: Sys, id: RuleId)
    requires Reachable(s) && id in s.st.running && s.st.running[id].Active?
    ensures FindRule(s.st.rules, id) == Some(s.st.running[id].managed.rule)
  {
    ReachableIsSound(s);
    assert SlotOk(SlotOf(s.st, id));
  }

  /** An attempt that was launched and has not ended is held in exactly one place. */
  lemma LiveAttemptsAreHeldOnce(s: Sys, t: Token)
    requires Reachable(s) && t in s.launched && t !in s.ended
    ensures exists p :: HeldAt(s, p) == Some(t) && forall q :: HeldAt(s, q) == Some(t) ==> q == p
  {
    ReachableIsSound(s);
    var p :| HeldAt(s, p) == Some(t);
    assert forall q :: HeldAt(s, q) == Some(t) ==> q == p;
  }

  /** An attempt is in the manager's hands only between its launch and its end. */
  lemma HeldAttemptsAreLive(s: Sys, p: Place)
    requires Reachable(s) && HeldAt(s, p).Some?
    ensures HeldAt(s, p).value in s.launched && HeldAt(s, p).value !in s.ended
  {
    ReachableIsSound(s);
  }

  // ----- manual stop wins

  predicate StartsExplicitly(s: Sys, step: Step, id: RuleId) {
    step.BeginStart? && !step.automatic && Resolve(s.st, step.sel) == Ok(id)
  }

  predicate NoExplicitStart(s: Sys, steps: seq<Step>, id: RuleId)
    decreases steps
  {
    steps == [] ||
    (&& !StartsExplicitly(s, steps[0], id)
     && (Apply(s, steps[0]).Some? ==> NoExplicitStart(Apply(s, steps[0]).value, steps[1..], id)))
  }

  predicate HeldStopped(st: State, id: RuleId) {
    id in st.manuallyStopped && id !in st.running && id !in st.editing
  }

  lemma HeldStoppedSlot(st: State, id: RuleId)
    ensures HeldStopped(st, id) <==>
            SlotOf(st, id).vetoed && SlotOf(st, id).entry.None? && !SlotOf(st, id).editing
  {
  }

  lemma ConfigStepKeepsStopped(s: Sys, step: Step, id: RuleId)
    requires step.AddRule? || step.ImportRules? || step.RemoveRule? || step.ChangeSettings?
    requires HeldStopped(s.st, id)
    ensures HeldStopped(Apply(s, step).value.st, id)
  {
    hide ToDomain, AllToDomain, ValidRuleSet, SaveConfig;
  }

  lemma StartKeepsStopped(s: Sys, step: Step, id: RuleId)
    requires Coordinated(s) && Apply(s, step).Some? && (step.BeginStart? || step.EditRestarts?)
    requires HeldStopped(s.st, id) && !StartsExplicitly(s, step, id)
    ensures HeldStopped(Apply(s, step).value.st, id)
  {
    var s' := Apply(s, step).value;
    var sel := if step.BeginStart? then step.sel else ById(s.calls[step.call].job.expected.id);
    var mode := if step.EditRestarts? then ForEdit else if step.automatic then Automatic else Explicit;
    if step.EditRestarts? { assert CallOk(SlotOf(s.st, RuleOf(s.calls[step.call])), s.calls[step.call]); }
    StartBeginSlots(s.st, sel, mode, s.next, step.port);
    HeldStoppedSlot(s.st, id);
    HeldStoppedSlot(s'.st, id);
    hide StartBegin, Coordinated, HeldStopped;
  }

  lemma OtherSlotKeepsStopped(st: State, st': State, id: RuleId, j: RuleId)
    requires SameElsewhere(st, st', j) && id != j && HeldStopped(st, id)
    ensures HeldStopped(st', id)
  {
    HeldStoppedSlot(st, id);
    HeldStoppedSlot(st', id);
  }

  lemma CallStepKeepsStopped(s: Sys, step: Step, id: RuleId)
    requires Coordinated(s) && Apply(s, step).Some?
    requires step.CommitStart? || step.RecordFailure? || step.EditMarks? || step.EditSaves? || step.EditFinishes?
    requires HeldStopped(s.st, id)
    ensures HeldStopped(Apply(s, step).value.st, id)
  {
    var call := s.calls[step.call];
    var j := RuleOf(call);
    assert CallOk(SlotOf(s.st, j), call);
    HeldStoppedSlot(s.st, id);
    var st' := Apply(s, step).value.st;
    hide Coordinated, StartCommit, StartFail, EditMarkFailed, EditSave, EditFinish, HeldStopped, ValidRule;
    match step {
      case CommitStart(c, now) => StartCommitSlots(s.st, j, ModeOf(call.purpose), call.managed, now);
      case RecordFailure(c, now) =>
        StartFailSlots(s.st, j, call.rule, ModeOf(call.purpose), call.marker, call.kind, now);
      case EditMarks(c) => EditMarkSlots(s.st, j);
      case EditSaves(c, fault) => EditSaveSlots(s.st, call.job, fault);
      case EditFinishes(c) => EditFinishSlots(s.st, j);
    }
    if id != j { OtherSlotKeepsStopped(s.st, st', id, j); }
  }

  lemma StopKeepsStopped(s: Sys, step: Step, id: RuleId)
    requires step.BeginStop? || step.BeginEdit? || step.Maintenance?
    requires HeldStopped(s.st, id)
    ensures HeldStopped(Apply(s, step).value.st, id)
  {
    hide EditRequest, ValidRuleSet;
  }

  lemma StepKeepsStopped(s: Sys, step: Step, id: RuleId)
    requires Coordinated(s) && Apply(s, step).Some?
    requires HeldStopped(s.st, id) && !StartsExplicitly(s, step, id)
    ensures HeldStopped(Apply(s, step).value.st, id)
  {
    match step
    case AddRule(_, _) => ConfigStepKeepsStopped(s, step, id);
    case ImportRules(_, _) => ConfigStepKeepsStopped(s, step, id);
    case RemoveRule(_, _) => ConfigStepKeepsStopped(s, step, id);
    case ChangeSettings(_, _) => ConfigStepKeepsStopped(s, step, id);
    case BeginStart(_, _, _) => StartKeepsStopped(s, step, id);
    case EditRestarts(_, _) => StartKeepsStopped(s, step, id);
    case CommitStart(_, _) => CallStepKeepsStopped(s, step, id);
    case RecordFailure(_, _) => CallStepKeepsStopped(s, step, id);
    case EditMarks(_) => CallStepKeepsStopped(s, step, id);
    case EditSaves(_, _) => CallStepKeepsStopped(s, step, id);
    case EditFinishes(_) => CallStepKeepsStopped(s, step, id);
    case BeginStop(_) => StopKeepsStopped(s, step, id);
    case BeginEdit(_, _) => StopKeepsStopped(s, step, id);
    case Maintenance(_, _) => StopKeepsStopped(s, step, id);
    case _ =>
  }

  lemma {:induction false} StoppedUntilStarted(s: Sys, steps: seq<Step>, id: RuleId)
    requires Coordinated(s) && HeldStopped(s.st, id)
    requires Run(s, steps).Some? && NoExplicitStart(s, steps, id)
    ensures HeldStopped(Run(s, steps).value.st, id)
    decreases steps
  {
    if steps != [] {
      hide Coordinated, Apply, HeldStopped, StartsExplicitly;
      StepKeeps(s, steps[0]);
      StepKeepsStopped(s, steps[0], id);
      StoppedUntilStarted(Apply(s, steps[0]).value, steps[1..], id);
    }
  }

  lemma StopHolds(s: Sys, sel: Selector)
    requires Stop(s.st, sel).1.Ok?
    ensures HeldStopped(StepBeginStop(s, sel).st, Stop(s.st, sel).1.value.0)
  {
  }

  /**
   * Manual stop wins: after an accepted stop, until a client's start of that rule takes the lock, the rule
   * has no entry, whatever starts, retries, restores, edits and configuration changes run meanwhile.
   */
  lemma ManualStopWins(s: Sys, sel: Selector, id: RuleId, steps: seq<Step>)
    requires Reachable(s) && Stop(s.st, sel).1.Ok? && id == Stop(s.st, sel).1.value.0
    requires Run(StepBeginStop(s, sel), steps).Some? && NoExplicitStart(StepBeginStop(s, sel), steps, id)
    ensures id !in Run(StepBeginStop(s, sel), steps).value.st.running
  {
    ReachableIsSound(s);
    hide Reachable, Coordinated, Conserved, DataOk, Run, NoExplicitStart, Stop;
    StopHolds(s, sel);
    BeginStopKeeps(s, sel);
    StoppedUntilStarted(StepBeginStop(s, sel), steps, id);
  }

  // ----- edits tell the truth

  /**
   * What an edit's report claims about its rule: a failed stop leaves the old rule and a failed entry;
   * otherwise the stored rule is the new one exactly when the save committed, and the rule either runs
   * from the stored rule or has no entry.
   */
  predicate Truthful(slot: Slot, job: EditJob, outcome: EditOutcome) {
    match outcome
    case StopFailed => slot.stored == Some(job.expected) && slot.entry == Some(Failed)
    case RuleGone => false
    case Restarted(saved, active) =>
      && slot.stored == Some(Target(job, saved))
      && (if active then
            slot.entry.Some? && slot.entry.value.Active? && slot.entry.value.managed.rule == Target(job, saved)
          else slot.entry.None?)
  }

  predicate Reports(s: Sys, c: nat) { c in s.calls && s.calls[c].EditFinishing? }

  ghost predicate ReportsTruth(s: Sys, c: nat) {
    Reports(s, c) ==>
      var job := s.calls[c].job;
      Truthful(SlotOf(s.st, job.expected.id), job, s.calls[c].outcome)
  }

  lemma CommitReportsTruth(s: Sys, c: nat, now: nat)
    requires Coordinated(s) && StepCommitStart(s, c, now).Some?
    ensures ReportsTruth(StepCommitStart(s, c, now).value, c)
  {
    hide Coordinated, SlotOf, SameElsewhere, ValidRule, Committed;
    var call := s.calls[c];
    if call.purpose.ByEdit? {
      StartClaim(s, c);
      StartCommitSlots(s.st, call.id, ModeOf(call.purpose), call.managed, now);
      hide StartCommit;
    }
  }

  lemma RecordReportsTruth(s: Sys, c: nat, now: nat)
    requires Coordinated(s) && StepRecordFailure(s, c, now).Some?
    ensures ReportsTruth(StepRecordFailure(s, c, now).value, c)
  {
    hide Coordinated, SlotOf, SameElsewhere, ValidRule, Committed;
    var call := s.calls[c];
    if call.purpose.ByEdit? {
      StartClaim(s, c);
      StartFailSlots(s.st, call.id, call.rule, ModeOf(call.purpose), call.marker, call.kind, now);
      hide StartFail;
    }
  }

  lemma EditReportsTruth(s: Sys, step: Step, c: nat)
    requires Coordinated(s) && Apply(s, step).Some? && (step.EditMarks? || step.EditSaves?) && c == step.call
    ensures ReportsTruth(Apply(s, step).value, c)
  {
    hide Coordinated, SlotOf, SameElsewhere, ValidRule, Committed;
    EditClaim(s, c);
    match step {
      case EditMarks(_) => EditMarkSlots(s.st, s.calls[c].job.expected.id);
      case EditSaves(_, fault) => EditSaveSlots(s.st, s.calls[c].job, fault);
    }
    hide EditMarkFailed, EditSave;
  }

  lemma RestartReportsTruth(s: Sys, c: nat, port: PortCheck)
    requires Coordinated(s) && StepEditRestarts(s, c, port).Some?
    ensures ReportsTruth(StepEditRestarts(s, c, port).value, c)
  {
    hide Coordinated, SlotOf, SameElsewhere, ValidRule, Committed;
    RestartClaim(s, c);
    StartBeginSlots(s.st, ById(s.calls[c].job.expected.id), ForEdit, s.next, port);
    hide StartBegin;
  }

  // The steps that can end an edit's work.
  predicate MayReport(step: Step, c: nat) {
    match step
    case CommitStart(d, _) => c == d
    case RecordFailure(d, _) => c == d
    case EditMarks(d) => c == d
    case EditSaves(d, _) => c == d
    case EditRestarts(d, _) => c == d
    case _ => false
  }

  lemma OtherStepsReportNothing(s: Sys, step: Step, c: nat)
    requires Coordinated(s) && Apply(s, step).Some? && !Reports(s, c)
    requires !MayReport(step, c)
    ensures !Reports(Apply(s, step).value, c)
  {
    hide Add, Import, Remove, UpdateSettings, StartBegin, StartCommit, StartFail, Stop, EditRequest, EditBegin,
      EditMarkFailed, EditSave, EditFinish, Maintain, Coordinated;
    if step.DiscardEnds? { NoEditDiscards(s, step.call); }
  }

  lemma NewReportsAreTrue(s: Sys, step: Step, c: nat)
    requires Coordinated(s) && Apply(s, step).Some? && !Reports(s, c)
    ensures ReportsTruth(Apply(s, step).value, c)
  {
    hide Coordinated, ReportsTruth, StepCommitStart, StepRecordFailure, StepEditMarks, StepEditSaves, StepEditRestarts;
    if MayReport(step, c) {
      match step {
        case CommitStart(_, now) => CommitReportsTruth(s, c, now);
        case RecordFailure(_, now) => RecordReportsTruth(s, c, now);
        case EditMarks(_) => EditReportsTruth(s, step, c);
        case EditSaves(_, _) => EditReportsTruth(s, step, c);
        case EditRestarts(_, port) => RestartReportsTruth(s, c, port);
        case _ =>
      }
    } else {
      OtherStepsReportNothing(s, step, c);
      NoReportIsTrue(Apply(s, step).value, c);
    }
  }

  lemma NoReportIsTrue(s: Sys, c: nat)
    requires !Reports(s, c)
    ensures ReportsTruth(s, c)
  {
  }

  /**
   * In every interleaving, an edit's report is true in the state where it is made, in memory and on disk.
   */
  lemma EditsReportTheTruth(s: Sys, step: Step, c: nat)
    requires Reachable(s) && Apply(s, step).Some?
    requires !Reports(s, c) && Reports(Apply(s, step).value, c)
    ensures var s' := Apply(s, step).value;
      var job := s'.calls[c].job;
      && Truthful(SlotOf(s'.st, job.expected.id), job, s'.calls[c].outcome)
      && DecodedFile(s'.st.file) == Ok(Persisted(s'.st.rules, s'.st.settings))
  {
    ReachableIsSound(s);
    hide Reachable, Coordinated, Conserved, Truthful, Apply, SlotOf, DecodedFile;
    StepStaysSound(s, step);
    NewReportsAreTrue(s, step, c);
  }

  // ----- the abstract machine

  // What one step does to a rule's machine: a word of events, or the jump that marks a failed stop.
  datatype Move = Word(events: seq<Status.RuntimeEvent>) | FailedStop

  // A jump leads only from Stopped, and to Failed; which attempt failed is not recorded.
  function Go(m: Status.RuntimeState, move: Move): Option<Status.RuntimeState> {
    match move
    case FailedStop => if m == Status.Stopped then Some(Status.Failed(0)) else None
    case Word(events) => if Status.NextAll(m, events).Ok? then Some(Status.NextAll(m, events).value) else None
  }

  function Walk(m: Status.RuntimeState, moves: seq<Move>): Option<Status.RuntimeState>
    decreases moves
  {
    if moves == [] then Some(m)
    else
      match Go(m, moves[0])
      case None => None
      case Some(next) => Walk(next, moves[1..])
  }

  function MoveOf(s: Sys, step: Step, id: RuleId): Move
    requires Apply(s, step).Some?
  {
    if MarksFailed(s, step, id) then FailedStop else Word(EventsOf(s, step, id))
  }

  function MovesAlong(s: Sys, steps: seq<Step>, id: RuleId): seq<Move>
    decreases steps
  {
    if steps == [] || Apply(s, steps[0]).None? then []
    else [MoveOf(s, steps[0], id)] + MovesAlong(Apply(s, steps[0]).value, steps[1..], id)
  }

  predicate Walks(moves: seq<Move>, m: Status.RuntimeState, after: Option<Attempt>) {
    Walk(m, moves).Some? && Matches(after, Walk(m, moves).value)
  }

  lemma MarkGoes(s: Sys, step: Step, id: RuleId, m: Status.RuntimeState)
    requires Coordinated(s) && Apply(s, step).Some? && Matches(EntryOf(s.st, id), m) && MarksFailed(s, step, id)
    ensures Go(m, FailedStop).Some? && Matches(EntryOf(Apply(s, step).value.st, id), Go(m, FailedStop).value)
  {
    hide Coordinated, EntryOf, StepEditMarks;
    MarkIsNoEvent(s, step.call, Status.StopRequested);
  }

  lemma StepGoes(s: Sys, step: Step, id: RuleId, m: Status.RuntimeState)
    requires Coordinated(s) && Apply(s, step).Some? && Matches(EntryOf(s.st, id), m)
    ensures Go(m, MoveOf(s, step, id)).Some?
    ensures Matches(EntryOf(Apply(s, step).value.st, id), Go(m, MoveOf(s, step, id)).value)
  {
    hide Coordinated, Apply, EntryOf, EventsOf, MarksFailed, Matches;
    if MarksFailed(s, step, id) { MarkGoes(s, step, id, m); } else { StepFollowsMachine(s, step, id, m); }
  }

  /**
   * Over every run, what happens to a rule is a walk of its abstract machine: words it accepts, and between
   * them a jump from Stopped to Failed for each edit whose old process could not be stopped.
   */
  lemma {:induction false} RunsFollowTheMachine(s: Sys, steps: seq<Step>, id: RuleId, m: Status.RuntimeState)
    requires Coordinated(s) && Matches(EntryOf(s.st, id), m) && Run(s, steps).Some?
    ensures Walks(MovesAlong(s, steps, id), m, EntryOf(Run(s, steps).value.st, id))
    decreases steps
  {
    if steps != [] {
      hide Coordinated, Apply, MoveOf, Go, Matches, EntryOf;
      var next := Apply(s, steps[0]).value;
      var move, rest := MoveOf(s, steps[0], id), MovesAlong(next, steps[1..], id);
      StepKeeps(s, steps[0]);
      StepGoes(s, steps[0], id, m);
      assert ([move] + rest)[1..] == rest;
      RunsFollowTheMachine(next, steps[1..], id, Go(m, move).value);
    }
  }

  /** From the opening of the daemon, every rule's history is such a walk from Stopped. */
  lemma HistoriesAreMachineWalks(file: Option<ConfigV2>, steps: seq<Step>, s: Sys, id: RuleId)
    requires Reaches(file, steps, s)
    ensures Walks(MovesAlong(Opened(file, DecodedFile(file).value), steps, id), Status.Stopped, EntryOf(s.st, id))
  {
    OpenedIsSound(file);
    RunsFollowTheMachine(Opened(file, DecodedFile(file).value), steps, id, Status.Stopped);
  }

  // ----- the shown status

  /** A rule shown as active has an uptime and no error; one shown as failed or reconnecting has an error. */
  lemma ShownStatusIsConsistent(s: Sys, id: RuleId)
    requires Reachable(s)
    ensures InfoOf(s.st, id).activeSince.Some? <==> id in s.st.running && s.st.running[id].Active?
    ensures id in s.st.running && s.st.running[id].Active? ==> InfoOf(s.st, id).lastError.None?
    ensures id in s.st.running && (s.st.running[id].Failed? || s.st.running[id].Reconnecting?) ==>
              InfoOf(s.st, id).lastError.Some?
  {
    ReachableIsSound(s);
    assert SlotOk(SlotOf(s.st, id));
  }
}
