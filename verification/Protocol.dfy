/**
 * The daemon manager as a transition system. One step is one critical section, or the end of one slow
 * operation (launching a process, stopping a process) that runs without the lock. A suspended call is
 * a value in `calls`. Automatic starts (supervisor restores and due retries) may happen at any time
 * for any rule, which includes every schedule the supervisor thread can produce.
 */
module Protocol {
  import opened Wrappers
  import opened Rules
  import opened Conversion
  import opened Sections
  import opened Slots

  // Why a start runs: for a client, for the supervisor, or as the restart of an edit that has saved.
  datatype Purpose = ByClient | BySupervisor | ByEdit(job: EditJob, saved: Result<(), StoreError>)

  // What an edit reports: the old process could not be stopped, the rule is gone, or the results of
  // its save and restart.
  datatype EditOutcome = StopFailed | RuleGone | Restarted(saved: Result<(), StoreError>, active: bool)

  datatype Call =
    | Launching(id: RuleId, rule: Rule, marker: Marker, purpose: Purpose)
    | Launched(id: RuleId, managed: Managed, purpose: Purpose)
    | LaunchFailed(id: RuleId, rule: Rule, marker: Marker, purpose: Purpose, kind: DiagnosticKind)
    | Discarding(id: RuleId, managed: Managed, purpose: Purpose)
    | Stopping(id: RuleId, managed: Managed)
    | EditStopping(job: EditJob, managed: Managed)
    | EditStopFailed(job: EditJob)
    | EditSaving(job: EditJob)
    | EditRestarting(job: EditJob, saved: Result<(), StoreError>)
    | EditFinishing(job: EditJob, outcome: EditOutcome)

  // `next` supplies fresh call ids, markers and tokens.
  datatype Sys = Sys(st: State, calls: map<nat, Call>, next: nat, launched: set<Token>, ended: set<Token>)

  datatype Step =
    | AddRule(wire: WireRule, fault: SaveFault)
    | ImportRules(wires: seq<WireRule>, fault: SaveFault)
    | RemoveRule(sel: Selector, fault: SaveFault)
    | ChangeSettings(settings: Settings, fault: SaveFault)
    | BeginStart(sel: Selector, automatic: bool, port: PortCheck)
    | LaunchSucceeds(call: nat)
    | LaunchFails(call: nat, kind: DiagnosticKind)
    | CommitStart(call: nat, now: nat)
    | RecordFailure(call: nat, now: nat)
    | DiscardEnds(call: nat)
    | BeginStop(sel: Selector)
    | StopEnds(call: nat)
    | BeginEdit(expected: WireRule, replacement: WireRule)
    | EditStopEnds(call: nat, stopped: bool)
    | EditMarks(call: nat)
    | EditSaves(call: nat, fault: SaveFault)
    | EditRestarts(call: nat, port: PortCheck)
    | EditFinishes(call: nat)
    | Maintenance(gone: set<RuleId>, now: nat)

  function ModeOf(purpose: Purpose): StartMode {
    match purpose
    case ByClient => Explicit
    case BySupervisor => Automatic
    case ByEdit(_, _) => ForEdit
  }

  // The call that remains once a start has ended, successfully or not.
  function AfterStart(s: Sys, c: nat, purpose: Purpose, active: bool): map<nat, Call> {
    if purpose.ByEdit? then s.calls[c := EditFinishing(purpose.job, Restarted(purpose.saved, active))]
    else s.calls - {c}
  }

  // ----- one function per step; None when the step is not enabled

  function StepBeginStart(s: Sys, sel: Selector, automatic: bool, port: PortCheck): Sys {
    var purpose := if automatic then BySupervisor else ByClient;
    var (st, out) := StartBegin(s.st, sel, ModeOf(purpose), s.next, port);
    if out.Launch? then
      s.(st := st, calls := s.calls[s.next := Launching(out.id, out.rule, s.next, purpose)], next := s.next + 1)
    else s.(st := st)
  }

  function StepLaunchSucceeds(s: Sys, c: nat): Option<Sys> {
    if c !in s.calls || !s.calls[c].Launching? then None
    else
      var call := s.calls[c];
      var managed := Managed(s.next, call.marker, call.rule);
      Some(s.(calls := s.calls[c := Launched(call.id, managed, call.purpose)],
              next := s.next + 1, launched := s.launched + {s.next}))
  }

  function StepLaunchFails(s: Sys, c: nat, kind: DiagnosticKind): Option<Sys> {
    if c !in s.calls || !s.calls[c].Launching? then None
    else
      var call := s.calls[c];
      Some(s.(calls := s.calls[c := LaunchFailed(call.id, call.rule, call.marker, call.purpose, kind)]))
  }

  function StepCommitStart(s: Sys, c: nat, now: nat): Option<Sys> {
    if c !in s.calls || !s.calls[c].Launched? then None
    else
      var call := s.calls[c];
      var (st, done) := StartCommit(s.st, call.id, ModeOf(call.purpose), call.managed, now);
      Some(s.(st := st,
              calls := if done then AfterStart(s, c, call.purpose, true)
                       else s.calls[c := Discarding(call.id, call.managed, call.purpose)]))
  }

  function StepRecordFailure(s: Sys, c: nat, now: nat): Option<Sys> {
    if c !in s.calls || !s.calls[c].LaunchFailed? then None
    else
      var call := s.calls[c];
      var (st, done) := StartFail(s.st, call.id, call.rule, ModeOf(call.purpose), call.marker, call.kind, now);
      Some(s.(st := st, calls := AfterStart(s, c, call.purpose, !done)))
  }

  function StepDiscardEnds(s: Sys, c: nat): Option<Sys> {
    if c !in s.calls || !s.calls[c].Discarding? then None
    else
      Some(s.(calls := AfterStart(s, c, s.calls[c].purpose, true), ended := s.ended + {s.calls[c].managed.token}))
  }

  function StepBeginStop(s: Sys, sel: Selector): Sys {
    var (st, out) := Stop(s.st, sel);
    if out.Ok? && out.value.1.Some? && out.value.1.value.Active? then
      s.(st := st, calls := s.calls[s.next := Stopping(out.value.0, out.value.1.value.managed)], next := s.next + 1)
    else s.(st := st)
  }

  function StepStopEnds(s: Sys, c: nat): Option<Sys> {
    if c !in s.calls || !s.calls[c].Stopping? then None
    else Some(s.(calls := s.calls - {c}, ended := s.ended + {s.calls[c].managed.token}))
  }

  function StepBeginEdit(s: Sys, expected: WireRule, replacement: WireRule): Sys {
    match EditRequest(expected, replacement)
    case Err(_) => s
    case Ok(job) =>
      var (st, out) := EditBegin(s.st, job);
      if out.Ok? then s.(st := st, calls := s.calls[s.next := EditStopping(job, out.value)], next := s.next + 1)
      else s
  }

  // The process is gone from the daemon's hands whether or not stopping it succeeds.
  function StepEditStopEnds(s: Sys, c: nat, stopped: bool): Option<Sys> {
    if c !in s.calls || !s.calls[c].EditStopping? then None
    else
      var call := s.calls[c];
      Some(s.(calls := s.calls[c := if stopped then EditSaving(call.job) else EditStopFailed(call.job)],
              ended := s.ended + {call.managed.token}))
  }

  function StepEditMarks(s: Sys, c: nat): Option<Sys> {
    if c !in s.calls || !s.calls[c].EditStopFailed? then None
    else
      var job := s.calls[c].job;
      Some(s.(st := EditMarkFailed(s.st, job.expected.id), calls := s.calls[c := EditFinishing(job, StopFailed)]))
  }

  function StepEditSaves(s: Sys, c: nat, fault: SaveFault): Option<Sys> {
    if c !in s.calls || !s.calls[c].EditSaving? then None
    else
      var job := s.calls[c].job;
      var (st, saved) := EditSave(s.st, job, fault);
      match saved
      case None => Some(s.(calls := s.calls[c := EditFinishing(job, RuleGone)]))
      case Some(r) => Some(s.(st := st, calls := s.calls[c := EditRestarting(job, r)]))
  }

  function StepEditRestarts(s: Sys, c: nat, port: PortCheck): Option<Sys> {
    if c !in s.calls || !s.calls[c].EditRestarting? then None
    else
      var call := s.calls[c];
      var (st, out) := StartBegin(s.st, ById(call.job.expected.id), ForEdit, s.next, port);
      if out.Launch? then
        Some(s.(st := st,
                calls := s.calls[c := Launching(out.id, out.rule, s.next, ByEdit(call.job, call.saved))],
                next := s.next + 1))
      else
        Some(s.(st := st, calls := s.calls[c := EditFinishing(call.job, Restarted(call.saved, out.NoChange?))]))
  }

  function StepEditFinishes(s: Sys, c: nat): Option<Sys> {
    if c !in s.calls || !s.calls[c].EditFinishing? then None
    else Some(s.(st := EditFinish(s.st, s.calls[c].job.expected.id), calls := s.calls - {c}))
  }

  // Replacing the entry of an ended process drops its attempt, which cleans it up.
  function EndedTokens(st: State, gone: set<RuleId>): set<Token> {
    set id | id in EndedIds(st, gone) :: st.running[id].managed.token
  }

  function StepMaintenance(s: Sys, gone: set<RuleId>, now: nat): Sys {
    s.(st := Maintain(s.st, gone, now), ended := s.ended + EndedTokens(s.st, gone))
  }

  function Apply(s: Sys, step: Step): Option<Sys> {
    match step
    case AddRule(wire, fault) => Some(s.(st := Add(s.st, wire, fault).0))
    case ImportRules(wires, fault) => Some(s.(st := Import(s.st, wires, fault).0))
    case RemoveRule(sel, fault) => Some(s.(st := Remove(s.st, sel, fault).0))
    case ChangeSettings(settings, fault) => Some(s.(st := UpdateSettings(s.st, settings, fault).0))
    case BeginStart(sel, automatic, port) => Some(StepBeginStart(s, sel, automatic, port))
    case LaunchSucceeds(c) => StepLaunchSucceeds(s, c)
    case LaunchFails(c, kind) => StepLaunchFails(s, c, kind)
    case CommitStart(c, now) => StepCommitStart(s, c, now)
    case RecordFailure(c, now) => StepRecordFailure(s, c, now)
    case DiscardEnds(c) => StepDiscardEnds(s, c)
    case BeginStop(sel) => Some(StepBeginStop(s, sel))
    case StopEnds(c) => StepStopEnds(s, c)
    case BeginEdit(expected, replacement) => Some(StepBeginEdit(s, expected, replacement))
    case EditStopEnds(c, stopped) => StepEditStopEnds(s, c, stopped)
    case EditMarks(c) => StepEditMarks(s, c)
    case EditSaves(c, fault) => StepEditSaves(s, c, fault)
    case EditRestarts(c, port) => StepEditRestarts(s, c, port)
    case EditFinishes(c) => StepEditFinishes(s, c)
    case Maintenance(gone, now) => Some(StepMaintenance(s, gone, now))
  }

  // A run: the system after all steps, None if some step was not enabled.
  function Run(s: Sys, steps: seq<Step>): Option<Sys>
    decreases steps
  {
    if steps == [] then Some(s)
    else
      match Apply(s, steps[0])
      case None => None
      case Some(next) => Run(next, steps[1..])
  }

  // What `DaemonManager::open` builds from the file it finds.
  function Opened(file: Option<ConfigV2>, p: Persisted): Sys {
    Sys(State(p.rules, p.settings, file, map[], map[], {}, {}), map[], 0, {}, {})
  }
}
