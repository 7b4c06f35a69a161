/** What was true when a start or an edit was let in, over every run of the manager's protocol. */
module Admission {
  import opened Wrappers
  import opened Rules
  import opened Conversion
  import opened Sections
  import opened Slots
  import opened Protocol
  import opened Answers
  import Lifecycle
  import Desired

  lemma {:induction false} RunLast(s: Sys, steps: seq<Step>)
    requires Run(s, steps).Some? && steps != []
    ensures var n := |steps| - 1;
      && Run(s, steps[..n]).Some?
      && Apply(Run(s, steps[..n]).value, steps[n]) == Run(s, steps)
    decreases steps
  {
    hide Apply;
    var n := |steps| - 1;
    if n == 0 {
      assert steps[..0] == [] && steps[1..] == [];
    } else {
      RunLast(Apply(s, steps[0]).value, steps[1..]);
      assert steps[1..][..n - 1] == steps[..n][1..];
    }
  }

  // ----- starts

  // The step starts this rule, which is stored; if the rule listens locally its port has just been free.
  predicate Begins(s: Sys, step: Step, rule: Rule) {
    && (step.BeginStart? || step.EditRestarts?)
    && FindRule(s.st.rules, rule.id) == Some(rule)
    && (ListensLocally(rule) ==> step.port == PortFree)
  }

  ghost predicate BeginsAt(start: Sys, steps: seq<Step>, k: nat, marker: Marker, rule: Rule) {
    && k < |steps| && Run(start, steps[..k]).Some?
    && Run(start, steps[..k]).value.next == marker
    && Begins(Run(start, steps[..k]).value, steps[k], rule)
  }

  predicate CallCarries(call: Call, marker: Marker, rule: Rule) {
    match call
    case Launching(_, r, m, _) => r == rule && m == marker
    case Launched(_, managed, _) => managed.rule == rule && managed.marker == marker
    case LaunchFailed(_, r, m, _, _) => r == rule && m == marker
    case _ => false
  }

  predicate EntryCarries(entry: Attempt, marker: Marker, rule: Rule) {
    entry.Active? && entry.managed.rule == rule && entry.managed.marker == marker
  }

  // A start in flight or an active attempt that began with this marker and this rule.
  ghost predicate Carries(s: Sys, marker: Marker, rule: Rule) {
    SomeCallCarries(s, marker, rule) || SomeEntryCarries(s, marker, rule)
  }

  ghost predicate SomeCallCarries(s: Sys, marker: Marker, rule: Rule) {
    exists c :: c in s.calls && CallCarries(s.calls[c], marker, rule)
  }

  ghost predicate SomeEntryCarries(s: Sys, marker: Marker, rule: Rule) {
    exists id :: id in s.st.running && EntryCarries(s.st.running[id], marker, rule)
  }

  lemma ActiveBeforeStart(st: State, sel: Selector, mode: StartMode, fresh_: Marker, port: PortCheck)
    ensures var st' := StartBegin(st, sel, mode, fresh_, port).0;
      forall id :: id in st'.running && st'.running[id].Active? ==>
        id in st.running && st'.running[id] == st.running[id]
  {
    hide FindRule, Resolve, LocalListener;
  }

  lemma EntryBeforeStart(s: Sys, st': State, marker: Marker, rule: Rule, next: Sys)
    requires next.st == st' && SomeEntryCarries(next, marker, rule)
    requires forall id :: id in st'.running && st'.running[id].Active? ==>
               id in s.st.running && st'.running[id] == s.st.running[id]
    ensures SomeEntryCarries(s, marker, rule)
  {
    var id :| id in st'.running && EntryCarries(st'.running[id], marker, rule);
    assert EntryCarries(s.st.running[id], marker, rule);
  }

  lemma CallBeforeStart(s: Sys, next: Sys, c: nat, marker: Marker, rule: Rule)
    requires forall d :: d in next.calls && d != c ==> d in s.calls && next.calls[d] == s.calls[d]
    requires SomeCallCarries(next, marker, rule)
    ensures SomeCallCarries(s, marker, rule) || (c in next.calls && CallCarries(next.calls[c], marker, rule))
  {
    var d :| d in next.calls && CallCarries(next.calls[d], marker, rule);
    assert d != c ==> CallCarries(s.calls[d], marker, rule);
  }

  lemma StartCarries(s: Sys, step: Step, marker: Marker, rule: Rule)
    requires step.BeginStart? || step.EditRestarts?
    requires Apply(s, step).Some? && Carries(Apply(s, step).value, marker, rule)
    ensures Carries(s, marker, rule) || (marker == s.next && Begins(s, step, rule))
  {
    hide StartBegin, FindRule, Resolve, SomeCallCarries, SomeEntryCarries;
    var sel := if step.BeginStart? then step.sel else ById(s.calls[step.call].job.expected.id);
    var mode := if step.EditRestarts? then ForEdit else if step.automatic then Automatic else Explicit;
    var c := if step.EditRestarts? then step.call else s.next;
    var s' := Apply(s, step).value;
    var (st', out) := StartBegin(s.st, sel, mode, s.next, step.port);
    assert s'.st == st';
    if SomeEntryCarries(s', marker, rule) {
      ActiveBeforeStart(s.st, sel, mode, s.next, step.port);
      EntryBeforeStart(s, st', marker, rule, s');
    } else {
      CallBeforeStart(s, s', c, marker, rule);
      if !SomeCallCarries(s, marker, rule) {
        NewCallLaunches(s, step, sel, mode, c, marker, rule);
        LaunchBegins(s, sel, mode, step.port, rule);
      }
    }
  }

  lemma NewCallLaunches(s: Sys, step: Step, sel: Selector, mode: StartMode, c: nat, marker: Marker, rule: Rule)
    requires step.BeginStart? || step.EditRestarts?
    requires Apply(s, step).Some? && c == (if step.EditRestarts? then step.call else s.next)
    requires sel == if step.BeginStart? then step.sel else ById(s.calls[step.call].job.expected.id)
    requires mode == if step.EditRestarts? then ForEdit else if step.automatic then Automatic else Explicit
    requires var s' := Apply(s, step).value; c in s'.calls && CallCarries(s'.calls[c], marker, rule)
    requires !SomeCallCarries(s, marker, rule)
    ensures var out := StartBegin(s.st, sel, mode, s.next, step.port).1;
      out.Launch? && out.rule == rule && marker == s.next
  {
    hide StartBegin;
  }

  lemma LaunchBegins(s: Sys, sel: Selector, mode: StartMode, port: PortCheck, rule: Rule)
    ensures var out := StartBegin(s.st, sel, mode, s.next, port).1;
      out.Launch? && out.rule == rule ==>
        FindRule(s.st.rules, rule.id) == Some(rule) && (ListensLocally(rule) ==> port == PortFree)
  {
    StartAnswers(s.st, sel, mode, s.next, port);
    hide StartBegin, Resolve;
  }

  lemma CommitCarries(s: Sys, step: Step, marker: Marker, rule: Rule)
    requires step.CommitStart? || step.RecordFailure? || step.LaunchSucceeds? || step.LaunchFails?
    requires Apply(s, step).Some? && Carries(Apply(s, step).value, marker, rule)
    ensures Carries(s, marker, rule)
  {
    assert step.call in s.calls;
  }

  lemma RequestCarries(s: Sys, step: Step, marker: Marker, rule: Rule)
    requires !step.BeginStart? && !step.EditRestarts? && !step.CommitStart? && !step.RecordFailure?
    requires !step.LaunchSucceeds? && !step.LaunchFails?
    requires Apply(s, step).Some? && Carries(Apply(s, step).value, marker, rule)
    ensures Carries(s, marker, rule)
  {
    hide SaveConfig, ValidRuleSet, RuleSetErrors, ToDomain, AllToDomain, FindRule, WithoutRule, FreshIds, Resolve;
  }

  lemma StepCarries(s: Sys, step: Step, marker: Marker, rule: Rule)
    requires Apply(s, step).Some? && Carries(Apply(s, step).value, marker, rule)
    ensures Carries(s, marker, rule) || (marker == s.next && Begins(s, step, rule))
  {
    hide Apply, Carries, Begins;
    if step.BeginStart? || step.EditRestarts? {
      StartCarries(s, step, marker, rule);
    } else if step.CommitStart? || step.RecordFailure? || step.LaunchSucceeds? || step.LaunchFails? {
      CommitCarries(s, step, marker, rule);
    } else {
      RequestCarries(s, step, marker, rule);
    }
  }

  lemma {:induction false} CarriedBegan(start: Sys, steps: seq<Step>, marker: Marker, rule: Rule)
    requires Run(start, steps).Some? && Carries(Run(start, steps).value, marker, rule)
    ensures Carries(start, marker, rule) || exists k: nat :: BeginsAt(start, steps, k, marker, rule)
    decreases |steps|
  {
    hide Carries, Begins, Apply;
    if steps != [] {
      var n := |steps| - 1;
      RunLast(start, steps);
      var s := Run(start, steps[..n]).value;
      StepCarries(s, steps[n], marker, rule);
      if Carries(s, marker, rule) {
        CarriedBegan(start, steps[..n], marker, rule);
        if !Carries(start, marker, rule) {
          var k: nat :| BeginsAt(start, steps[..n], k, marker, rule);
          assert steps[..n][..k] == steps[..k];
          assert BeginsAt(start, steps, k, marker, rule);
        }
      } else {
        assert BeginsAt(start, steps, n, marker, rule);
      }
    }
  }

  /**
   * Every start in flight and every active attempt began at one step of the run, which found the rule
   * stored, and found its local port free if it has one.
   */
  lemma AttemptsBeganOnFreePorts(file: Option<ConfigV2>, steps: seq<Step>, s: Sys, marker: Marker, rule: Rule)
    requires Lifecycle.Reaches(file, steps, s) && Carries(s, marker, rule)
    ensures exists k: nat :: BeginsAt(Opened(file, Desired.DecodedFile(file).value), steps, k, marker, rule)
  {
    hide Run, BeginsAt;
    CarriedBegan(Opened(file, Desired.DecodedFile(file).value), steps, marker, rule);
  }

  // ----- edits

  function JobOf(call: Call): Option<EditJob> {
    match call
    case EditStopping(job, _) => Some(job)
    case EditStopFailed(job) => Some(job)
    case EditSaving(job) => Some(job)
    case EditRestarting(job, _) => Some(job)
    case EditFinishing(job, _) => Some(job)
    case Launching(_, _, _, ByEdit(job, _)) => Some(job)
    case Launched(_, _, ByEdit(job, _)) => Some(job)
    case LaunchFailed(_, _, _, ByEdit(job, _), _) => Some(job)
    case Discarding(_, _, ByEdit(job, _)) => Some(job)
    case _ => None
  }

  ghost predicate Edits(s: Sys, job: EditJob) {
    exists c :: c in s.calls && JobOf(s.calls[c]) == Some(job)
  }

  // The step asks for this edit, and the edit fits the state.
  ghost predicate Accepts(s: Sys, step: Step, job: EditJob) {
    step.BeginEdit? && EditRequest(step.expected, step.replacement) == Ok(job) && EditFits(s.st, job)
  }

  ghost predicate AcceptsAt(start: Sys, steps: seq<Step>, k: nat, job: EditJob) {
    k < |steps| && Run(start, steps[..k]).Some? && Accepts(Run(start, steps[..k]).value, steps[k], job)
  }

  /** An edit request takes the attempt and stops it exactly if it fits; otherwise it changes nothing. */
  lemma EditRequestsAreDecided(s: Sys, before: Rule, after: Rule)
    requires ValidRule(before) && ValidRule(after)
    ensures var job := EditJob(before, after);
      var s' := StepBeginEdit(s, ToWire(before), ToWire(after));
      if after.id == before.id && EditFits(s.st, job) then
        && s'.calls == s.calls[s.next := EditStopping(job, SlotOf(s.st, before.id).entry.value.managed)]
        && EntryOf(s'.st, before.id) == None && before.id in s'.st.editing
      else s' == s
  {
    RuleRoundTrip(ToWire(before), before);
    RuleRoundTrip(ToWire(after), after);
    var job := EditJob(before, after);
    hide ToDomain, ToWire, ValidRule, EditFits, FindRule, ValidRuleSet;
    if after.id == before.id { EditAnswers(s.st, job); }
  }

  lemma EditStepEdits(s: Sys, step: Step, job: EditJob)
    requires step.BeginEdit? && Apply(s, step).Some? && Edits(Apply(s, step).value, job)
    ensures Edits(s, job) || Accepts(s, step, job)
  {
    hide EditRequest, EditFits, EditBegin;
    var s' := StepBeginEdit(s, step.expected, step.replacement);
    var c :| c in s'.calls && JobOf(s'.calls[c]) == Some(job);
    if !(c in s.calls && s'.calls[c] == s.calls[c]) {
      SameRule(step.expected, step.replacement);
      EditAnswers(s.st, EditRequest(step.expected, step.replacement).value);
    }
  }

  lemma SameRule(expected: WireRule, replacement: WireRule)
    requires EditRequest(expected, replacement).Ok?
    ensures var job := EditRequest(expected, replacement).value;
      job.expected.id == job.replacement.id
  {
    hide ToDomain;
  }

  lemma OtherStepEdits(s: Sys, step: Step, job: EditJob)
    requires !step.BeginEdit? && Apply(s, step).Some? && Edits(Apply(s, step).value, job)
    ensures Edits(s, job)
  {
    hide Add, Import, Remove, UpdateSettings, StartBegin, StartCommit, StartFail, Stop, EditSave, Maintain,
      EditMarkFailed, EditFinish, EndedTokens;
    var s' := Apply(s, step).value;
    var c :| c in s'.calls && JobOf(s'.calls[c]) == Some(job);
    assert c in s.calls && JobOf(s.calls[c]) == Some(job);
  }

  lemma {:induction false} EditsWereAccepted(start: Sys, steps: seq<Step>, job: EditJob)
    requires Run(start, steps).Some? && Edits(Run(start, steps).value, job)
    ensures Edits(start, job) || exists k: nat :: AcceptsAt(start, steps, k, job)
    decreases |steps|
  {
    hide Edits, Accepts, Apply;
    if steps != [] {
      var n := |steps| - 1;
      RunLast(start, steps);
      var s := Run(start, steps[..n]).value;
      if steps[n].BeginEdit? { EditStepEdits(s, steps[n], job); } else { OtherStepEdits(s, steps[n], job); }
      if Edits(s, job) {
        EditsWereAccepted(start, steps[..n], job);
        if !Edits(start, job) {
          var k: nat :| AcceptsAt(start, steps[..n], k, job);
          assert steps[..n][..k] == steps[..k];
          assert AcceptsAt(start, steps, k, job);
        }
      } else {
        assert AcceptsAt(start, steps, n, job);
      }
    }
  }

  /** Every edit under way was accepted at one step of the run, in a state that its new rules fitted. */
  lemma EditsBeganFitting(file: Option<ConfigV2>, steps: seq<Step>, s: Sys, job: EditJob)
    requires Lifecycle.Reaches(file, steps, s) && Edits(s, job)
    ensures exists k: nat :: AcceptsAt(Opened(file, Desired.DecodedFile(file).value), steps, k, job)
  {
    hide Run, AcceptsAt;
    EditsWereAccepted(Opened(file, Desired.DecodedFile(file).value), steps, job);
  }

  // ----- an edit goes on only after its process was stopped

  // What is left of an edit whose stop has ended: how it ended. None while it has not.
  function StopOf(call: Call): Option<bool> {
    match call
    case EditStopFailed(_) => Some(false)
    case EditFinishing(_, StopFailed) => Some(false)
    case EditFinishing(_, _) => Some(true)
    case EditSaving(_) => Some(true)
    case EditRestarting(_, _) => Some(true)
    case Launching(_, _, _, ByEdit(_, _)) => Some(true)
    case Launched(_, _, ByEdit(_, _)) => Some(true)
    case LaunchFailed(_, _, _, ByEdit(_, _), _) => Some(true)
    case Discarding(_, _, ByEdit(_, _)) => Some(true)
    case _ => None
  }

  predicate EndsStop(steps: seq<Step>, k: nat, c: nat, stopped: bool) {
    k < |steps| && steps[k] == EditStopEnds(c, stopped)
  }

  lemma StepTellsStop(s: Sys, step: Step, c: nat)
    requires Apply(s, step).Some?
    requires var s' := Apply(s, step).value; c in s'.calls && StopOf(s'.calls[c]).Some?
    ensures var stopped := StopOf(Apply(s, step).value.calls[c]);
      (c in s.calls && StopOf(s.calls[c]) == stopped) || step == EditStopEnds(c, stopped.value)
  {
    hide Add, Import, Remove, UpdateSettings, StartBegin, StartCommit, StartFail, Stop, EditRequest, EditBegin,
      EditMarkFailed, EditSave, EditFinish, Maintain, EndedTokens;
  }

  lemma {:induction false} StopWasTold(start: Sys, steps: seq<Step>, c: nat)
    requires start.calls == map[] && Run(start, steps).Some?
    requires var s := Run(start, steps).value; c in s.calls && StopOf(s.calls[c]).Some?
    ensures exists k: nat :: EndsStop(steps, k, c, StopOf(Run(start, steps).value.calls[c]).value)
    decreases |steps|
  {
    hide Apply, StopOf;
    var n := |steps| - 1;
    RunLast(start, steps);
    var s := Run(start, steps[..n]).value;
    var stopped := StopOf(Run(start, steps).value.calls[c]);
    StepTellsStop(s, steps[n], c);
    if c in s.calls && StopOf(s.calls[c]) == stopped {
      StopWasTold(start, steps[..n], c);
      var k: nat :| EndsStop(steps[..n], k, c, stopped.value);
      assert EndsStop(steps, k, c, stopped.value);
    } else {
      assert EndsStop(steps, n, c, stopped.value);
    }
  }

  /**
   * Over every run, an edit that saves, restarts or reports anything but a failed stop has had its process
   * stopped, and one that reports a failed stop has not.
   */
  lemma EditsStopFirst(file: Option<ConfigV2>, steps: seq<Step>, s: Sys, c: nat)
    requires Lifecycle.Reaches(file, steps, s) && c in s.calls && StopOf(s.calls[c]).Some?
    ensures exists k: nat :: EndsStop(steps, k, c, StopOf(s.calls[c]).value)
  {
    hide Run, StopOf, EndsStop;
    StopWasTold(Opened(file, Desired.DecodedFile(file).value), steps, c);
  }
}
