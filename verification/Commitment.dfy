/** Which of the starts in flight can still register their attempt, now or in any continuation of the run. */
module Commitment {
  import opened Wrappers
  import opened Rules
  import opened Conversion
  import opened Sections
  import opened Reconnect
  import opened Slots
  import opened Protocol
  import opened Coordination
  import opened Preservation
  import opened Refinement
  import opened Lifecycle

  // A start that has put its marker in place once and is not over: launching, launched, or failed to launch.
  predicate InFlight(s: Sys, c: nat) {
    c in s.calls && MarkerOf(s.calls[c]).Some?
  }

  function StartedRule(s: Sys, c: nat): RuleId
    requires InFlight(s, c)
  {
    RuleOf(s.calls[c])
  }

  function StartMarker(s: Sys, c: nat): Marker
    requires InFlight(s, c)
  {
    MarkerOf(s.calls[c]).value
  }

  // A finished launch that registers its attempt if it takes the lock now.
  predicate Commits(s: Sys, c: nat, id: RuleId, marker: Marker) {
    && c in s.calls && s.calls[c].Launched? && s.calls[c].id == id && s.calls[c].managed.marker == marker
    && HoldsMarker(s.st, id, marker)
  }

  // Some continuation leads to a state where the start with this marker registers its attempt.
  ghost predicate CommitsAfter(s: Sys, steps: seq<Step>, c: nat, id: RuleId, marker: Marker) {
    Run(s, steps).Some? && Commits(Run(s, steps).value, c, id, marker)
  }

  ghost predicate CanStillCommit(s: Sys, c: nat)
    requires InFlight(s, c)
  {
    exists steps, d :: CommitsAfter(s, steps, d, StartedRule(s, c), StartMarker(s, c))
  }

  // ----- a marker that is gone stays gone

  predicate Lost(s: Sys, id: RuleId, marker: Marker) {
    marker < s.next && !HoldsMarker(s.st, id, marker)
  }

  lemma RequestKeepsLost(s: Sys, step: Step, id: RuleId, marker: Marker)
    requires step.AddRule? || step.ImportRules? || step.RemoveRule? || step.ChangeSettings? || step.EditSaves?
    requires Apply(s, step).Some? && Lost(s, id, marker)
    ensures Lost(Apply(s, step).value, id, marker)
  {
    if step.EditSaves? { QuietSave(s, step.call, step.fault); } else { QuietRequest(s, step); }
    hide Add, Import, Remove, UpdateSettings, EditSave;
  }

  lemma StartKeepsLost(s: Sys, step: Step, id: RuleId, marker: Marker)
    requires step.BeginStart? || step.CommitStart? || step.RecordFailure? || step.EditRestarts?
    requires Apply(s, step).Some? && Lost(s, id, marker)
    ensures Lost(Apply(s, step).value, id, marker)
  {
    hide Resolve, FindRule, LocalListener, FullJitter;
  }

  lemma StepKeepsLost(s: Sys, step: Step, id: RuleId, marker: Marker)
    requires Apply(s, step).Some? && Lost(s, id, marker)
    ensures Lost(Apply(s, step).value, id, marker)
  {
    if step.AddRule? || step.ImportRules? || step.RemoveRule? || step.ChangeSettings? || step.EditSaves? {
      RequestKeepsLost(s, step, id, marker);
    } else if step.BeginStart? || step.CommitStart? || step.RecordFailure? || step.EditRestarts? {
      StartKeepsLost(s, step, id, marker);
    } else {
      hide Add, Import, Remove, UpdateSettings, EditSave, StartBegin, StartCommit, StartFail, EditRequest, ValidRuleSet,
        FindRule, Resolve;
    }
  }

  lemma {:induction false} LostForever(s: Sys, steps: seq<Step>, id: RuleId, marker: Marker)
    requires Coordinated(s) && Lost(s, id, marker) && Run(s, steps).Some?
    ensures Lost(Run(s, steps).value, id, marker)
    decreases steps
  {
    if steps != [] {
      hide Coordinated, Apply, Lost;
      StepKeeps(s, steps[0]);
      StepKeepsLost(s, steps[0], id, marker);
      LostForever(Apply(s, steps[0]).value, steps[1..], id, marker);
    }
  }

  // ----- a launch that failed never succeeds

  ghost predicate OnlyFailed(s: Sys, marker: Marker) {
    && marker < s.next
    && forall c :: c in s.calls && MarkerOf(s.calls[c]) == Some(marker) ==> s.calls[c].LaunchFailed?
  }

  lemma StepKeepsFailed(s: Sys, step: Step, marker: Marker)
    requires Apply(s, step).Some? && OnlyFailed(s, marker)
    ensures OnlyFailed(Apply(s, step).value, marker)
  {
    hide Add, Import, Remove, UpdateSettings, StartBegin, StartCommit, StartFail, Stop, EditRequest, EditBegin,
      EditMarkFailed, EditSave, EditFinish, Maintain;
  }

  lemma {:induction false} FailedForever(s: Sys, steps: seq<Step>, marker: Marker)
    requires OnlyFailed(s, marker) && Run(s, steps).Some?
    ensures OnlyFailed(Run(s, steps).value, marker)
    decreases steps
  {
    if steps != [] {
      hide Apply, OnlyFailed;
      StepKeepsFailed(s, steps[0], marker);
      FailedForever(Apply(s, steps[0]).value, steps[1..], marker);
    }
  }

  // ----- main results

  lemma InFlightMarkersAreApart(s: Sys, c: nat, d: nat)
    requires Coordinated(s) && InFlight(s, c) && InFlight(s, d)
    ensures StartMarker(s, c) < s.next
    ensures StartMarker(s, c) == StartMarker(s, d) ==> c == d
  {
    hide SlotsOk, CallsOk;
    MarkersAreBelow(s);
    assert c != d ==> Apart(s.calls[c], s.calls[d]);
  }

  /** A start that has lost its marker registers its attempt in no continuation of the run. */
  lemma LostStartNeverCommits(s: Sys, c: nat, steps: seq<Step>, d: nat)
    requires Reachable(s) && InFlight(s, c) && !HoldsMarker(s.st, StartedRule(s, c), StartMarker(s, c))
    ensures !CommitsAfter(s, steps, d, StartedRule(s, c), StartMarker(s, c))
  {
    ReachableIsSound(s);
    hide Reachable, Coordinated, Run;
    InFlightMarkersAreApart(s, c, c);
    if Run(s, steps).Some? { LostForever(s, steps, StartedRule(s, c), StartMarker(s, c)); }
  }

  /** A start in flight can still commit exactly when its marker is in place and its launch has not failed. */
  lemma CanStillCommitNow(s: Sys, c: nat)
    requires Reachable(s) && InFlight(s, c)
    ensures CanStillCommit(s, c) <==>
            HoldsMarker(s.st, StartedRule(s, c), StartMarker(s, c)) && !s.calls[c].LaunchFailed?
  {
    hide Reachable, HoldsMarker, CommitsAfter;
    var id, marker := StartedRule(s, c), StartMarker(s, c);
    if HoldsMarker(s.st, id, marker) && !s.calls[c].LaunchFailed? {
      CommitsSoon(s, c);
    }
    if CanStillCommit(s, c) {
      var steps, d :| CommitsAfter(s, steps, d, id, marker);
      if !HoldsMarker(s.st, id, marker) { LostStartNeverCommits(s, c, steps, d); }
      if s.calls[c].LaunchFailed? { FailedStartNeverCommits(s, c, steps, d); }
    }
  }

  lemma CommitsSoon(s: Sys, c: nat)
    requires InFlight(s, c) && HoldsMarker(s.st, StartedRule(s, c), StartMarker(s, c)) && !s.calls[c].LaunchFailed?
    ensures CommitsAfter(
              s, if s.calls[c].Launched? then [] else [LaunchSucceeds(c)], c, StartedRule(s, c), StartMarker(s, c))
  {
    if s.calls[c].Launching? {
      var next := StepLaunchSucceeds(s, c).value;
      assert Run(next, []) == Some(next);
      assert [LaunchSucceeds(c)][1..] == [];
    }
  }

  lemma FailedStartNeverCommits(s: Sys, c: nat, steps: seq<Step>, d: nat)
    requires Reachable(s) && InFlight(s, c) && s.calls[c].LaunchFailed?
    ensures !CommitsAfter(s, steps, d, StartedRule(s, c), StartMarker(s, c))
  {
    ReachableIsSound(s);
    hide Reachable, Coordinated, Run;
    var marker := StartMarker(s, c);
    forall e | e in s.calls && MarkerOf(s.calls[e]) == Some(marker) ensures s.calls[e].LaunchFailed? {
      InFlightMarkersAreApart(s, e, c);
    }
    InFlightMarkersAreApart(s, c, c);
    if Run(s, steps).Some? { FailedForever(s, steps, marker); }
  }

  /** Of all starts in flight for one rule, launching or launched, at most one can still commit. */
  lemma AtMostOneCanStillCommit(s: Sys, c: nat, d: nat)
    requires Reachable(s) && InFlight(s, c) && InFlight(s, d) && StartedRule(s, c) == StartedRule(s, d)
    requires CanStillCommit(s, c) && CanStillCommit(s, d)
    ensures c == d
  {
    CanStillCommitNow(s, c);
    CanStillCommitNow(s, d);
    ReachableIsSound(s);
    hide Reachable, Coordinated, CanStillCommit;
    InFlightMarkersAreApart(s, c, d);
  }
}
