/** The retry counters and delays of a rule, told from the failures of a run. */
module Retries {
  import opened Wrappers
  import opened Rules
  import opened Conversion
  import opened Reconnect
  import opened Sections
  import opened Slots
  import opened Protocol
  import opened Answers

  // ----- the steps that matter to one rule

  // Its launch failed for a reason worth retrying, while its start was still wanted.
  predicate LaunchFailsRetryably(s: Sys, step: Step, id: RuleId) {
    && step.RecordFailure? && step.call in s.calls && s.calls[step.call].LaunchFailed?
    && var call := s.calls[step.call];
       && call.id == id && call.rule.reconnect && call.kind.Network? && !call.purpose.ByEdit?
       && SlotOf(s.st, id).entry == Some(Starting(call.marker))
  }

  predicate Runs(slot: Slot) { slot.entry.Some? && slot.entry.value.Active? }

  // Its process ended although it should run.
  predicate ProcessEnds(s: Sys, step: Step, id: RuleId) {
    && step.Maintenance? && id in step.gone
    && var slot := SlotOf(s.st, id);
       Runs(slot) && slot.stored.Some? && slot.stored.value.reconnect
  }

  predicate Fails(s: Sys, step: Step, id: RuleId) {
    LaunchFailsRetryably(s, step, id) || ProcessEnds(s, step, id)
  }

  // It was found to have run for a minute.
  predicate Settles(s: Sys, step: Step, id: RuleId) {
    && step.Maintenance? && id !in step.gone
    && var slot := SlotOf(s.st, id);
       Runs(slot) && slot.info.activeSince.Some? && step.now >= slot.info.activeSince.value + 60_000
  }

  // A client stopped it, or an edit took it.
  ghost predicate Forgets(s: Sys, step: Step, id: RuleId) {
    match step
    case BeginStop(sel) =>
      Resolve(s.st, sel) == Ok(id) && !SlotOf(s.st, id).editing && SlotOf(s.st, id).stored.Some?
    case BeginEdit(expected, replacement) =>
      && EditRequest(expected, replacement).Ok?
      && EditRequest(expected, replacement).value.expected.id == id
      && EditFits(s.st, EditRequest(expected, replacement).value)
    case _ => false
  }

  ghost function AttemptsAfter(s: Sys, step: Step, id: RuleId, n: u32): u32 {
    if Forgets(s, step, id) || Settles(s, step, id) then 0
    else if Fails(s, step, id) then Min(n + 1, U32_MAX)
    else n
  }

  // Settling does not forget how often the rule reconnected.
  ghost function ReconnectsAfter(s: Sys, step: Step, id: RuleId, n: u32): u32 {
    if Forgets(s, step, id) then 0 else if Fails(s, step, id) then Min(n + 1, U32_MAX) else n
  }

  // ----- one step

  ghost predicate Counted(s: Sys, step: Step, id: RuleId)
    requires Apply(s, step).Some?
  {
    var before, after := InfoOf(s.st, id), InfoOf(Apply(s, step).value.st, id);
    && after.retryAttempt == AttemptsAfter(s, step, id, before.retryAttempt)
    && after.reconnectCount == ReconnectsAfter(s, step, id, before.reconnectCount)
  }

  // A failure makes the rule wait, at most for the bound that the failures counted before allow.
  predicate WaitsAfter(s: Sys, step: Step, id: RuleId)
    requires Apply(s, step).Some?
  {
    var after := EntryOf(Apply(s, step).value.st, id);
    var now := if step.RecordFailure? || step.Maintenance? then step.now else 0;
    && after.Some? && after.value.Reconnecting?
    && now <= after.value.due <= now + Min(Shl1(InfoOf(s.st, id).retryAttempt) * 1000, MAX_DELAY)
  }

  lemma InfoElsewhere(st: State, st': State, id: RuleId, j: RuleId)
    requires SameElsewhere(st, st', id) && j != id
    ensures InfoOf(st', j) == InfoOf(st, j) && EntryOf(st', j) == EntryOf(st, j)
  {
    assert SlotOf(st', j) == SlotOf(st, j);
  }

  lemma SlotParts(st: State, id: RuleId)
    ensures SlotOf(st, id).info == InfoOf(st, id) && SlotOf(st, id).entry == EntryOf(st, id)
    ensures SlotOf(st, id).editing == (id in st.editing) && SlotOf(st, id).stored == FindRule(st.rules, id)
  {
  }

  lemma RecordCounts(s: Sys, step: Step, id: RuleId)
    requires step.RecordFailure? && Apply(s, step).Some?
    ensures Counted(s, step, id)
    ensures Fails(s, step, id) ==> WaitsAfter(s, step, id)
  {
    var call := s.calls[step.call];
    var s' := Apply(s, step).value;
    StartFailSlots(s.st, call.id, call.rule, ModeOf(call.purpose), call.marker, call.kind, step.now);
    SlotParts(s.st, id);
    SlotParts(s'.st, id);
    if id != call.id { InfoElsewhere(s.st, s'.st, call.id, id); }
    hide StartFail, SlotOf, SameElsewhere, InfoOf, EntryOf, Shl1;
  }

  lemma MaintenanceCounts(s: Sys, step: Step, id: RuleId)
    requires step.Maintenance?
    ensures Counted(s, step, id)
  {
    MaintainSlots(s.st, step.gone, step.now, id);
    SlotParts(s.st, id);
    SlotParts(StepMaintenance(s, step.gone, step.now).st, id);
    hide Maintain, SlotOf, InfoOf, EntryOf, FindRule, Shl1, EndedTokens;
  }

  lemma MaintenanceWaits(s: Sys, step: Step, id: RuleId)
    requires step.Maintenance? && Fails(s, step, id)
    ensures WaitsAfter(s, step, id)
  {
    MaintainSlots(s.st, step.gone, step.now, id);
    SlotParts(s.st, id);
    SlotParts(StepMaintenance(s, step.gone, step.now).st, id);
    hide Maintain, SlotOf, InfoOf, EntryOf, FindRule, Shl1, EndedTokens;
  }

  lemma StopForgets(st: State, sel: Selector, id: RuleId)
    ensures InfoOf(Stop(st, sel).0, id) ==
            if Resolve(st, sel) == Ok(id) && !SlotOf(st, id).editing && SlotOf(st, id).stored.Some? then NO_INFO
            else InfoOf(st, id)
  {
    hide FindRule, Resolve;
  }

  lemma StopCounts(s: Sys, step: Step, id: RuleId)
    requires step.BeginStop?
    ensures Counted(s, step, id)
  {
    StopForgets(s.st, step.sel, id);
    hide Stop, SlotOf, InfoOf, Resolve;
  }

  lemma EditBeginCounts(st: State, job: EditJob, id: RuleId)
    requires job.replacement.id == job.expected.id
    ensures InfoOf(EditBegin(st, job).0, id) ==
            if EditFits(st, job) && job.expected.id == id then NO_INFO else InfoOf(st, id)
  {
    EditBeginSlots(st, job);
    EditAnswers(st, job);
    SlotParts(st, id);
    SlotParts(EditBegin(st, job).0, id);
    hide EditBegin, SlotOf, InfoOf, EditFits;
  }

  lemma EditCounts(s: Sys, step: Step, id: RuleId)
    requires step.BeginEdit?
    ensures Counted(s, step, id)
  {
    hide EditBegin, InfoOf, EditFits, ToDomain;
    if EditRequest(step.expected, step.replacement).Ok? {
      var job := EditRequest(step.expected, step.replacement).value;
      EditBeginCounts(s.st, job, id);
      EditAnswers(s.st, job);
    }
    hide EditRequest;
  }

  lemma StartCounts(s: Sys, step: Step, id: RuleId)
    requires step.BeginStart? || step.EditRestarts?
    requires Apply(s, step).Some?
    ensures Counted(s, step, id)
  {
    hide FindRule, Resolve, LocalListener;
  }

  lemma CommitCounts(s: Sys, step: Step, id: RuleId)
    requires step.CommitStart? || step.EditMarks?
    requires Apply(s, step).Some?
    ensures Counted(s, step, id)
  {
  }

  lemma OtherCounts(s: Sys, step: Step, id: RuleId)
    requires !step.BeginStart? && !step.EditRestarts? && !step.CommitStart? && !step.RecordFailure?
    requires !step.BeginStop? && !step.BeginEdit? && !step.Maintenance? && !step.EditMarks?
    requires Apply(s, step).Some?
    ensures Counted(s, step, id)
  {
    hide SaveConfig, ValidRuleSet, RuleSetErrors, ToDomain, AllToDomain, FindRule, WithoutRule, FreshIds, Resolve;
  }

  lemma OnlyTwoFail(s: Sys, step: Step, id: RuleId)
    requires Fails(s, step, id)
    ensures step.RecordFailure? || step.Maintenance?
  {
  }

  /** What one step does to the counters of a rule. */
  lemma StepCounts(s: Sys, step: Step, id: RuleId)
    requires Apply(s, step).Some?
    ensures Counted(s, step, id)
    ensures Fails(s, step, id) ==> WaitsAfter(s, step, id)
  {
    hide Apply, Counted, WaitsAfter, Fails;
    if step.Maintenance? && Fails(s, step, id) { MaintenanceWaits(s, step, id); }
    if Fails(s, step, id) { OnlyTwoFail(s, step, id); }
    match step
    case RecordFailure(_, _) => RecordCounts(s, step, id);
    case Maintenance(_, _) => MaintenanceCounts(s, step, id);
    case BeginStop(_) => StopCounts(s, step, id);
    case BeginEdit(_, _) => EditCounts(s, step, id);
    case BeginStart(_, _, _) => StartCounts(s, step, id);
    case EditRestarts(_, _) => StartCounts(s, step, id);
    case CommitStart(_, _) => CommitCounts(s, step, id);
    case EditMarks(_) => CommitCounts(s, step, id);
    case _ => OtherCounts(s, step, id);
  }

  lemma FailureWaits(s: Sys, step: Step, id: RuleId)
    requires Apply(s, step).Some? && Fails(s, step, id)
    ensures step.RecordFailure? || step.Maintenance?
    ensures var after := EntryOf(Apply(s, step).value.st, id);
      && after.Some? && after.value.Reconnecting?
      && step.now <= after.value.due <= step.now + Min(Shl1(InfoOf(s.st, id).retryAttempt) * 1000, MAX_DELAY)
  {
    StepCounts(s, step, id);
    hide Apply, InfoOf, Shl1, EntryOf, Counted, Min;
  }

  // ----- runs

  ghost function AttemptsAlong(s: Sys, steps: seq<Step>, id: RuleId, n: u32): u32
    requires Run(s, steps).Some?
    decreases steps
  {
    if steps == [] then n
    else AttemptsAlong(Apply(s, steps[0]).value, steps[1..], id, AttemptsAfter(s, steps[0], id, n))
  }

  ghost function ReconnectsAlong(s: Sys, steps: seq<Step>, id: RuleId, n: u32): u32
    requires Run(s, steps).Some?
    decreases steps
  {
    if steps == [] then n
    else ReconnectsAlong(Apply(s, steps[0]).value, steps[1..], id, ReconnectsAfter(s, steps[0], id, n))
  }

  /** Over every run both counters of a rule are what its failures, stops, edits and calm minutes make them. */
  lemma {:induction false} CountersFollowTheRun(s: Sys, steps: seq<Step>, id: RuleId)
    requires Run(s, steps).Some?
    ensures var before, after := InfoOf(s.st, id), InfoOf(Run(s, steps).value.st, id);
      && after.retryAttempt == AttemptsAlong(s, steps, id, before.retryAttempt)
      && after.reconnectCount == ReconnectsAlong(s, steps, id, before.reconnectCount)
    decreases steps
  {
    if steps != [] {
      hide Apply, AttemptsAfter, ReconnectsAfter, InfoOf;
      StepCounts(s, steps[0], id);
      CountersFollowTheRun(Apply(s, steps[0]).value, steps[1..], id);
    }
  }

  // No stop, accepted edit or calm minute of the rule anywhere in the run.
  ghost predicate NeverForgets(s: Sys, steps: seq<Step>, id: RuleId)
    requires Run(s, steps).Some?
    decreases steps
  {
    steps == [] ||
    (&& !Forgets(s, steps[0], id) && !Settles(s, steps[0], id)
     && NeverForgets(Apply(s, steps[0]).value, steps[1..], id))
  }

  function FailuresIn(s: Sys, steps: seq<Step>, id: RuleId): nat
    requires Run(s, steps).Some?
    decreases steps
  {
    if steps == [] then 0
    else (if Fails(s, steps[0], id) then 1 else 0) + FailuresIn(Apply(s, steps[0]).value, steps[1..], id)
  }

  lemma CapAdds(n: nat, d: nat, k: nat, most: nat)
    ensures Min(Min(n + d, most) + k, most) == Min(n + (d + k), most)
  {
  }

  lemma UnforgottenCounts(s: Sys, step: Step, id: RuleId, n: u32)
    requires !Forgets(s, step, id) && !Settles(s, step, id)
    ensures AttemptsAfter(s, step, id, n) == Min(n + (if Fails(s, step, id) then 1 else 0), U32_MAX)
    ensures ReconnectsAfter(s, step, id, n) == Min(n + (if Fails(s, step, id) then 1 else 0), U32_MAX)
  {
    hide Forgets, Settles, Fails;
  }

  /** Failures with no stop, edit or calm minute between them are all counted, up to 2^32 - 1. */
  lemma {:induction false} FailuresAddUp(s: Sys, steps: seq<Step>, id: RuleId)
    requires Run(s, steps).Some? && NeverForgets(s, steps, id)
    ensures var before, after := InfoOf(s.st, id), InfoOf(Run(s, steps).value.st, id);
      var k := FailuresIn(s, steps, id);
      && after.retryAttempt == Min(before.retryAttempt + k, U32_MAX)
      && after.reconnectCount == Min(before.reconnectCount + k, U32_MAX)
    decreases steps
  {
    hide Apply, Fails, Forgets, Settles, InfoOf, AttemptsAfter, ReconnectsAfter, Min;
    var before := InfoOf(s.st, id);
    if steps == [] {
      SmallIsKept(before.retryAttempt);
      SmallIsKept(before.reconnectCount);
    } else {
      var next, rest := Apply(s, steps[0]).value, FailuresIn(Apply(s, steps[0]).value, steps[1..], id);
      var d := if Fails(s, steps[0], id) then 1 else 0;
      StepCounts(s, steps[0], id);
      UnforgottenCounts(s, steps[0], id, before.retryAttempt);
      UnforgottenCounts(s, steps[0], id, before.reconnectCount);
      FailuresAddUp(next, steps[1..], id);
      CapAdds(before.retryAttempt, d, rest, U32_MAX);
      CapAdds(before.reconnectCount, d, rest, U32_MAX);
    }
  }

  lemma SmallIsKept(n: u32)
    ensures Min(n + 0, U32_MAX) == n
  {
  }

  /**
   * After k failures in a row, counted from a fresh or settled rule, the next one makes the rule wait at
   * most min(2^k, 60) seconds.
   */
  lemma BackoffOfARun(s: Sys, steps: seq<Step>, id: RuleId, step: Step)
    requires Run(s, steps).Some? && NeverForgets(s, steps, id) && InfoOf(s.st, id).retryAttempt == 0
    requires FailuresIn(s, steps, id) <= U32_MAX
    requires Apply(Run(s, steps).value, step).Some? && Fails(Run(s, steps).value, step, id)
    ensures var after := EntryOf(Apply(Run(s, steps).value, step).value.st, id);
      && after.Some? && after.value.Reconnecting?
      && step.now <= after.value.due <= step.now + Min(Shl1(FailuresIn(s, steps, id)) * 1000, MAX_DELAY)
  {
    hide Apply, Run, InfoOf, FailuresIn, NeverForgets, Shl1, EntryOf, Fails;
    FailuresAddUp(s, steps, id);
    FailureWaits(Run(s, steps).value, step, id);
  }

  /** Each further failure doubles the bound, up to 60 seconds. */
  lemma BoundDoubles(k: nat)
    ensures Min(Shl1(0) * 1000, MAX_DELAY) == 1000
    ensures Min(Shl1(k + 1) * 1000, MAX_DELAY) == Min(2 * Min(Shl1(k) * 1000, MAX_DELAY), MAX_DELAY)
  {
  }
}
