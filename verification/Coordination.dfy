/** Inductive invariant of the manager's protocol: what every suspended call may rely on. */
module Coordination {
  import opened Wrappers
  import opened Rules
  import opened Conversion
  import opened Sections
  import opened Slots
  import opened Protocol

  function RuleOf(call: Call): RuleId {
    match call
    case Launching(id, _, _, _) => id
    case Launched(id, _, _) => id
    case LaunchFailed(id, _, _, _, _) => id
    case Discarding(id, _, _) => id
    case Stopping(id, _) => id
    case EditStopping(job, _) => job.expected.id
    case EditStopFailed(job) => job.expected.id
    case EditSaving(job) => job.expected.id
    case EditRestarting(job, _) => job.expected.id
    case EditFinishing(job, _) => job.expected.id
  }

  // The marker a start that can still commit holds or held.
  function MarkerOf(call: Call): Option<Marker> {
    match call
    case Launching(_, _, marker, _) => Some(marker)
    case Launched(_, managed, _) => Some(managed.marker)
    case LaunchFailed(_, _, marker, _, _) => Some(marker)
    case _ => None
  }

  function PurposeOf(call: Call): Purpose {
    match call
    case Launching(_, _, _, purpose) => purpose
    case Launched(_, _, purpose) => purpose
    case LaunchFailed(_, _, _, purpose, _) => purpose
    case Discarding(_, _, purpose) => purpose
    case _ => ByClient
  }

  predicate IsEdit(call: Call) {
    || call.EditStopping? || call.EditStopFailed? || call.EditSaving? || call.EditRestarting? || call.EditFinishing?
    || PurposeOf(call).ByEdit?
  }

  // The rule that must be stored while an edit with this save result is under way.
  function Target(job: EditJob, saved: Result<(), StoreError>): Rule {
    if Committed(saved) then job.replacement else job.expected
  }

  predicate JobOk(job: EditJob) {
    job.expected.id == job.replacement.id && ValidRule(job.replacement)
  }

  // A start: if its marker is still in place, the rule it works from is the stored one.
  // The restart of an edit cannot lose its marker.
  predicate StartOk(slot: Slot, id: RuleId, marker: Marker, rule: Rule, purpose: Purpose) {
    && (slot.entry == Some(Starting(marker)) ==> slot.stored == Some(rule))
    && (purpose.ByEdit? ==>
          && JobOk(purpose.job) && purpose.job.expected.id == id
          && slot.editing
          && slot.entry == Some(Starting(marker))
          && slot.stored == Some(Target(purpose.job, purpose.saved)))
  }

  predicate OutcomeOk(slot: Slot, job: EditJob, outcome: EditOutcome) {
    match outcome
    case StopFailed => slot.stored == Some(job.expected)
    case RuleGone => false
    case Restarted(saved, _) => slot.stored == Some(Target(job, saved))
  }

  predicate CallOk(slot: Slot, call: Call) {
    match call
    case Launching(id, rule, marker, purpose) => StartOk(slot, id, marker, rule, purpose)
    case Launched(id, managed, purpose) => StartOk(slot, id, managed.marker, managed.rule, purpose)
    case LaunchFailed(id, rule, marker, purpose, _) => StartOk(slot, id, marker, rule, purpose)
    case Discarding(_, _, purpose) => !purpose.ByEdit?
    case Stopping(_, _) => true
    case EditStopping(job, _) => JobOk(job) && slot.editing && slot.entry.None? && slot.stored == Some(job.expected)
    case EditStopFailed(job) => JobOk(job) && slot.editing && slot.entry.None? && slot.stored == Some(job.expected)
    case EditSaving(job) => JobOk(job) && slot.editing && slot.entry.None? && slot.stored == Some(job.expected)
    case EditRestarting(job, saved) =>
      JobOk(job) && slot.editing && slot.entry.None? && slot.stored == Some(Target(job, saved))
    case EditFinishing(job, outcome) => JobOk(job) && slot.editing && OutcomeOk(slot, job, outcome)
  }

  // Two different calls never hold the same marker, and never edit the same rule.
  predicate Apart(a: Call, b: Call) {
    && (MarkerOf(a).Some? && MarkerOf(b).Some? ==> MarkerOf(a) != MarkerOf(b))
    && (IsEdit(a) && IsEdit(b) ==> RuleOf(a) != RuleOf(b))
  }

  ghost predicate SlotsOk(s: Sys) { forall id :: SlotOk(SlotOf(s.st, id)) }

  ghost predicate CallsOk(s: Sys) {
    forall c :: c in s.calls ==> CallOk(SlotOf(s.st, RuleOf(s.calls[c])), s.calls[c])
  }

  ghost predicate CallsApart(s: Sys) {
    forall c, d :: c in s.calls && d in s.calls && c != d ==> Apart(s.calls[c], s.calls[d])
  }

  predicate MarkerBelow(m: Option<Marker>, n: nat) { m.Some? ==> m.value < n }

  ghost predicate NamesFresh(s: Sys) {
    && (forall c :: c in s.calls ==> c < s.next && MarkerBelow(MarkerOf(s.calls[c]), s.next))
    && (forall id :: id in s.st.running && s.st.running[id].Starting? ==> s.st.running[id].marker < s.next)
  }

  ghost predicate Coordinated(s: Sys) {
    SlotsOk(s) && CallsOk(s) && CallsApart(s) && NamesFresh(s)
  }

  // ----- what single calls may rely on

  lemma EditClaim(s: Sys, c: nat)
    requires Coordinated(s) && c in s.calls
    requires s.calls[c].EditStopping? || s.calls[c].EditStopFailed? || s.calls[c].EditSaving?
    ensures var job := s.calls[c].job;
      var slot := SlotOf(s.st, job.expected.id);
      && slot.editing && slot.entry.None? && slot.stored == Some(job.expected)
      && job.expected.id == job.replacement.id && ValidRule(job.replacement)
  {
    hide ValidRule, SlotOf;
    assert CallOk(SlotOf(s.st, RuleOf(s.calls[c])), s.calls[c]);
  }

  lemma RestartClaim(s: Sys, c: nat)
    requires Coordinated(s) && c in s.calls && s.calls[c].EditRestarting?
    ensures var job := s.calls[c].job;
      var slot := SlotOf(s.st, job.expected.id);
      && slot.editing && slot.entry.None? && slot.stored == Some(Target(job, s.calls[c].saved))
      && JobOk(job)
  {
    hide ValidRule, SlotOf;
    assert CallOk(SlotOf(s.st, RuleOf(s.calls[c])), s.calls[c]);
  }

  lemma StartClaim(s: Sys, c: nat)
    requires Coordinated(s) && c in s.calls && MarkerOf(s.calls[c]).Some? && PurposeOf(s.calls[c]).ByEdit?
    ensures var call := s.calls[c];
      var purpose := PurposeOf(call);
      var slot := SlotOf(s.st, RuleOf(call));
      && purpose.job.expected.id == RuleOf(call) && JobOk(purpose.job)
      && slot.editing && slot.entry == Some(Starting(MarkerOf(call).value))
      && slot.stored == Some(Target(purpose.job, purpose.saved))
      && (call.Launched? ==> call.managed.rule == Target(purpose.job, purpose.saved))
  {
    hide ValidRule, SlotOf;
    assert CallOk(SlotOf(s.st, RuleOf(s.calls[c])), s.calls[c]);
  }

  lemma NoEditDiscards(s: Sys, c: nat)
    requires Coordinated(s) && c in s.calls && s.calls[c].Discarding?
    ensures !s.calls[c].purpose.ByEdit?
  {
    hide SlotOf;
    assert CallOk(SlotOf(s.st, RuleOf(s.calls[c])), s.calls[c]);
  }

  lemma SlotIsOk(s: Sys, id: RuleId)
    requires Coordinated(s)
    ensures SlotOk(SlotOf(s.st, id))
  {
    hide SlotOf, SlotOk, CallsOk, CallsApart, NamesFresh;
  }

  lemma MarkersAreBelow(s: Sys)
    requires Coordinated(s)
    ensures forall c :: c in s.calls ==> MarkerBelow(MarkerOf(s.calls[c]), s.next)
  {
    hide SlotsOk, CallsOk, CallsApart;
  }

  lemma NextIsFresh(s: Sys)
    requires Coordinated(s)
    ensures s.next !in s.calls
  {
    hide SlotsOk, CallsOk, CallsApart;
  }

  // ----- what a bystander of a step keeps: only the slot of its own rule matters to a call

  /** Removing or changing a rule that is neither running nor being edited. */
  lemma BystanderOfConfig(before: Slot, after: Slot, call: Call)
    requires CallOk(before, call) && !before.editing && (before.stored.Some? ==> before.entry.None?)
    requires SlotOk(before)
    requires after == before.(stored := after.stored)
    ensures CallOk(after, call)
  {
  }

  /** Any change to the entry of a rule made by the holder of its marker, or when there is no marker. */
  lemma BystanderOfEntry(before: Slot, after: Slot, call: Call)
    requires CallOk(before, call)
    requires before.entry.Some? && before.entry.value.Starting? ==> MarkerOf(call) != Some(before.entry.value.marker)
    requires after.entry.Some? && after.entry.value.Starting? ==> MarkerOf(call) != Some(after.entry.value.marker)
    requires before.entry.None? ==> !IsEdit(call)
    requires after.stored == before.stored && after.editing == before.editing
    ensures CallOk(after, call)
  {
  }

  /** Any change to a rule made while it is reserved by another call's edit, or by an edit that opens or closes. */
  lemma BystanderOfEdit(before: Slot, after: Slot, call: Call)
    requires CallOk(before, call) && !IsEdit(call)
    requires after.entry.Some? ==> !after.entry.value.Starting?
    ensures CallOk(after, call)
  {
  }
}
