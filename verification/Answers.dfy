/**
 * What each request to the manager is answered, told from the rule it is about, the other rules and the
 * arguments: exactly when it is accepted, what an accepted one leaves, and the code of every refusal.
 */
module Answers {
  import opened Wrappers
  import opened Rules
  import opened Conversion
  import opened Sections
  import opened Slots

  // ----- places in the list of rules

  predicate FirstOf(rules: seq<Rule>, id: RuleId, i: nat) {
    i < |rules| && rules[i].id == id && forall k :: 0 <= k < i ==> rules[k].id != id
  }

  predicate FirstNamed(rules: seq<Rule>, name: string, i: nat) {
    i < |rules| && rules[i].name == name && forall k :: 0 <= k < i ==> rules[k].name != name
  }

  // `next` is the list with this rule put in: in the first place with its id, or at the end.
  ghost predicate PutIn(rules: seq<Rule>, rule: Rule, next: seq<Rule>) {
    || (exists i: nat :: FirstOf(rules, rule.id, i) && next == rules[i := rule])
    || ((forall r :: r in rules ==> r.id != rule.id) && next == rules + [rule])
  }

  // `next` is the list without the rules of this id; `from` says where each remaining rule was.
  predicate TakenOut(rules: seq<Rule>, id: RuleId, next: seq<Rule>, from: seq<nat>) {
    && |from| == |next|
    && (forall i, j :: 0 <= i < j < |from| ==> from[i] < from[j])
    && (forall i :: 0 <= i < |from| ==> from[i] < |rules| && next[i] == rules[from[i]])
    && (forall k :: 0 <= k < |rules| ==> (k in from <==> rules[k].id != id))
  }

  lemma {:induction false} FoundIsFirst(rules: seq<Rule>, id: RuleId, i: nat)
    requires FirstOf(rules, id, i)
    ensures FindRule(rules, id) == Some(rules[i])
    decreases i
  {
    if i > 0 { FoundIsFirst(rules[1..], id, i - 1); }
  }

  lemma {:induction false} PlaceOfFirst(rules: seq<Rule>, id: RuleId) returns (i: nat)
    requires FindRule(rules, id).Some?
    ensures FirstOf(rules, id, i)
  {
    i := 0;
    if rules[0].id != id {
      var j := PlaceOfFirst(rules[1..], id);
      i := j + 1;
    }
  }

  lemma PutInIsUpsert(rules: seq<Rule>, rule: Rule, next: seq<Rule>)
    requires PutIn(rules, rule, next)
    ensures next == Upsert(rules, rule)
  {
    hide FindRule, ReplaceRule;
    if i: nat :| FirstOf(rules, rule.id, i) && next == rules[i := rule] {
      FoundIsFirst(rules, rule.id, i);
      ReplacedFirst(rules, rule, i);
    }
  }

  lemma {:induction false} WithoutLast(rules: seq<Rule>, last: Rule, id: RuleId)
    ensures WithoutRule(rules + [last], id) == WithoutRule(rules, id) + if last.id == id then [] else [last]
  {
    if rules == [] {
      assert rules + [last] == [last];
    } else {
      assert (rules + [last])[1..] == rules[1..] + [last];
      WithoutLast(rules[1..], last, id);
    }
  }

  lemma OneMorePlace(rules: seq<Rule>, last: Rule, id: RuleId, next: seq<Rule>, from: seq<nat>)
    requires TakenOut(rules, id, next, from)
    ensures last.id == id ==> TakenOut(rules + [last], id, next, from)
    ensures last.id != id ==> TakenOut(rules + [last], id, next + [last], from + [|rules|])
  {
  }

  lemma {:induction false} TakenOutExists(rules: seq<Rule>, id: RuleId) returns (from: seq<nat>)
    ensures TakenOut(rules, id, WithoutRule(rules, id), from)
  {
    hide TakenOut;
    from := [];
    if rules == [] {
      NothingTakenOut(rules, id);
    } else {
      var n := |rules| - 1;
      var front, last := rules[..n], rules[n];
      assert rules == front + [last];
      from := TakenOutExists(front, id);
      var next := WithoutRule(front, id);
      OneMorePlace(front, last, id, next, from);
      WithoutLast(front, last, id);
      if last.id == id { assert next + [] == next; } else { from := from + [n]; }
    }
  }

  lemma NothingTakenOut(rules: seq<Rule>, id: RuleId)
    requires rules == []
    ensures TakenOut(rules, id, [], [])
  {
  }

  // ----- selectors

  /** A name means the first rule of that name; an id is taken as given. */
  lemma {:induction false} NameAnswers(rules: seq<Rule>, name: string, i: nat)
    requires FirstNamed(rules, name, i)
    ensures FindName(rules, name) == Some(rules[i])
    decreases i
  {
    if i > 0 { NameAnswers(rules[1..], name, i - 1); }
  }

  lemma {:induction false} UnknownName(rules: seq<Rule>, name: string)
    requires forall r :: r in rules ==> r.name != name
    ensures FindName(rules, name).None?
  {
    if rules != [] { UnknownName(rules[1..], name); }
  }

  lemma SelectorAnswers(st: State, sel: Selector)
    ensures sel.ById? ==> Resolve(st, sel) == Ok(sel.id)
    ensures sel.ByName? ==>
      forall i: nat :: FirstNamed(st.rules, sel.name, i) ==> Resolve(st, sel) == Ok(st.rules[i].id)
    ensures sel.ByName? && (forall r :: r in st.rules ==> r.name != sel.name) ==> Resolve(st, sel) == Err(NotFound)
  {
    hide FindName;
    if sel.ByName? {
      forall i: nat | FirstNamed(st.rules, sel.name, i) ensures Resolve(st, sel) == Ok(st.rules[i].id) {
        NameAnswers(st.rules, sel.name, i);
      }
      if forall r :: r in st.rules ==> r.name != sel.name { UnknownName(st.rules, sel.name); }
    }
  }

  // ----- starting and stopping

  predicate Reserved(slot: Slot, mode: StartMode) { slot.editing && mode != ForEdit }

  predicate Vetoed(slot: Slot, mode: StartMode) { slot.vetoed && mode == Automatic }

  predicate Idle(slot: Slot) { slot.entry == None || slot.entry == Some(Failed) }

  predicate ListensLocally(rule: Rule) { rule.forwarding.Local? || rule.forwarding.Dynamic? }

  // A start of a stored rule that is neither reserved, vetoed nor running: only its port is left to check.
  predicate ChecksPort(slot: Slot, mode: StartMode) {
    slot.stored.Some? && !Reserved(slot, mode) && !Vetoed(slot, mode) && Idle(slot)
  }

  predicate Launches(slot: Slot, mode: StartMode, port: PortCheck) {
    ChecksPort(slot, mode) && (ListensLocally(slot.stored.value) ==> port == PortFree)
  }

  /** When a start launches, and the answer of every start that does not. */
  lemma StartAnswers(st: State, sel: Selector, mode: StartMode, marker: Marker, port: PortCheck)
    ensures Resolve(st, sel).Err? ==> StartBegin(st, sel, mode, marker, port).1 == Refused(Resolve(st, sel).error)
    ensures Resolve(st, sel).Ok? ==>
      var out := StartBegin(st, sel, mode, marker, port).1;
      var id := Resolve(st, sel).value;
      var slot := SlotOf(st, id);
      && (out.Launch? <==> Launches(slot, mode, port))
      && (out.Launch? ==> out == Launch(id, slot.stored.value))
      && (out == Refused(Conflict) <==>
            Reserved(slot, mode)
            || (ChecksPort(slot, mode) && ListensLocally(slot.stored.value) && port == PortInUse))
      && (out == Refused(Unavailable) <==>
            ChecksPort(slot, mode) && ListensLocally(slot.stored.value) && port == PortUncheckable)
      && (out == NoChange(id, false) <==> !Reserved(slot, mode) && Vetoed(slot, mode))
      && (out == Refused(NotFound) <==> !Reserved(slot, mode) && !Vetoed(slot, mode) && slot.stored.None?)
      && (out == NoChange(id, true) <==>
            !Reserved(slot, mode) && !Vetoed(slot, mode) && slot.stored.Some? && !Idle(slot))
  {
    hide FindRule, Resolve;
  }

  lemma StopAnswers(st: State, sel: Selector)
    ensures Resolve(st, sel).Err? ==> Stop(st, sel).1 == Err(Resolve(st, sel).error)
    ensures Resolve(st, sel).Ok? ==>
      var id := Resolve(st, sel).value;
      var slot := SlotOf(st, id);
      Stop(st, sel).1 ==
        if slot.editing then Err(Conflict)
        else if slot.stored.None? then Err(NotFound)
        else Ok((id, slot.entry))
  {
    hide FindRule, Resolve;
  }

  // ----- saving

  // The file is missing or readable, as in every reachable state.
  predicate FileOk(st: State) { st.file.Some? ==> IntoDomain(st.file.value).Ok? }

  function SaveReply<T>(fault: SaveFault, value: T): Result<T, ErrorCode> {
    match fault
    case NoFault => Ok(value)
    case FailsBeforeRename => Err(Internal(Io))
    case DirectorySyncFails => Err(Internal(DurabilityUncertain))
  }

  // The state after a save of these rules and settings was tried.
  ghost predicate Written(st: State, st': State, p: Persisted, fault: SaveFault) {
    if fault == FailsBeforeRename then st' == st
    else
      && st'.file.Some? && IntoDomain(st'.file.value) == Ok(p)
      && st' == st.(rules := p.rules, settings := p.settings, file := st'.file)
  }

  lemma SaveAnswers(st: State, p: Persisted, fault: SaveFault)
    requires FileOk(st) && AllValid(p.rules) && PairwiseCompatible(p.rules)
    ensures var (st', saved) := SaveState(st, p, fault);
      && Written(st, st', p, fault)
      && saved == match fault
                  case NoFault => Ok(())
                  case FailsBeforeRename => Err(Io)
                  case DirectorySyncFails => Err(DurabilityUncertain)
  {
    ValidRuleSetIsPairwise(p.rules);
    ConfigRoundTrip(FromDomain(p).value, p);
    hide RuleSetErrors, IntoDomain, AllToWire;
  }

  // ----- configuration requests

  lemma UnreadableIsInvalid(st: State, wire: WireRule, fault: SaveFault)
    requires forall r :: ValidRule(r) ==> ToWire(r) != wire
    ensures Add(st, wire, fault) == (st, Err(InvalidRequest))
  {
    if ToDomain(wire).Ok? { RuleRoundTrip(wire, ToDomain(wire).value); }
    hide ToDomain, ToWire, ValidRule, ValidRuleSet;
  }

  /** Adding a valid rule, or replacing the stored rule of its id. */
  lemma AddAnswers(st: State, rule: Rule, next: seq<Rule>, fault: SaveFault)
    requires FileOk(st) && AllValid(st.rules) && ValidRule(rule) && PutIn(st.rules, rule, next)
    ensures var (st', reply) := Add(st, ToWire(rule), fault);
      var slot := SlotOf(st, rule.id);
      if slot.editing || (slot.stored.Some? && slot.entry.Some?) || !PairwiseCompatible(next)
      then reply == Err(Conflict) && st' == st
      else reply == SaveReply(fault, rule.id) && Written(st, st', Persisted(next, st.settings), fault)
  {
    RuleRoundTrip(ToWire(rule), rule);
    PutInIsUpsert(st.rules, rule, next);
    ValidRuleSetIsPairwise(next);
    PutInIsValid(st.rules, rule, next);
    var p := Persisted(next, st.settings);
    if PairwiseCompatible(next) { SaveAnswers(st, p, fault); }
    hide ToDomain, ToWire, ValidRuleSet, PutIn, SaveState, PairwiseCompatible, AllValid, Upsert;
  }

  lemma PutInIsValid(rules: seq<Rule>, rule: Rule, next: seq<Rule>)
    requires AllValid(rules) && ValidRule(rule) && PutIn(rules, rule, next)
    ensures AllValid(next)
  {
    hide ValidRule;
  }

  lemma {:induction false} FreshMeansDistinct(rules: seq<Rule>, seen: set<RuleId>)
    ensures FreshIds(rules, seen) <==> UniqueIds(rules) && forall r :: r in rules ==> r.id !in seen
  {
    hide UniqueIds;
    if rules == [] {
      assert UniqueIds(rules) by { NoIds(rules); }
    } else {
      var rest := rules[1..];
      FreshMeansDistinct(rest, seen + {rules[0].id});
      assert rules == [rules[0]] + rest;
      if UniqueIds(rules) { UniqueRest(rules); }
      if UniqueIds(rest) && forall r :: r in rest ==> r.id != rules[0].id { UniqueWithFirst(rules[0], rest); }
    }
  }

  lemma NoIds(rules: seq<Rule>)
    requires rules == []
    ensures UniqueIds(rules)
  {
  }

  /** Importing valid rules: all their ids must be new and different. */
  lemma ImportAnswers(st: State, imported: seq<Rule>, fault: SaveFault)
    requires FileOk(st) && AllValid(st.rules) && AllValid(imported) && imported != []
    ensures var (st', reply) := Import(st, AllToWire(imported), fault);
      var next := st.rules + imported;
      if !UniqueIds(imported) || (exists r, x :: r in imported && x in st.rules && r.id == x.id)
         || !PairwiseCompatible(next)
      then reply == Err(Conflict) && st' == st
      else
        && reply == SaveReply(fault, seq(|imported|, i requires 0 <= i < |imported| => imported[i].id))
        && Written(st, st', Persisted(next, st.settings), fault)
  {
    AllRoundTrip(AllToWire(imported), imported);
    FreshMeansDistinct(imported, Ids(st.rules));
    var next := st.rules + imported;
    ValidRuleSetIsPairwise(next);
    assert AllValid(next);
    if PairwiseCompatible(next) { SaveAnswers(st, Persisted(next, st.settings), fault); }
    hide AllToDomain, ValidRuleSet, SaveState, PairwiseCompatible, AllValid, FreshIds, UniqueIds;
  }

  lemma UnreadableImport(st: State, wires: seq<WireRule>, fault: SaveFault)
    requires wires == [] || forall rules :: AllValid(rules) ==> AllToWire(rules) != wires
    ensures Import(st, wires, fault) == (st, Err(InvalidRequest))
  {
    hide AllToDomain, AllToWire, AllValid, ValidRuleSet, FreshIds;
    if AllToDomain(wires).Ok? {
      var rules := AllToDomain(wires).value;
      AllRoundTrip(wires, rules);
      assert AllValid(rules);
    }
  }

  /** Removing a rule: only one that is stored, not reserved and has no entry; the others stay in order. */
  lemma RemoveAnswers(st: State, sel: Selector, fault: SaveFault) returns (next: seq<Rule>, from: seq<nat>)
    requires FileOk(st) && AllValid(st.rules) && PairwiseCompatible(st.rules)
    ensures Resolve(st, sel).Err? ==> Remove(st, sel, fault) == (st, Err(Resolve(st, sel).error))
    ensures Resolve(st, sel).Ok? ==>
      var (st', reply) := Remove(st, sel, fault);
      var id := Resolve(st, sel).value;
      var slot := SlotOf(st, id);
      && TakenOut(st.rules, id, next, from)
      && if slot.editing || slot.entry.Some? then reply == Err(Conflict) && st' == st
         else if slot.stored.None? then reply == Err(NotFound) && st' == st
         else reply == SaveReply(fault, id) && Written(st, st', Persisted(next, st.settings), fault)
  {
    next, from := [], [];
    if Resolve(st, sel).Ok? {
      var id := Resolve(st, sel).value;
      next := WithoutRule(st.rules, id);
      from := TakenOutExists(st.rules, id);
      RemainingIsValid(st.rules, id, next, from);
      ShorterExactlyIfFound(st.rules, id);
      SaveAnswers(st, Persisted(next, st.settings), fault);
    }
    hide Resolve, FindRule, WithoutRule, SaveState, TakenOut, PairwiseCompatible, AllValid;
  }

  lemma RemainingIsValid(rules: seq<Rule>, id: RuleId, next: seq<Rule>, from: seq<nat>)
    requires AllValid(rules) && PairwiseCompatible(rules) && TakenOut(rules, id, next, from)
    ensures AllValid(next) && PairwiseCompatible(next)
  {
    hide ValidRule, Compatible;
  }

  lemma {:induction false} ShorterExactlyIfFound(rules: seq<Rule>, id: RuleId)
    ensures |WithoutRule(rules, id)| <= |rules|
    ensures |WithoutRule(rules, id)| == |rules| <==> FindRule(rules, id).None?
  {
    if rules != [] { ShorterExactlyIfFound(rules[1..], id); }
  }

  lemma SettingsAnswers(st: State, settings: Settings, fault: SaveFault)
    requires FileOk(st) && AllValid(st.rules) && PairwiseCompatible(st.rules)
    ensures var (st', reply) := UpdateSettings(st, settings, fault);
      reply == SaveReply(fault, settings) && Written(st, st', Persisted(st.rules, settings), fault)
  {
    SaveAnswers(st, Persisted(st.rules, settings), fault);
    hide SaveState, PairwiseCompatible, AllValid;
  }

  // ----- editing an active rule

  // The rules with the first one of the replacement's id replaced.
  function Replaced(rules: seq<Rule>, replacement: Rule, i: nat): seq<Rule>
    requires i < |rules|
  {
    rules[i := replacement]
  }

  // An edit is accepted: its rule is what the client saw, active and not being edited, and the new rules fit.
  ghost predicate EditFits(st: State, job: EditJob) {
    var slot := SlotOf(st, job.expected.id);
    && slot.stored == Some(job.expected)
    && !slot.editing
    && slot.entry.Some? && slot.entry.value.Active?
    && exists i: nat :: FirstOf(st.rules, job.expected.id, i)
                        && PairwiseCompatible(Replaced(st.rules, job.replacement, i))
  }

  lemma ReplacementIsPairwise(st: State, job: EditJob)
    requires job.replacement.id == job.expected.id && FindRule(st.rules, job.expected.id).Some?
    ensures ValidRuleSet(ReplaceRule(st.rules, job.replacement)) <==>
            exists i: nat :: FirstOf(st.rules, job.expected.id, i)
                        && PairwiseCompatible(Replaced(st.rules, job.replacement, i))
  {
    hide FindRule, ReplaceRule, ValidRuleSet, PairwiseCompatible;
    var i := PlaceOfFirst(st.rules, job.expected.id);
    ReplacedFirst(st.rules, job.replacement, i);
    ValidRuleSetIsPairwise(st.rules[i := job.replacement]);
    assert Replaced(st.rules, job.replacement, i) == ReplaceRule(st.rules, job.replacement);
  }

  /** An edit is accepted exactly if it fits; otherwise nothing changes, and the attempt goes on. */
  lemma EditAnswers(st: State, job: EditJob)
    requires job.replacement.id == job.expected.id
    ensures var (st', reply) := EditBegin(st, job);
      var slot := SlotOf(st, job.expected.id);
      && (reply.Ok? <==> EditFits(st, job))
      && (reply.Ok? ==> slot.entry == Some(Active(reply.value)))
      && (reply.Err? ==> st' == st)
      && (reply == Err(NotFound) <==> slot.stored.None?)
      && (reply.Err? ==> reply.error == NotFound || reply.error == Conflict)
  {
    if FindRule(st.rules, job.expected.id).Some? { ReplacementIsPairwise(st, job); }
    hide FindRule, ReplaceRule, ValidRuleSet, FirstOf, PairwiseCompatible;
  }

  /** The save of an edit: None if the rule is gone. */
  lemma EditSaveAnswers(st: State, job: EditJob, i: nat, fault: SaveFault)
    requires FileOk(st) && AllValid(st.rules) && ValidRule(job.replacement)
    requires job.replacement.id == job.expected.id && FirstOf(st.rules, job.expected.id, i)
    ensures var (st', saved) := EditSave(st, job, fault);
      var next := Replaced(st.rules, job.replacement, i);
      if PairwiseCompatible(next) then
        && Written(st, st', Persisted(next, st.settings), fault)
        && saved == match fault
                    case NoFault => Some(Ok(()))
                    case FailsBeforeRename => Some(Err(Io))
                    case DirectorySyncFails => Some(Err(DurabilityUncertain))
      else st' == st && saved.Some? && saved.value.Err? && saved.value.error.InvalidRules?
  {
    var next := Replaced(st.rules, job.replacement, i);
    FoundIsFirst(st.rules, job.expected.id, i);
    ReplacedFirst(st.rules, job.replacement, i);
    ValidRuleSetIsPairwise(next);
    assert AllValid(next);
    if PairwiseCompatible(next) { SaveAnswers(st, Persisted(next, st.settings), fault); }
    hide FindRule, ReplaceRule, SaveState, PairwiseCompatible, AllValid, RuleSetErrors, Written;
  }
}
