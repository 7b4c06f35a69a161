/**
 * Desired configuration: memory equals the decoded file, the rules are valid, and the result of a run
 * is the replay of the writes its replies acknowledge.
 */
module Desired {
  import opened Wrappers
  import opened Rules
  import opened Conversion
  import opened Sections
  import opened Slots
  import opened Protocol
  import opened Coordination

  // No file means no rules and default settings.
  function DecodedFile(file: Option<ConfigV2>): Result<Persisted, StoreError> {
    match file
    case None => Ok(Persisted([], DEFAULT_SETTINGS))
    case Some(c) => IntoDomain(c)
  }

  predicate DataOk(st: State) {
    && DecodedFile(st.file) == Ok(Persisted(st.rules, st.settings))
    && AllValid(st.rules)
    && PairwiseCompatible(st.rules)
  }

  lemma SaveKeepsData(st: State, p: Persisted, fault: SaveFault)
    requires DataOk(st) && AllValid(p.rules) && ValidRuleSet(p.rules)
    ensures var (st', saved) := SaveState(st, p, fault);
      && DataOk(st')
      && (if Committed(saved) then st' == st.(rules := p.rules, settings := p.settings, file := st'.file)
          else st' == st)
      && (fault == NoFault <==> saved.Ok?)
  {
    ValidRuleSetIsPairwise(p.rules);
    var (file, saved) := SaveConfig(st.file, p, fault);
    assert FromDomain(p).Ok?;
    ConfigRoundTrip(FromDomain(p).value, p);
    hide ValidRule, RuleSetErrors, IntoDomain, FromDomain, PairwiseCompatible;
  }

  lemma {:induction false} ReplacedMembers(rules: seq<Rule>, rule: Rule)
    ensures forall r :: r in ReplaceRule(rules, rule) ==> r == rule || r in rules
  {
    if rules != [] { ReplacedMembers(rules[1..], rule); }
  }

  lemma {:induction false} RemainingMembers(rules: seq<Rule>, id: RuleId)
    ensures forall r :: r in WithoutRule(rules, id) ==> r in rules
  {
    if rules != [] { RemainingMembers(rules[1..], id); }
  }

  lemma AddKeepsData(st: State, wire: WireRule, fault: SaveFault)
    requires DataOk(st)
    ensures DataOk(Add(st, wire, fault).0)
  {
    if ToDomain(wire).Ok? {
      var rule := ToDomain(wire).value;
      RuleRoundTrip(wire, rule);
      ReplacedMembers(st.rules, rule);
      var next := Upsert(st.rules, rule);
      hide ToDomain, ToWire, ValidRule, ValidRuleSet, SaveState;
      assert AllValid(next);
      if ValidRuleSet(next) { SaveKeepsData(st, Persisted(next, st.settings), fault); }
    }
  }

  lemma ImportKeepsData(st: State, wires: seq<WireRule>, fault: SaveFault)
    requires DataOk(st)
    ensures DataOk(Import(st, wires, fault).0)
  {
    if AllToDomain(wires).Ok? {
      var imported := AllToDomain(wires).value;
      AllRoundTrip(wires, imported);
      hide AllToDomain, AllToWire, ValidRule, ValidRuleSet, SaveState;
      assert AllValid(st.rules + imported);
      if ValidRuleSet(st.rules + imported) {
        SaveKeepsData(st, Persisted(st.rules + imported, st.settings), fault);
      }
    }
  }

  lemma PrependCompatible(first: Rule, rest: seq<Rule>)
    ensures PairwiseCompatible([first] + rest) <==>
            PairwiseCompatible(rest) && forall r :: r in rest ==> Compatible(r, first)
  {
    hide Compatible;
    var all := [first] + rest;
    if PairwiseCompatible(all) {
      forall i, j | 0 <= i < j < |rest| ensures Compatible(rest[j], rest[i]) {
        assert Compatible(all[j + 1], all[i + 1]);
      }
      forall r | r in rest ensures Compatible(r, first) {
        var k :| 0 <= k < |rest| && rest[k] == r;
        assert Compatible(all[k + 1], all[0]);
      }
    }
    if PairwiseCompatible(rest) && forall r :: r in rest ==> Compatible(r, first) {
      forall i, j | 0 <= i < j < |all| ensures Compatible(all[j], all[i]) {
        if i == 0 { assert all[j] in rest; } else { assert Compatible(rest[j - 1], rest[i - 1]); }
      }
    }
  }

  lemma {:induction false} CompatibleAfterRemoval(rules: seq<Rule>, id: RuleId)
    requires PairwiseCompatible(rules)
    ensures PairwiseCompatible(WithoutRule(rules, id))
  {
    if rules != [] {
      var rest := rules[1..];
      assert rules == [rules[0]] + rest;
      PrependCompatible(rules[0], rest);
      CompatibleAfterRemoval(rest, id);
      RemainingMembers(rest, id);
      PrependCompatible(rules[0], WithoutRule(rest, id));
      hide PairwiseCompatible, Compatible;
      assert [] + WithoutRule(rest, id) == WithoutRule(rest, id);
    }
  }

  lemma RemoveKeepsData(st: State, sel: Selector, fault: SaveFault)
    requires DataOk(st)
    ensures DataOk(Remove(st, sel, fault).0)
  {
    if Resolve(st, sel).Ok? {
      var id := Resolve(st, sel).value;
      RemainingMembers(st.rules, id);
      CompatibleAfterRemoval(st.rules, id);
      ValidRuleSetIsPairwise(WithoutRule(st.rules, id));
      hide ValidRule, ValidRuleSet, PairwiseCompatible, SaveState, Resolve;
      assert AllValid(WithoutRule(st.rules, id));
      SaveKeepsData(st, Persisted(WithoutRule(st.rules, id), st.settings), fault);
    }
  }

  lemma SettingsKeepData(st: State, settings: Settings, fault: SaveFault)
    requires DataOk(st)
    ensures DataOk(UpdateSettings(st, settings, fault).0)
  {
    ValidRuleSetIsPairwise(st.rules);
    SaveKeepsData(st, Persisted(st.rules, settings), fault);
    hide DataOk, SaveState;
  }

  lemma EditSaveKeepsData(st: State, job: EditJob, fault: SaveFault)
    requires DataOk(st) && ValidRule(job.replacement)
    ensures DataOk(EditSave(st, job, fault).0)
  {
    ReplacedMembers(st.rules, job.replacement);
    var next := ReplaceRule(st.rules, job.replacement);
    hide ValidRule, SaveState, RuleSetErrors, PairwiseCompatible;
    assert AllValid(next);
    if RuleSetErrors(next) == [] { SaveKeepsData(st, Persisted(next, st.settings), fault); }
  }

  predicate SameData(st: State, st': State) {
    st'.rules == st.rules && st'.settings == st.settings && st'.file == st.file
  }

  /** Steps other than configuration writes leave rules, settings and file alone. */
  lemma OtherStepsKeepData(s: Sys, step: Step)
    requires Apply(s, step).Some?
    requires !step.AddRule? && !step.ImportRules? && !step.RemoveRule? && !step.ChangeSettings? && !step.EditSaves?
    ensures SameData(s.st, Apply(s, step).value.st)
  {
    hide StartBegin, StartCommit, StartFail, Stop, EditRequest, EditBegin, EditMarkFailed, EditFinish;
    match step
    case BeginStart(sel, automatic, port) =>
      StartBeginSlots(s.st, sel, if automatic then Automatic else Explicit, s.next, port);
    case CommitStart(c, now) =>
      StartCommitSlots(s.st, s.calls[c].id, ModeOf(s.calls[c].purpose), s.calls[c].managed, now);
    case RecordFailure(c, now) =>
      var call := s.calls[c];
      StartFailSlots(s.st, call.id, call.rule, ModeOf(call.purpose), call.marker, call.kind, now);
    case BeginStop(sel) => StopSlots(s.st, sel);
    case BeginEdit(expected, replacement) =>
      if EditRequest(expected, replacement).Ok? { EditBeginSlots(s.st, EditRequest(expected, replacement).value); }
    case EditMarks(c) => EditMarkSlots(s.st, s.calls[c].job.expected.id);
    case EditRestarts(c, port) => StartBeginSlots(s.st, ById(s.calls[c].job.expected.id), ForEdit, s.next, port);
    case EditFinishes(c) => EditFinishSlots(s.st, s.calls[c].job.expected.id);
    case _ =>
  }

  lemma StepKeepsData(s: Sys, step: Step)
    requires Coordinated(s) && DataOk(s.st) && Apply(s, step).Some?
    ensures DataOk(Apply(s, step).value.st)
  {
    match step
    case AddRule(wire, fault) => AddKeepsData(s.st, wire, fault);
    case ImportRules(wires, fault) => ImportKeepsData(s.st, wires, fault);
    case RemoveRule(sel, fault) => RemoveKeepsData(s.st, sel, fault);
    case ChangeSettings(settings, fault) => SettingsKeepData(s.st, settings, fault);
    case EditSaves(c, fault) =>
      assert CallOk(SlotOf(s.st, RuleOf(s.calls[c])), s.calls[c]);
      EditSaveKeepsData(s.st, s.calls[c].job, fault);
    case _ => OtherStepsKeepData(s, step);
  }

  // ----- unique ids

  lemma {:induction false} ReplacedIds(rules: seq<Rule>, rule: Rule)
    ensures |ReplaceRule(rules, rule)| == |rules|
    ensures forall i :: 0 <= i < |rules| ==> ReplaceRule(rules, rule)[i].id == rules[i].id
  {
    if rules != [] { ReplacedIds(rules[1..], rule); }
  }

  lemma UniqueAfterReplacement(rules: seq<Rule>, rule: Rule)
    requires UniqueIds(rules)
    ensures UniqueIds(ReplaceRule(rules, rule))
  {
    ReplacedIds(rules, rule);
  }

  lemma UniqueAfterUpsert(rules: seq<Rule>, rule: Rule)
    requires UniqueIds(rules)
    ensures UniqueIds(Upsert(rules, rule))
  {
    UniqueAfterReplacement(rules, rule);
  }

  lemma {:induction false} UniqueAfterRemoval(rules: seq<Rule>, id: RuleId)
    requires UniqueIds(rules)
    ensures UniqueIds(WithoutRule(rules, id))
  {
    hide UniqueIds;
    if rules != [] {
      var rest := rules[1..];
      UniqueRest(rules);
      UniqueAfterRemoval(rest, id);
      RemainingMembers(rest, id);
      if rules[0].id == id {
        assert [] + WithoutRule(rest, id) == WithoutRule(rest, id);
      } else {
        UniqueWithFirst(rules[0], WithoutRule(rest, id));
      }
    }
  }

  lemma {:induction false} UniqueAfterImport(rules: seq<Rule>, imported: seq<Rule>, seen: set<RuleId>)
    requires UniqueIds(rules) && (forall r :: r in rules ==> r.id in seen) && FreshIds(imported, seen)
    ensures UniqueIds(rules + imported)
    decreases imported
  {
    if imported == [] {
      assert rules + imported == rules;
    } else {
      var grown := rules + [imported[0]];
      UniqueAfterImport(grown, imported[1..], seen + {imported[0].id});
      assert rules + imported == grown + imported[1..];
    }
  }

  lemma RequestsKeepUniqueIds(s: Sys, step: Step)
    requires UniqueIds(s.st.rules) && (step.AddRule? || step.ImportRules? || step.RemoveRule? || step.ChangeSettings?)
    ensures UniqueIds(Apply(s, step).value.st.rules)
  {
    hide ToDomain, AllToDomain, ValidRuleSet, SaveConfig, RuleSetErrors, FindRule, ReplaceRule, WithoutRule, Upsert,
         UniqueIds;
    match step
    case AddRule(wire, fault) =>
      if ToDomain(wire).Ok? { UniqueAfterUpsert(s.st.rules, ToDomain(wire).value); }
    case ImportRules(wires, fault) =>
      if AllToDomain(wires).Ok? && FreshIds(AllToDomain(wires).value, Ids(s.st.rules)) {
        UniqueAfterImport(s.st.rules, AllToDomain(wires).value, Ids(s.st.rules));
      }
    case RemoveRule(sel, fault) =>
      if Resolve(s.st, sel).Ok? { UniqueAfterRemoval(s.st.rules, Resolve(s.st, sel).value); }
    case ChangeSettings(settings, fault) =>
  }

  lemma EditKeepsUniqueIds(s: Sys, c: nat, fault: SaveFault)
    requires UniqueIds(s.st.rules) && StepEditSaves(s, c, fault).Some?
    ensures UniqueIds(StepEditSaves(s, c, fault).value.st.rules)
  {
    hide SaveConfig, RuleSetErrors, FindRule, ReplaceRule, UniqueIds;
    UniqueAfterReplacement(s.st.rules, s.calls[c].job.replacement);
  }

  lemma StepKeepsUniqueIds(s: Sys, step: Step)
    requires Coordinated(s) && UniqueIds(s.st.rules) && Apply(s, step).Some?
    ensures UniqueIds(Apply(s, step).value.st.rules)
  {
    hide UniqueIds, Coordinated;
    match step
    case AddRule(_, _) => RequestsKeepUniqueIds(s, step);
    case ImportRules(_, _) => RequestsKeepUniqueIds(s, step);
    case RemoveRule(_, _) => RequestsKeepUniqueIds(s, step);
    case ChangeSettings(_, _) => RequestsKeepUniqueIds(s, step);
    case EditSaves(c, fault) => EditKeepsUniqueIds(s, c, fault);
    case _ => OtherStepsKeepData(s, step);
  }

  // ----- acknowledged writes and their replay

  datatype Write = Put(rule: Rule) | PutAll(rules: seq<Rule>) | Drop(id: RuleId) | Set(settings: Settings)

  datatype Config = Config(rules: map<RuleId, Rule>, settings: Settings)

  function Replay(config: Config, writes: seq<Write>): Config {
    if writes == [] then config
    else
      var last := writes[|writes| - 1];
      var before := Replay(config, writes[..|writes| - 1]);
      match last
      case Put(rule) => before.(rules := before.rules[rule.id := rule])
      case PutAll(rules) => before.(rules := PutEach(before.rules, rules))
      case Drop(id) => before.(rules := before.rules - {id})
      case Set(settings) => before.(settings := settings)
  }

  function PutEach(m: map<RuleId, Rule>, rules: seq<Rule>): map<RuleId, Rule>
    decreases rules
  {
    if rules == [] then m else PutEach(m[rules[0].id := rules[0]], rules[1..])
  }

  function ConfigOf(st: State): Config {
    Config(map id | id in Ids(st.rules) :: FindRule(st.rules, id).value, st.settings)
  }

  // The write a reply acknowledges: success, or an error saying that only its durability is uncertain.
  predicate Acknowledges<T>(reply: Result<T, ErrorCode>) {
    reply.Ok? || reply.error == Internal(DurabilityUncertain)
  }

  function WriteOf(s: Sys, step: Step): seq<Write> {
    match step
    case AddRule(wire, fault) =>
      if Acknowledges(Add(s.st, wire, fault).1) && ToDomain(wire).Ok? then [Put(ToDomain(wire).value)] else []
    case ImportRules(wires, fault) =>
      if Acknowledges(Import(s.st, wires, fault).1) && AllToDomain(wires).Ok?
      then [PutAll(AllToDomain(wires).value)] else []
    case RemoveRule(sel, fault) =>
      if Acknowledges(Remove(s.st, sel, fault).1) && Resolve(s.st, sel).Ok?
      then [Drop(Resolve(s.st, sel).value)] else []
    case ChangeSettings(settings, fault) =>
      if Acknowledges(UpdateSettings(s.st, settings, fault).1) then [Set(settings)] else []
    case EditSaves(c, fault) =>
      if c in s.calls && s.calls[c].EditSaving? then
        var saved := EditSave(s.st, s.calls[c].job, fault).1;
        if saved.Some? && Committed(saved.value) then [Put(s.calls[c].job.replacement)] else []
      else []
    case _ => []
  }

  function WritesOf(s: Sys, steps: seq<Step>): seq<Write>
    decreases steps
  {
    if steps == [] || Apply(s, steps[0]).None? then []
    else WriteOf(s, steps[0]) + WritesOf(Apply(s, steps[0]).value, steps[1..])
  }

  lemma {:induction false} ReplayConcat(config: Config, a: seq<Write>, b: seq<Write>)
    ensures Replay(config, a + b) == Replay(Replay(config, a), b)
    decreases b
  {
    if b == [] {
      assert a + b == a;
    } else {
      var n := |b| - 1;
      ReplayConcat(config, a, b[..n]);
      assert (a + b)[..|a + b| - 1] == a + b[..n];
    }
  }

  lemma ReplayOne(config: Config, w: Write)
    ensures Replay(config, [w]) ==
      match w
      case Put(rule) => config.(rules := config.rules[rule.id := rule])
      case PutAll(rules) => config.(rules := PutEach(config.rules, rules))
      case Drop(id) => config.(rules := config.rules - {id})
      case Set(settings) => config.(settings := settings)
  {
    assert [w][..0] == [];
  }

  lemma {:induction false} PutEachFound(m: map<RuleId, Rule>, rules: seq<Rule>, seen: set<RuleId>)
    requires FreshIds(rules, seen)
    ensures PutEach(m, rules).Keys == m.Keys + Ids(rules)
    ensures forall id :: id in PutEach(m, rules) ==>
              PutEach(m, rules)[id] == if id in Ids(rules) then FindRule(rules, id).value else m[id]
    decreases rules
  {
    if rules != [] {
      var rest := rules[1..];
      PutEachFound(m[rules[0].id := rules[0]], rest, seen + {rules[0].id});
      FreshIdsFound(rest, seen + {rules[0].id}, rules[0].id);
      assert Ids(rules) == {rules[0].id} + Ids(rest) by {
        assert rules == [rules[0]] + rest;
      }
    }
  }

  lemma SameLookupsSameConfig(st: State, config: Config)
    requires st.settings == config.settings
    requires forall id :: FindRule(st.rules, id) == if id in config.rules then Some(config.rules[id]) else None
    ensures ConfigOf(st) == config
  {
    assert forall id :: id in Ids(st.rules) <==> FindRule(st.rules, id).Some? by {
      forall id ensures id in Ids(st.rules) <==> FindRule(st.rules, id).Some? {
      }
    }
    assert ConfigOf(st).rules.Keys == config.rules.Keys;
  }

  lemma ConfigLookup(st: State, id: RuleId)
    ensures FindRule(st.rules, id) == if id in ConfigOf(st).rules then Some(ConfigOf(st).rules[id]) else None
  {
  }

  lemma PutReplays(st: State, st': State, rule: Rule)
    requires st'.settings == st.settings
    requires forall id :: FindRule(st'.rules, id) == if id == rule.id then Some(rule) else FindRule(st.rules, id)
    ensures ConfigOf(st') == Replay(ConfigOf(st), [Put(rule)])
  {
    ReplayOne(ConfigOf(st), Put(rule));
    SameLookupsSameConfig(st', ConfigOf(st).(rules := ConfigOf(st).rules[rule.id := rule]));
  }

  lemma AddReplays(s: Sys, wire: WireRule, fault: SaveFault)
    ensures ConfigOf(Add(s.st, wire, fault).0) == Replay(ConfigOf(s.st), WriteOf(s, AddRule(wire, fault)))
  {
    var st' := Add(s.st, wire, fault).0;
    hide ToDomain, ValidRuleSet, FromDomain, IntoDomain;
    if WriteOf(s, AddRule(wire, fault)) != [] {
      var rule := ToDomain(wire).value;
      assert st'.rules == Upsert(s.st.rules, rule) && st'.settings == s.st.settings;
      forall id ensures FindRule(st'.rules, id) == if id == rule.id then Some(rule) else FindRule(s.st.rules, id) {
        FindUpserted(s.st.rules, rule, id);
      }
      PutReplays(s.st, st', rule);
    } else {
      assert st'.rules == s.st.rules && st'.settings == s.st.settings;
    }
  }

  lemma ImportReplays(s: Sys, wires: seq<WireRule>, fault: SaveFault)
    ensures ConfigOf(Import(s.st, wires, fault).0) == Replay(ConfigOf(s.st), WriteOf(s, ImportRules(wires, fault)))
  {
    var st' := Import(s.st, wires, fault).0;
    hide AllToDomain, ValidRuleSet, FromDomain, IntoDomain;
    if WriteOf(s, ImportRules(wires, fault)) != [] {
      var imported := AllToDomain(wires).value;
      ReplayOne(ConfigOf(s.st), PutAll(imported));
      assert st'.rules == s.st.rules + imported && st'.settings == s.st.settings;
      PutEachFound(ConfigOf(s.st).rules, imported, Ids(s.st.rules));
      forall id ensures FindRule(st'.rules, id) ==
        if FindRule(s.st.rules, id).Some? then FindRule(s.st.rules, id) else FindRule(imported, id)
      {
        FindAppended(s.st.rules, imported, id);
      }
      forall id | id in Ids(s.st.rules) ensures FindRule(imported, id).None? {
        FreshIdsFound(imported, Ids(s.st.rules), id);
      }
      var m := PutEach(ConfigOf(s.st).rules, imported);
      hide FreshIds, PutEach;
      forall id ensures FindRule(st'.rules, id) == if id in m then Some(m[id]) else None {
        ConfigLookup(s.st, id);
        assert id in Ids(imported) <==> FindRule(imported, id).Some?;
      }
      SameLookupsSameConfig(st', ConfigOf(s.st).(rules := m));
    } else {
      assert st'.rules == s.st.rules && st'.settings == s.st.settings;
    }
  }

  lemma RemoveReplays(s: Sys, sel: Selector, fault: SaveFault)
    ensures ConfigOf(Remove(s.st, sel, fault).0) == Replay(ConfigOf(s.st), WriteOf(s, RemoveRule(sel, fault)))
  {
    var st' := Remove(s.st, sel, fault).0;
    hide ValidRuleSet, FromDomain, IntoDomain, Resolve;
    if WriteOf(s, RemoveRule(sel, fault)) != [] {
      var gone := Resolve(s.st, sel).value;
      ReplayOne(ConfigOf(s.st), Drop(gone));
      assert st'.rules == WithoutRule(s.st.rules, gone) && st'.settings == s.st.settings;
      forall id ensures FindRule(st'.rules, id) == if id == gone then None else FindRule(s.st.rules, id) {
        FindWithout(s.st.rules, gone, id);
      }
      hide FindRule, WithoutRule;
      SameLookupsSameConfig(st', ConfigOf(s.st).(rules := ConfigOf(s.st).rules - {gone}));
    } else {
      assert st'.rules == s.st.rules && st'.settings == s.st.settings;
    }
  }

  lemma SettingsReplay(s: Sys, settings: Settings, fault: SaveFault)
    ensures ConfigOf(UpdateSettings(s.st, settings, fault).0) ==
            Replay(ConfigOf(s.st), WriteOf(s, ChangeSettings(settings, fault)))
  {
    hide FromDomain, IntoDomain;
    ReplayOne(ConfigOf(s.st), Set(settings));
  }

  lemma EditSaveReplays(s: Sys, c: nat, fault: SaveFault)
    requires Coordinated(s) && StepEditSaves(s, c, fault).Some?
    ensures ConfigOf(StepEditSaves(s, c, fault).value.st) ==
            Replay(ConfigOf(s.st), WriteOf(s, EditSaves(c, fault)))
  {
    hide Coordinated, ConfigOf, Replay, ValidRule, Committed;
    EditClaim(s, c);
    EditSaveWrites(s.st, s.calls[c].job, fault);
    EmptyReplay(ConfigOf(s.st));
    hide EditSave, SlotOf;
  }

  lemma EmptyReplay(config: Config)
    ensures Replay(config, []) == config
  {
  }

  lemma EditSaveWrites(st: State, job: EditJob, fault: SaveFault)
    requires job.expected.id == job.replacement.id && FindRule(st.rules, job.expected.id).Some?
    ensures var (st', saved) := EditSave(st, job, fault);
      && saved.Some?
      && ConfigOf(st') == if Committed(saved.value) then Replay(ConfigOf(st), [Put(job.replacement)]) else ConfigOf(st)
  {
    hide RuleSetErrors, FromDomain, IntoDomain, Replay, ConfigOf;
    var (st', saved) := EditSave(st, job, fault);
    if Committed(saved.value) {
      forall id
        ensures FindRule(st'.rules, id) ==
          if id == job.replacement.id then Some(job.replacement) else FindRule(st.rules, id)
      {
        FindReplaced(st.rules, job.replacement, id);
      }
      PutReplays(st, st', job.replacement);
    } else {
      SameRulesSameConfig(st, st');
    }
  }

  lemma SameRulesSameConfig(st: State, st': State)
    requires st'.rules == st.rules && st'.settings == st.settings
    ensures ConfigOf(st') == ConfigOf(st)
  {
  }

  lemma StepReplays(s: Sys, step: Step)
    requires Coordinated(s) && Apply(s, step).Some?
    ensures ConfigOf(Apply(s, step).value.st) == Replay(ConfigOf(s.st), WriteOf(s, step))
  {
    match step
    case AddRule(wire, fault) => AddReplays(s, wire, fault);
    case ImportRules(wires, fault) => ImportReplays(s, wires, fault);
    case RemoveRule(sel, fault) => RemoveReplays(s, sel, fault);
    case ChangeSettings(settings, fault) => SettingsReplay(s, settings, fault);
    case EditSaves(c, fault) => EditSaveReplays(s, c, fault);
    case _ => OtherStepsKeepData(s, step);
  }
}
