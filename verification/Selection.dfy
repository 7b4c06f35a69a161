/** Saving selected candidates as new rules: names, the built rules, and what a second preview shows. */
module Selection {
  import opened Wrappers
  import opened Text
  import opened Rules
  import opened Endpoints
  import opened Import

  // ----- names

  function KindWord(f: Forwarding): string {
    match f
    case Local(_, _, _, _) => "local"
    case Remote(_, _, _, _) => "remote"
    case Dynamic(_, _) => "dynamic"
  }

  function BaseName(f: Forwarding): string {
    "import-" + KindWord(f) + "-" + Decimal(f.bindPort)
  }

  function Suffixed(base: string, suffix: nat): string { base + "-" + Decimal(suffix) }

  lemma SuffixedInjective(base: string, m: nat, n: nat)
    requires Suffixed(base, m) == Suffixed(base, n)
    ensures m == n
  {
    hide Decimal;
    assert Suffixed(base, m)[|base| + 1..] == Decimal(m);
    assert Suffixed(base, n)[|base| + 1..] == Decimal(n);
    DecimalInjective(m, n);
  }

  // The names already taken that the search may still meet.
  ghost function Ahead(base: string, suffix: nat, names: set<string>): set<string> {
    set n | n in names && exists s: nat :: s >= suffix && n == Suffixed(base, s)
  }

  lemma AheadShrinks(base: string, suffix: nat, names: set<string>)
    requires Suffixed(base, suffix) in names
    ensures |Ahead(base, suffix + 1, names)| < |Ahead(base, suffix, names)|
  {
    var name := Suffixed(base, suffix);
    var now, later := Ahead(base, suffix, names), Ahead(base, suffix + 1, names);
    assert name in now;
    if name in later {
      var s: nat :| s >= suffix + 1 && name == Suffixed(base, s);
      SuffixedInjective(base, suffix, s);
      assert false;
    }
    assert later <= now - {name};
    SubsetSize(later, now - {name});
  }

  lemma {:induction false} SubsetSize<T>(a: set<T>, b: set<T>)
    requires a <= b
    ensures |a| <= |b|
    decreases a
  {
    if a != {} {
      var x :| x in a;
      SubsetSize(a - {x}, b - {x});
    }
  }

  // The first suffix, counting from `suffix`, whose name is free.
  function FreeSuffix(base: string, suffix: nat, names: set<string>): (s: nat)
    ensures s >= suffix && Suffixed(base, s) !in names
    ensures s <= suffix + |Ahead(base, suffix, names)|
    ensures forall k :: suffix <= k < s ==> Suffixed(base, k) in names
    decreases |Ahead(base, suffix, names)|
  {
    if Suffixed(base, suffix) in names then
      AheadShrinks(base, suffix, names);
      FreeSuffix(base, suffix + 1, names)
    else suffix
  }

  ghost predicate FirstFree(base: string, suffix: nat, s: nat, names: set<string>) {
    s >= suffix && Suffixed(base, s) !in names && forall k :: suffix <= k < s ==> Suffixed(base, k) in names
  }

  function RuleName(f: Forwarding, candidateId: nat, names: set<string>): (name: string)
    ensures name !in names
  {
    if BaseName(f) !in names then BaseName(f)
    else Suffixed(BaseName(f), FreeSuffix(BaseName(f), candidateId, names))
  }

  /** The search for a free name ends, and its result is then taken. */
  method ImportRuleName(f: Forwarding, candidateId: nat, names: set<string>) returns (name: string, taken: set<string>)
    ensures name == RuleName(f, candidateId, names)
    ensures name !in names
    ensures name != BaseName(f) ==>
      && BaseName(f) in names
      && exists s: nat :: FirstFree(BaseName(f), candidateId, s, names) && name == Suffixed(BaseName(f), s)
    ensures taken == names + {name}
  {
    hide BaseName, Suffixed, Ahead;
    var base := BaseName(f);
    name := base;
    var suffix := candidateId;
    while name in names
      invariant if suffix == candidateId then name == base
                else base in names && candidateId < suffix && name == Suffixed(base, suffix - 1)
      invariant suffix > candidateId ==> FreeSuffix(base, candidateId, names) == FreeSuffix(base, suffix - 1, names)
      decreases
        name == base && suffix == candidateId,
        |Ahead(base, if suffix > candidateId then suffix - 1 else 0, names)|
    {
      if suffix > candidateId { AheadShrinks(base, suffix - 1, names); }
      name := Suffixed(base, suffix);
      suffix := suffix + 1;
    }
    if base in names { assert FirstFree(base, candidateId, FreeSuffix(base, candidateId, names), names); }
    taken := names + {name};
  }

  // ----- every name the search can produce is a valid rule name

  predicate NameCharacter(c: char) { IsDigit(c) || 'a' <= c <= 'z' || c == '-' }

  predicate NameCharacters(s: string) { forall c :: c in s ==> NameCharacter(c) }

  lemma NameCharacterIsVisible(c: char)
    requires NameCharacter(c)
    ensures !IsControl(c) && !IsWhitespace(c)
  {
  }

  lemma PlainNameIsValid(name: string)
    requires name != "" && |name| <= 128 && NameCharacters(name)
    ensures NameError(name).None?
  {
    hide IsControl, IsWhitespace, NameCharacter, Trim;
    forall c | c in name ensures !IsControl(c) && !IsWhitespace(c) { NameCharacterIsVisible(c); }
    assert name[0] in name && name[|name| - 1] in name;
    TrimIsIdentity(name);
  }

  lemma DecimalCharacters(n: nat)
    ensures NameCharacters(Decimal(n))
  {
    hide Decimal;
  }

  lemma KindCharacters(f: Forwarding)
    ensures NameCharacters(KindWord(f)) && NameCharacters("import-") && |KindWord(f)| <= 7
  {
  }

  lemma BaseNameIsPlain(f: Forwarding)
    ensures NameCharacters(BaseName(f)) && 0 < |BaseName(f)| <= 20
  {
    hide Decimal, KindWord;
    KindCharacters(f);
    DecimalCharacters(f.bindPort);
    assert Power10(5) == 100_000;
    DecimalLength(f.bindPort, 5);
  }

  // Candidates and rules are counted by a machine word.
  const WORD: nat := 0x1_0000_0000_0000_0000

  lemma SmallSuffix(s: nat)
    requires s < WORD
    ensures |Decimal(s)| <= 20
  {
    hide Decimal;
    assert Power10(10) == 10_000_000_000;
    assert Power10(20) == 100_000_000_000_000_000_000;
    DecimalLength(s, 20);
  }

  lemma RuleNameIsValid(f: Forwarding, candidateId: nat, names: set<string>)
    requires candidateId + |names| < WORD
    ensures NameError(RuleName(f, candidateId, names)).None?
  {
    hide BaseName, NameError, Decimal, FreeSuffix;
    BaseNameIsPlain(f);
    var base := BaseName(f);
    if base !in names {
      PlainNameIsValid(base);
    } else {
      var s := FreeSuffix(base, candidateId, names);
      SubsetSize(Ahead(base, candidateId, names), names);
      SmallSuffix(s);
      DecimalCharacters(s);
      PlainNameIsValid(Suffixed(base, s));
    }
  }

  // ----- building the selected rules

  datatype SelectError =
    | NothingSelected
    | NoSuchCandidate
    | CandidateUnavailable(id: nat)
    | NotBuilt(error: ValidationError)

  function BuildRule(id: RuleId, name: string, alias: string, f: Forwarding, autoStart: bool, reconnect: bool)
    : Result<Rule, ValidationError>
  {
    var base := match f
      case Local(_, port, host, hostPort) => NewLocal(id, name, alias, port, host, hostPort)
      case Remote(_, port, host, hostPort) => NewRemote(id, name, alias, port, host, hostPort)
      case Dynamic(_, port) => NewDynamic(id, name, alias, port);
    var rule :- base;
    var bound :- WithBindAddress(rule, f.bindAddress);
    Ok(WithPolicy(bound, autoStart, reconnect))
  }

  lemma ValidPartsBuild(id: RuleId, name: string, alias: string, f: Forwarding, autoStart: bool, reconnect: bool)
    requires NameError(name).None? && AliasError(alias).None? && ValidForwarding(f)
    ensures BuildRule(id, name, alias, f, autoStart, reconnect) == Ok(Rule(id, name, alias, f, autoStart, reconnect))
  {
    hide NameError, AliasError, BindAddressError, DestinationHostError;
  }

  // The settings all selected rules share; `ids` supplies the fresh rule ids.
  datatype Policy = Policy(autoStart: bool, reconnect: bool)

  datatype Built = Built(rules: seq<Rule>, names: set<string>)

  // Candidates `0..n` have been considered, in order.
  function BuildFirst(listing: Listing, selected: set<nat>, n: nat, taken: set<string>, policy: Policy,
                      ids: nat -> RuleId)
    : Result<Built, SelectError>
    requires n <= |listing.candidates|
  {
    if n == 0 then Ok(Built([], taken))
    else
      var before :- BuildFirst(listing, selected, n - 1, taken, policy, ids);
      var candidate := listing.candidates[n - 1];
      if n !in selected then Ok(before)
      else if !candidate.classification.Supported? || candidate.forwarding.None? then Err(CandidateUnavailable(n))
      else
        var f := candidate.forwarding.value;
        var name := RuleName(f, n, before.names);
        match BuildRule(ids(n), name, listing.alias, f, policy.autoStart, policy.reconnect)
        case Err(e) => Err(NotBuilt(e))
        case Ok(rule) => Ok(Built(before.rules + [rule], before.names + {name}))
  }

  function NamesOf(rules: seq<Rule>): set<string> { set r | r in rules :: r.name }

  function BuildSelected(listing: Listing, selected: set<nat>, existing: seq<Rule>, policy: Policy, ids: nat -> RuleId)
    : Result<seq<Rule>, SelectError>
  {
    if selected == {} || 0 in selected then Err(NothingSelected)
    else if exists id :: id in selected && id > |listing.candidates| then Err(NoSuchCandidate)
    else
      var built :- BuildFirst(listing, selected, |listing.candidates|, NamesOf(existing), policy, ids);
      Ok(built.rules)
  }

  method SelectedRules(listing: Listing, selected: set<nat>, existing: seq<Rule>, policy: Policy, ids: nat -> RuleId)
    returns (r: Result<seq<Rule>, SelectError>)
    ensures r == BuildSelected(listing, selected, existing, policy, ids)
  {
    hide BuildRule, RuleName;
    if selected == {} || 0 in selected { return Err(NothingSelected); }
    if exists id :: id in selected && id > |listing.candidates| { return Err(NoSuchCandidate); }
    ghost var n := |listing.candidates|;
    var names, rules := NamesOf(existing), [];
    for index := 0 to |listing.candidates|
      invariant BuildFirst(listing, selected, index, NamesOf(existing), policy, ids) == Ok(Built(rules, names))
    {
      var candidate, candidateId := listing.candidates[index], index + 1;
      if candidateId !in selected { continue; }
      if !candidate.classification.Supported? || candidate.forwarding.None? {
        ErrorStays(listing, selected, candidateId, n, NamesOf(existing), policy, ids);
        return Err(CandidateUnavailable(candidateId));
      }
      var name;
      name, names := ImportRuleName(candidate.forwarding.value, candidateId, names);
      var rule := BuildRule(
        ids(candidateId), name, listing.alias, candidate.forwarding.value, policy.autoStart, policy.reconnect);
      if rule.Err? {
        ErrorStays(listing, selected, candidateId, n, NamesOf(existing), policy, ids);
        return Err(NotBuilt(rule.error));
      }
      rules := rules + [rule.value];
    }
    r := Ok(rules);
  }

  lemma {:induction false} ErrorStays(listing: Listing, selected: set<nat>, m: nat, n: nat, taken: set<string>,
                                      policy: Policy, ids: nat -> RuleId)
    requires m <= n <= |listing.candidates| && BuildFirst(listing, selected, m, taken, policy, ids).Err?
    ensures BuildFirst(listing, selected, n, taken, policy, ids) == BuildFirst(listing, selected, m, taken, policy, ids)
    decreases n
  {
    hide BuildRule, RuleName;
    if m < n { ErrorStays(listing, selected, m, n - 1, taken, policy, ids); }
  }

  // ----- what a build from a preview gives

  // The rules built from the first `n` candidates, and the candidate each comes from.
  ghost predicate BuiltFrom(listing: Listing, selected: set<nat>, n: nat, taken: set<string>, policy: Policy,
                            built: Built)
    requires n <= |listing.candidates|
  {
    && (forall r :: r in built.rules ==> r.alias == listing.alias && r.name !in taken && ValidRule(r))
    && (forall i, j :: 0 <= i < j < |built.rules| ==> built.rules[i].name != built.rules[j].name)
    && built.names == taken + NamesOf(built.rules)
    && |built.rules| == |ChosenBelow(selected, n)|
    && (forall k :: 0 <= k < |built.rules| ==>
          && ChosenBelow(selected, n)[k] < n
          && listing.candidates[ChosenBelow(selected, n)[k]].forwarding == Some(built.rules[k].forwarding)
          && built.rules[k].autoStart == policy.autoStart && built.rules[k].reconnect == policy.reconnect)
  }

  // The selected candidates among the first `n`, by index from 0, ascending.
  function ChosenBelow(selected: set<nat>, n: nat): (chosen: seq<nat>)
    ensures forall k :: 0 <= k < |chosen| ==> chosen[k] < n && chosen[k] + 1 in selected
    ensures forall i, j :: 0 <= i < j < |chosen| ==> chosen[i] < chosen[j]
    ensures forall i: nat :: i < n && i + 1 in selected ==> i in chosen
    ensures |chosen| <= n
  {
    if n == 0 then [] else ChosenBelow(selected, n - 1) + if n in selected then [n - 1] else []
  }

  ghost predicate AllSupported(listing: Listing, selected: set<nat>) {
    forall id :: id in selected ==>
      0 < id <= |listing.candidates| && listing.candidates[id - 1].classification.Supported?
  }

  ghost predicate ValidCandidates(listing: Listing) {
    && AliasError(listing.alias).None?
    && forall c :: c in listing.candidates && c.classification.Supported? ==>
         c.forwarding.Some? && ValidForwarding(c.forwarding.value)
  }

  lemma NamesGrow(rules: seq<Rule>, rule: Rule)
    ensures NamesOf(rules + [rule]) == NamesOf(rules) + {rule.name}
  {
  }

  lemma {:induction false} NamesCount(rules: seq<Rule>)
    ensures |NamesOf(rules)| <= |rules|
  {
    if rules != [] {
      var n := |rules| - 1;
      assert rules == rules[..n] + [rules[n]];
      NamesGrow(rules[..n], rules[n]);
      NamesCount(rules[..n]);
    }
  }

  lemma NamesCountTogether(taken: set<string>, rules: seq<Rule>)
    ensures |taken + NamesOf(rules)| <= |taken| + |rules|
  {
    NamesCount(rules);
  }

  lemma OneMoreRule(
    listing: Listing, selected: set<nat>, n: nat, taken: set<string>, policy: Policy, before: Built, rule: Rule)
    requires 0 < n <= |listing.candidates| && n in selected
    requires BuiltFrom(listing, selected, n - 1, taken, policy, before)
    requires rule.alias == listing.alias && rule.name !in before.names && ValidRule(rule)
    requires listing.candidates[n - 1].forwarding == Some(rule.forwarding)
    requires rule.autoStart == policy.autoStart && rule.reconnect == policy.reconnect
    ensures BuiltFrom(listing, selected, n, taken, policy, Built(before.rules + [rule], before.names + {rule.name}))
  {
    hide ValidRule;
    var after := before.rules + [rule];
    var chosen, more := ChosenBelow(selected, n - 1), ChosenBelow(selected, n);
    assert more == chosen + [n - 1];
    hide ChosenBelow;
    NamesGrow(before.rules, rule);
    forall r | r in before.rules ensures r.name in before.names { assert r.name in NamesOf(before.rules); }
    forall i, j | 0 <= i < j < |after| ensures after[i].name != after[j].name {
      if j == |before.rules| { assert before.rules[i] in before.rules; }
    }
    forall k | 0 <= k < |after|
      ensures more[k] < n && listing.candidates[more[k]].forwarding == Some(after[k].forwarding)
    {
      if k < |chosen| { assert more[k] == chosen[k]; }
    }
  }

  lemma SkippedCandidate(listing: Listing, selected: set<nat>, n: nat, taken: set<string>, policy: Policy,
                         before: Built)
    requires 0 < n <= |listing.candidates| && n !in selected
    requires BuiltFrom(listing, selected, n - 1, taken, policy, before)
    ensures BuiltFrom(listing, selected, n, taken, policy, before)
  {
    hide ValidRule;
    assert ChosenBelow(selected, n) == ChosenBelow(selected, n - 1);
  }

  lemma BuildUnfolds(
    listing: Listing, selected: set<nat>, n: nat, taken: set<string>, policy: Policy, ids: nat -> RuleId,
    before: Built, rule: Rule)
    requires 0 < n <= |listing.candidates| && n in selected
    requires BuildFirst(listing, selected, n - 1, taken, policy, ids) == Ok(before)
    requires var candidate := listing.candidates[n - 1];
      && candidate.classification.Supported? && candidate.forwarding == Some(rule.forwarding)
      && rule.name == RuleName(rule.forwarding, n, before.names)
      && BuildRule(ids(n), rule.name, listing.alias, rule.forwarding, policy.autoStart, policy.reconnect) == Ok(rule)
    ensures BuildFirst(listing, selected, n, taken, policy, ids) ==
            Ok(Built(before.rules + [rule], before.names + {rule.name}))
  {
    hide RuleName, BuildRule;
  }

  lemma BuiltRuleIsValid(f: Forwarding, n: nat, names: set<string>, alias: string, id: RuleId, policy: Policy)
    requires n + |names| < WORD && AliasError(alias).None? && ValidForwarding(f)
    ensures var rule := Rule(id, RuleName(f, n, names), alias, f, policy.autoStart, policy.reconnect);
      ValidRule(rule) && BuildRule(id, rule.name, alias, f, policy.autoStart, policy.reconnect) == Ok(rule)
  {
    hide RuleName, NameError, AliasError, ValidForwarding, BuildRule;
    RuleNameIsValid(f, n, names);
    ValidPartsBuild(id, RuleName(f, n, names), alias, f, policy.autoStart, policy.reconnect);
  }

  lemma NextIsBuilt(
    listing: Listing, selected: set<nat>, n: nat, taken: set<string>, policy: Policy, ids: nat -> RuleId, before: Built)
    requires 0 < n <= |listing.candidates| && n in selected
    requires AllSupported(listing, selected) && ValidCandidates(listing)
    requires 2 * |listing.candidates| + |taken| < WORD
    requires BuildFirst(listing, selected, n - 1, taken, policy, ids) == Ok(before)
    requires BuiltFrom(listing, selected, n - 1, taken, policy, before)
    ensures BuildFirst(listing, selected, n, taken, policy, ids).Ok?
    ensures BuiltFrom(listing, selected, n, taken, policy, BuildFirst(listing, selected, n, taken, policy, ids).value)
  {
    hide RuleName, NameError, AliasError, ValidForwarding, ValidRule, BuildRule, BuiltFrom, BuildFirst, ChosenBelow;
    var candidate := listing.candidates[n - 1];
    assert candidate in listing.candidates && candidate.classification.Supported?;
    var f := candidate.forwarding.value;
    FewNames(listing, selected, n - 1, taken, policy, before);
    BuiltRuleIsValid(f, n, before.names, listing.alias, ids(n), policy);
    var rule := Rule(ids(n), RuleName(f, n, before.names), listing.alias, f, policy.autoStart, policy.reconnect);
    BuildUnfolds(listing, selected, n, taken, policy, ids, before, rule);
    OneMoreRule(listing, selected, n, taken, policy, before, rule);
  }

  /** A selection of supported candidates builds, whatever names are taken. */
  lemma {:induction false} SupportedSelectionBuilds(
    listing: Listing, selected: set<nat>, n: nat, taken: set<string>, policy: Policy, ids: nat -> RuleId)
    requires n <= |listing.candidates| && AllSupported(listing, selected) && ValidCandidates(listing)
    requires 2 * |listing.candidates| + |taken| < WORD
    ensures BuildFirst(listing, selected, n, taken, policy, ids).Ok?
    ensures BuiltFrom(listing, selected, n, taken, policy, BuildFirst(listing, selected, n, taken, policy, ids).value)
    decreases n
  {
    hide RuleName, BuildRule, BuiltFrom, ChosenBelow, AllSupported, ValidCandidates;
    if n == 0 {
      NothingBuilt(listing, selected, taken, policy);
    } else {
      SupportedSelectionBuilds(listing, selected, n - 1, taken, policy, ids);
      var before := BuildFirst(listing, selected, n - 1, taken, policy, ids).value;
      if n in selected {
        NextIsBuilt(listing, selected, n, taken, policy, ids, before);
      } else {
        SkippedCandidate(listing, selected, n, taken, policy, before);
      }
    }
  }

  lemma FewNames(listing: Listing, selected: set<nat>, n: nat, taken: set<string>, policy: Policy, built: Built)
    requires n <= |listing.candidates| && BuiltFrom(listing, selected, n, taken, policy, built)
    ensures |built.names| <= |taken| + n
  {
    hide ValidRule;
    NamesCountTogether(taken, built.rules);
  }

  lemma NothingBuilt(listing: Listing, selected: set<nat>, taken: set<string>, policy: Policy)
    ensures BuiltFrom(listing, selected, 0, taken, policy, Built([], taken))
  {
  }

  // ----- the ids of the built rules, and the first error

  /** The k-th built rule has the id supplied for the candidate it comes from. */
  lemma {:induction false} IdsAreGiven(
    listing: Listing, selected: set<nat>, n: nat, taken: set<string>, policy: Policy, ids: nat -> RuleId)
    requires n <= |listing.candidates| && BuildFirst(listing, selected, n, taken, policy, ids).Ok?
    ensures var rules := BuildFirst(listing, selected, n, taken, policy, ids).value.rules;
      && |rules| == |ChosenBelow(selected, n)|
      && forall k :: 0 <= k < |rules| ==> rules[k].id == ids(ChosenBelow(selected, n)[k] + 1)
    decreases n
  {
    hide RuleName, NameError, AliasError, BindAddressError, DestinationHostError;
    if n > 0 { IdsAreGiven(listing, selected, n - 1, taken, policy, ids); }
  }

  lemma {:induction false} SameBelow(
    listing: Listing, selected: set<nat>, other: set<nat>, n: nat, taken: set<string>, policy: Policy,
    ids: nat -> RuleId)
    requires n <= |listing.candidates| && forall id :: 0 < id <= n ==> (id in selected <==> id in other)
    ensures BuildFirst(listing, selected, n, taken, policy, ids) == BuildFirst(listing, other, n, taken, policy, ids)
    decreases n
  {
    hide RuleName, BuildRule;
    if n > 0 { SameBelow(listing, selected, other, n - 1, taken, policy, ids); }
  }

  // The first selected candidate that is not supported.
  ghost predicate FirstUnavailable(listing: Listing, selected: set<nat>, id: nat) {
    && id in selected && 0 < id <= |listing.candidates| && !listing.candidates[id - 1].classification.Supported?
    && forall k :: k in selected && k < id ==> 0 < k && listing.candidates[k - 1].classification.Supported?
  }

  /** A selection that cannot be saved is answered by what is wrong with it first. */
  lemma SelectionAnswers(
    listing: Listing, selected: set<nat>, existing: seq<Rule>, policy: Policy, ids: nat -> RuleId, id: nat)
    requires ValidCandidates(listing) && 2 * |listing.candidates| + |NamesOf(existing)| < WORD
    ensures var r := BuildSelected(listing, selected, existing, policy, ids);
      && (r == Err(NothingSelected) <==> selected == {} || 0 in selected)
      && (r == Err(NoSuchCandidate) <==>
            selected != {} && 0 !in selected && exists k :: k in selected && k > |listing.candidates|)
      && ((forall k :: k in selected ==> 0 < k <= |listing.candidates|) && FirstUnavailable(listing, selected, id) ==>
            r == Err(CandidateUnavailable(id)))
  {
    hide BuildFirst, ValidCandidates;
    var n, taken := |listing.candidates|, NamesOf(existing);
    OnlyBuildErrors(listing, selected, n, taken, policy, ids);
    if (forall k :: k in selected ==> 0 < k <= n) && FirstUnavailable(listing, selected, id) {
      UnavailableIsReported(listing, selected, taken, policy, ids, id);
    }
  }

  lemma {:induction false} OnlyBuildErrors(
    listing: Listing, selected: set<nat>, n: nat, taken: set<string>, policy: Policy, ids: nat -> RuleId)
    requires n <= |listing.candidates|
    ensures var r := BuildFirst(listing, selected, n, taken, policy, ids);
      r.Err? ==> r.error.CandidateUnavailable? || r.error.NotBuilt?
    decreases n
  {
    hide RuleName, BuildRule;
    if n > 0 { OnlyBuildErrors(listing, selected, n - 1, taken, policy, ids); }
  }

  lemma UnavailableIsReported(
    listing: Listing, selected: set<nat>, taken: set<string>, policy: Policy, ids: nat -> RuleId, id: nat)
    requires ValidCandidates(listing) && 2 * |listing.candidates| + |taken| < WORD
    requires FirstUnavailable(listing, selected, id)
    ensures BuildFirst(listing, selected, |listing.candidates|, taken, policy, ids) == Err(CandidateUnavailable(id))
  {
    hide BuildFirst, BuiltFrom, ValidCandidates;
    var before := set k | k in selected && k < id;
    assert AllSupported(listing, before);
    hide AllSupported;
    SameBelow(listing, selected, before, id - 1, taken, policy, ids);
    SupportedSelectionBuilds(listing, before, id - 1, taken, policy, ids);
    UnavailableStops(listing, selected, id, taken, policy, ids);
    ErrorStays(listing, selected, id, |listing.candidates|, taken, policy, ids);
  }

  lemma UnavailableStops(
    listing: Listing, selected: set<nat>, n: nat, taken: set<string>, policy: Policy, ids: nat -> RuleId)
    requires 0 < n <= |listing.candidates| && n in selected && !listing.candidates[n - 1].classification.Supported?
    requires BuildFirst(listing, selected, n - 1, taken, policy, ids).Ok?
    ensures BuildFirst(listing, selected, n, taken, policy, ids) == Err(CandidateUnavailable(n))
  {
    hide RuleName, BuildRule;
  }
}
