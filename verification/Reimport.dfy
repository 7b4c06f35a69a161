/** Saving a selection of the previewed forwardings, and previewing again. */
module Reimport {
  import opened Wrappers
  import opened Text
  import opened Rules
  import opened Endpoints
  import opened Import
  import opened Selection

  // The directives a preview classifies.
  function DirectivesOf(text: string): (ds: seq<Directive>)
    ensures WellParsed(ds)
  {
    Directives(Lines(text), LocalDefaultBind(text))
  }

  function ListingOf(alias: string, ds: seq<Directive>, existing: seq<Rule>, running: set<RuleId>): (l: Listing)
    ensures |l.candidates| == |ds|
  {
    Listing(alias, Scan(alias, ds, existing, running).candidates)
  }

  lemma CandidateMeans(alias: string, ds: seq<Directive>, existing: seq<Rule>, running: set<RuleId>, i: nat)
    requires i < |ds|
    ensures var c := ListingOf(alias, ds, existing, running).candidates[i];
      && (c.classification.Supported? <==> Importable(alias, ds, existing, i))
      && c.forwarding == if ds[i].parsed.Ok? then Some(ds[i].parsed.value) else None
  {
    hide Importable, Scan;
    ShownFaithfully(alias, ds, existing, running, i);
  }

  lemma ListedAreValid(alias: string, ds: seq<Directive>, existing: seq<Rule>, running: set<RuleId>)
    requires WellParsed(ds) && AliasError(alias).None?
    ensures ValidCandidates(ListingOf(alias, ds, existing, running))
  {
    hide Scan, ValidForwarding, AliasError, ListingOf;
    var listing := ListingOf(alias, ds, existing, running);
    assert listing.alias == alias by { ListingAlias(alias, ds, existing, running); }
    forall c | c in listing.candidates && c.classification.Supported?
      ensures c.forwarding.Some? && ValidForwarding(c.forwarding.value)
    {
      var i :| 0 <= i < |listing.candidates| && listing.candidates[i] == c;
      CandidateMeans(alias, ds, existing, running, i);
      assert ds[i] in ds;
    }
  }

  lemma ListingAlias(alias: string, ds: seq<Directive>, existing: seq<Rule>, running: set<RuleId>)
    ensures ListingOf(alias, ds, existing, running).alias == alias
  {
  }

  // ----- where saved rules come from

  predicate ComesFrom(ds: seq<Directive>, selected: set<nat>, rule: Rule, c: nat) {
    c < |ds| && c + 1 in selected && ds[c].parsed == Ok(rule.forwarding)
  }

  ghost predicate SavedFrom(alias: string, ds: seq<Directive>, existing: seq<Rule>, selected: set<nat>,
                            built: seq<Rule>)
  {
    && (forall r :: r in built ==> r.alias == alias && exists c: nat :: ComesFrom(ds, selected, r, c))
    && (forall c: nat :: c < |ds| && c + 1 in selected ==>
          Importable(alias, ds, existing, c) && exists r :: r in built && ds[c].parsed == Ok(r.forwarding))
  }

  lemma OriginOfRule(
    alias: string, ds: seq<Directive>, existing: seq<Rule>, running: set<RuleId>, selected: set<nat>,
    taken: set<string>, policy: Policy, built: Built, k: nat)
    requires WellParsed(ds)
    requires var listing := ListingOf(alias, ds, existing, running);
      AllSupported(listing, selected) && BuiltFrom(listing, selected, |ds|, taken, policy, built)
    requires k < |built.rules|
    ensures built.rules[k].alias == alias
    ensures exists c: nat :: ComesFrom(ds, selected, built.rules[k], c)
  {
    ListingAlias(alias, ds, existing, running);
    hide ValidRule, WellParsed, ListingOf;
    var c := ChosenBelow(selected, |ds|)[k];
    hide ChosenBelow;
    assert built.rules[k] in built.rules;
    CandidateMeans(alias, ds, existing, running, c);
    hide Importable;
    assert ComesFrom(ds, selected, built.rules[k], c);
  }

  lemma RuleOfCandidate(
    alias: string, ds: seq<Directive>, existing: seq<Rule>, running: set<RuleId>, selected: set<nat>,
    taken: set<string>, policy: Policy, built: Built, c: nat)
    requires WellParsed(ds)
    requires var listing := ListingOf(alias, ds, existing, running);
      AllSupported(listing, selected) && BuiltFrom(listing, selected, |ds|, taken, policy, built)
    requires c < |ds| && c + 1 in selected
    ensures Importable(alias, ds, existing, c)
    ensures exists r :: r in built.rules && ds[c].parsed == Ok(r.forwarding)
  {
    hide ValidRule, WellParsed, ListingOf, Importable;
    var chosen := ChosenBelow(selected, |ds|);
    assert c in chosen;
    hide ChosenBelow;
    var k :| 0 <= k < |chosen| && chosen[k] == c;
    var listing := ListingOf(alias, ds, existing, running);
    assert listing.candidates[c + 1 - 1].classification.Supported?;
    CandidateMeans(alias, ds, existing, running, c);
    assert listing.candidates[chosen[k]].forwarding == Some(built.rules[k].forwarding);
    assert built.rules[k] in built.rules && ds[c].parsed == Ok(built.rules[k].forwarding);
  }

  lemma BuiltIsSavedFrom(
    alias: string, ds: seq<Directive>, existing: seq<Rule>, running: set<RuleId>, selected: set<nat>,
    taken: set<string>, policy: Policy, built: Built)
    requires WellParsed(ds)
    requires var listing := ListingOf(alias, ds, existing, running);
      AllSupported(listing, selected) && BuiltFrom(listing, selected, |ds|, taken, policy, built)
    ensures SavedFrom(alias, ds, existing, selected, built.rules)
  {
    hide WellParsed, AllSupported, BuiltFrom, ListingOf, Importable, ComesFrom;
    forall r | r in built.rules ensures r.alias == alias && exists c: nat :: ComesFrom(ds, selected, r, c) {
      var k :| 0 <= k < |built.rules| && built.rules[k] == r;
      OriginOfRule(alias, ds, existing, running, selected, taken, policy, built, k);
    }
    forall c: nat | c < |ds| && c + 1 in selected
      ensures Importable(alias, ds, existing, c) && exists r :: r in built.rules && ds[c].parsed == Ok(r.forwarding)
    {
      RuleOfCandidate(alias, ds, existing, running, selected, taken, policy, built, c);
    }
  }

  // ----- the second preview

  lemma ImportableApart(alias: string, ds: seq<Directive>, existing: seq<Rule>, i: nat, c: nat)
    requires i < |ds| && c < |ds| && i != c
    requires Importable(alias, ds, existing, i) && Importable(alias, ds, existing, c)
    ensures ds[i].parsed != ds[c].parsed && !ForwardsConflict(ds[i].parsed.value, ds[c].parsed.value)
  {
    hide ForwardsConflict, DuplicatesRule, ConflictsWithRule;
    ForwardsConflictSymmetric(ds[i].parsed.value, ds[c].parsed.value);
    assert !RepeatsEarlier(ds, i) && !RepeatsEarlier(ds, c);
  }

  lemma ConflictsAsDirective(alias: string, ds: seq<Directive>, selected: set<nat>, i: nat, r: Rule, c: nat)
    requires WellParsed(ds) && i < |ds| && ds[i].parsed.Ok? && r.alias == alias && ComesFrom(ds, selected, r, c)
    ensures ConflictsWithRule(alias, ds[i].parsed.value, r) ==
            ForwardsConflict(ds[i].parsed.value, ds[c].parsed.value)
  {
    hide ForwardsConflict, ConflictsWithRule, ValidForwarding;
    assert ds[i] in ds && ds[c] in ds;
    SavedConflictsAlike(alias, ds[i].parsed.value, r);
  }

  lemma StillImportable(
    alias: string, ds: seq<Directive>, existing: seq<Rule>, selected: set<nat>, built: seq<Rule>, i: nat)
    requires WellParsed(ds) && SavedFrom(alias, ds, existing, selected, built)
    requires i < |ds| && Importable(alias, ds, existing, i) && i + 1 !in selected
    requires forall j: nat :: j < i && Importable(alias, ds, existing + built, j) ==> Importable(alias, ds, existing, j)
    ensures Importable(alias, ds, existing + built, i)
  {
    hide ForwardsConflict, ConflictsWithRule, ValidForwarding;
    var f := ds[i].parsed.value;
    forall r | r in existing + built ensures !DuplicatesRule(alias, f, r) && !ConflictsWithRule(alias, f, r) {
      if r !in existing {
        var c: nat :| ComesFrom(ds, selected, r, c);
        ImportableApart(alias, ds, existing, i, c);
        ConflictsAsDirective(alias, ds, selected, i, r, c);
      }
    }
    forall j | 0 <= j < i && Importable(alias, ds, existing + built, j)
      ensures !ForwardsConflict(f, ds[j].parsed.value)
    {
      ImportableApart(alias, ds, existing, i, j);
    }
  }

  lemma WasImportable(
    alias: string, ds: seq<Directive>, existing: seq<Rule>, selected: set<nat>, built: seq<Rule>, i: nat)
    requires WellParsed(ds) && SavedFrom(alias, ds, existing, selected, built)
    requires i < |ds| && Importable(alias, ds, existing + built, i)
    requires forall j: nat :: j < i && Importable(alias, ds, existing, j) && j + 1 !in selected ==>
               Importable(alias, ds, existing + built, j)
    ensures Importable(alias, ds, existing, i) && i + 1 !in selected
  {
    hide ForwardsConflict, ConflictsWithRule, ValidForwarding;
    var f := ds[i].parsed.value;
    assert forall r :: r in existing ==> r in existing + built;
    assert forall r :: r in built ==> r in existing + built;
    assert i + 1 in selected ==> exists r :: r in built && DuplicatesRule(alias, f, r);
    forall j | 0 <= j < i && Importable(alias, ds, existing, j) ensures !ForwardsConflict(f, ds[j].parsed.value) {
      if j + 1 in selected {
        var r :| r in built && ds[j].parsed == Ok(r.forwarding);
        assert ComesFrom(ds, selected, r, j);
        ConflictsAsDirective(alias, ds, selected, i, r, j);
      }
    }
  }

  lemma {:induction false} ImportableAgain(
    alias: string, ds: seq<Directive>, existing: seq<Rule>, selected: set<nat>, built: seq<Rule>, i: nat)
    requires WellParsed(ds) && SavedFrom(alias, ds, existing, selected, built) && i < |ds|
    ensures Importable(alias, ds, existing + built, i) <==> Importable(alias, ds, existing, i) && i + 1 !in selected
    decreases i
  {
    hide Importable, SavedFrom, WellParsed;
    forall j: nat | j < i
      ensures Importable(alias, ds, existing + built, j) <==> Importable(alias, ds, existing, j) && j + 1 !in selected
    {
      ImportableAgain(alias, ds, existing, selected, built, j);
    }
    if Importable(alias, ds, existing, i) && i + 1 !in selected {
      StillImportable(alias, ds, existing, selected, built, i);
    }
    if Importable(alias, ds, existing + built, i) {
      WasImportable(alias, ds, existing, selected, built, i);
    }
  }

  // ----- the saved rules are compatible

  lemma BuiltClashesWithNone(
    alias: string, ds: seq<Directive>, existing: seq<Rule>, selected: set<nat>, built: seq<Rule>, b: Rule, r: Rule)
    requires WellParsed(ds) && SavedFrom(alias, ds, existing, selected, built) && b in built && r in existing
    ensures !ListenersClash(b, r)
  {
    hide BindAddressesOverlap, BindAddressError, DestinationHostError, ForwardsConflict;
    var c: nat :| ComesFrom(ds, selected, b, c);
    assert ds[c] in ds;
    assert !ConflictsWithRule(alias, b.forwarding, r);
  }

  lemma BuiltClashApart(
    alias: string, ds: seq<Directive>, existing: seq<Rule>, selected: set<nat>, built: seq<Rule>,
    a: Rule, b: Rule, c: nat, d: nat)
    requires WellParsed(ds) && SavedFrom(alias, ds, existing, selected, built)
    requires ComesFrom(ds, selected, a, c) && ComesFrom(ds, selected, b, d) && c != d
    ensures !ListenersClash(a, b)
  {
    assert Importable(alias, ds, existing, c) && Importable(alias, ds, existing, d);
    ImportableApart(alias, ds, existing, c, d);
    assert ds[c] in ds && ds[d] in ds;
    hide BindAddressesOverlap, BindAddressError, DestinationHostError, Importable;
  }

  lemma BuiltIsCompatible(
    alias: string, ds: seq<Directive>, existing: seq<Rule>, running: set<RuleId>, selected: set<nat>,
    policy: Policy, built: Built)
    requires WellParsed(ds) && PairwiseCompatible(existing)
    requires var listing := ListingOf(alias, ds, existing, running);
      AllSupported(listing, selected) && BuiltFrom(listing, selected, |ds|, NamesOf(existing), policy, built)
    ensures PairwiseCompatible(existing + built.rules)
  {
    hide ListenersClash, Importable, Scan, ValidRule, ValidForwarding, ListingOf, SavedFrom, WellParsed, BuiltFrom;
    BuiltIsSavedFrom(alias, ds, existing, running, selected, NamesOf(existing), policy, built);
    var n := |existing|;
    var all := existing + built.rules;
    forall i, j | 0 <= i < j < |all| ensures Compatible(all[j], all[i]) {
      if j < n {
        assert Compatible(existing[j], existing[i]);
      } else if i < n {
        NewMeetsOld(alias, ds, existing, running, selected, policy, built, j - n, i);
      } else {
        NewMeetsNew(alias, ds, existing, running, selected, policy, built, i - n, j - n);
      }
    }
  }

  lemma NewMeetsOld(
    alias: string, ds: seq<Directive>, existing: seq<Rule>, running: set<RuleId>, selected: set<nat>,
    policy: Policy, built: Built, k: nat, e: nat)
    requires WellParsed(ds) && SavedFrom(alias, ds, existing, selected, built.rules)
    requires BuiltFrom(ListingOf(alias, ds, existing, running), selected, |ds|, NamesOf(existing), policy, built)
    requires k < |built.rules| && e < |existing|
    ensures Compatible(built.rules[k], existing[e])
  {
    hide ListenersClash, ValidRule, ListingOf, SavedFrom, WellParsed;
    assert built.rules[k] in built.rules && existing[e].name in NamesOf(existing);
    BuiltClashesWithNone(alias, ds, existing, selected, built.rules, built.rules[k], existing[e]);
  }

  lemma NewMeetsNew(
    alias: string, ds: seq<Directive>, existing: seq<Rule>, running: set<RuleId>, selected: set<nat>,
    policy: Policy, built: Built, a: nat, b: nat)
    requires WellParsed(ds) && SavedFrom(alias, ds, existing, selected, built.rules)
    requires BuiltFrom(ListingOf(alias, ds, existing, running), selected, |ds|, NamesOf(existing), policy, built)
    requires a < b < |built.rules|
    ensures Compatible(built.rules[b], built.rules[a])
  {
    hide ListenersClash, ValidRule, ListingOf, SavedFrom, WellParsed, Importable;
    var chosen := ChosenBelow(selected, |ds|);
    hide ChosenBelow;
    CandidateMeans(alias, ds, existing, running, chosen[a]);
    CandidateMeans(alias, ds, existing, running, chosen[b]);
    BuiltClashApart(alias, ds, existing, selected, built.rules, built.rules[b], built.rules[a], chosen[b], chosen[a]);
  }

  // ----- main results

  lemma UnsupportedFails(
    listing: Listing, selected: set<nat>, id: nat, taken: set<string>, policy: Policy, ids: nat -> RuleId)
    requires id in selected && 0 < id <= |listing.candidates| && !listing.candidates[id - 1].classification.Supported?
    ensures BuildFirst(listing, selected, |listing.candidates|, taken, policy, ids).Err?
  {
    assert BuildFirst(listing, selected, id, taken, policy, ids).Err?;
    ErrorStays(listing, selected, id, |listing.candidates|, taken, policy, ids);
  }

  /** A selection can be saved exactly when it is a non-empty selection of supported candidates. */
  lemma SavesExactlySupported(
    alias: string, ds: seq<Directive>, existing: seq<Rule>, running: set<RuleId>, selected: set<nat>,
    policy: Policy, ids: nat -> RuleId)
    requires WellParsed(ds) && AliasError(alias).None? && 2 * |ds| + |existing| < WORD
    ensures var listing := ListingOf(alias, ds, existing, running);
      BuildSelected(listing, selected, existing, policy, ids).Ok? <==> selected != {} && AllSupported(listing, selected)
  {
    hide AliasError, WellParsed, BuildFirst, Scan, BuiltFrom;
    var listing := ListingOf(alias, ds, existing, running);
    ListedAreValid(alias, ds, existing, running);
    NamesCount(existing);
    if AllSupported(listing, selected) {
      SupportedSelectionBuilds(listing, selected, |listing.candidates|, NamesOf(existing), policy, ids);
    } else if BuildSelected(listing, selected, existing, policy, ids).Ok? {
      var id :|
        id in selected && !(0 < id <= |listing.candidates| && listing.candidates[id - 1].classification.Supported?);
      UnsupportedFails(listing, selected, id, NamesOf(existing), policy, ids);
    }
  }

  /** Existing rules and the saved ones pass the daemon's validation together. */
  lemma SavedRulesAreValid(
    alias: string, ds: seq<Directive>, existing: seq<Rule>, running: set<RuleId>, selected: set<nat>,
    policy: Policy, ids: nat -> RuleId)
    requires WellParsed(ds) && AliasError(alias).None? && 2 * |ds| + |existing| < WORD
    requires ValidRuleSet(existing)
    requires BuildSelected(ListingOf(alias, ds, existing, running), selected, existing, policy, ids).Ok?
    ensures var built := BuildSelected(ListingOf(alias, ds, existing, running), selected, existing, policy, ids).value;
      && (forall r :: r in built ==> ValidRule(r))
      && ValidRuleSet(existing + built)
  {
    hide AliasError, WellParsed, BuildFirst, Scan, ValidRule, Importable, RuleSetErrors, PairwiseCompatible, ListingOf;
    SavesExactlySupported(alias, ds, existing, running, selected, policy, ids);
    var listing := ListingOf(alias, ds, existing, running);
    ListedAreValid(alias, ds, existing, running);
    NamesCount(existing);
    SupportedSelectionBuilds(listing, selected, |listing.candidates|, NamesOf(existing), policy, ids);
    var built := BuildFirst(listing, selected, |ds|, NamesOf(existing), policy, ids).value;
    ValidRuleSetIsPairwise(existing);
    BuiltIsCompatible(alias, ds, existing, running, selected, policy, built);
    ValidRuleSetIsPairwise(existing + built.rules);
  }

  /**
   * Importing reaches a fixed point: after saving a selection, the same output shows as supported exactly
   * the candidates that were supported and not selected, at the same places.
   */
  lemma PreviewAgain(
    alias: string, text: string, existing: seq<Rule>, running: set<RuleId>, runningLater: set<RuleId>,
    selected: set<nat>, policy: Policy, ids: nat -> RuleId, i: nat)
    requires AliasError(alias).None? && 2 * |DirectivesOf(text)| + |existing| < WORD
    requires var listing := PreviewOf(alias, Some(text), existing, running).value;
      && BuildSelected(listing, selected, existing, policy, ids).Ok?
      && i < |listing.candidates|
    ensures var before := PreviewOf(alias, Some(text), existing, running).value;
      var built := BuildSelected(before, selected, existing, policy, ids).value;
      var after := PreviewOf(alias, Some(text), existing + built, runningLater).value;
      && |after.candidates| == |before.candidates|
      && after.candidates[i].forwarding == before.candidates[i].forwarding
      && (after.candidates[i].classification.Supported? <==>
            before.candidates[i].classification.Supported? && i + 1 !in selected)
  {
    hide AliasError, BuildFirst, Scan, Importable, Lines, LocalDefaultBind, Directives, WellParsed;
    var ds := DirectivesOf(text);
    var listing := ListingOf(alias, ds, existing, running);
    SavesExactlySupported(alias, ds, existing, running, selected, policy, ids);
    ListedAreValid(alias, ds, existing, running);
    NamesCount(existing);
    SupportedSelectionBuilds(listing, selected, |listing.candidates|, NamesOf(existing), policy, ids);
    var built := BuildFirst(listing, selected, |ds|, NamesOf(existing), policy, ids).value;
    BuiltIsSavedFrom(alias, ds, existing, running, selected, NamesOf(existing), policy, built);
    ImportableAgain(alias, ds, existing, selected, built.rules, i);
    CandidateMeans(alias, ds, existing, running, i);
    CandidateMeans(alias, ds, existing + built.rules, runningLater, i);
  }
}
