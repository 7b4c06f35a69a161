/** Preview of the forwardings a host's SSH configuration asks for, and saving a selection of them. */
module Import {
  import opened Wrappers
  import opened Text
  import opened Rules
  import opened Endpoints

  datatype Classification =
    | Supported
    | DuplicateDirective(firstIndex: nat)
    | DuplicateRule(ruleId: RuleId, running: bool)
    | Conflict(clashingId: Option<RuleId>, clashingRuns: bool)
    | UnsupportedDirective(unsupported: UnsupportedReason)
    | InvalidDirective(invalid: InvalidReason)

  datatype Candidate = Candidate(kind: DirectiveKind, forwarding: Option<Forwarding>, classification: Classification)
  datatype Listing = Listing(alias: string, candidates: seq<Candidate>)

  // ----- conflicts

  function ListenerOf(f: Forwarding): Option<Listener> {
    if BindAddressError(f.bindAddress).None? then Some(Listener(f.bindAddress, f.bindPort)) else None
  }

  predicate ListenersConflict(left: Forwarding, right: Forwarding) {
    var l, r := ListenerOf(left), ListenerOf(right);
    l.Some? && r.Some? && l.value.port == r.value.port && BindAddressesOverlap(l.value.address, r.value.address)
  }

  predicate ForwardsConflict(left: Forwarding, right: Forwarding) {
    left.Remote? == right.Remote? && ListenersConflict(left, right)
  }

  predicate ConflictsWithRule(alias: string, f: Forwarding, rule: Rule) {
    if f.Remote? then
      && rule.alias == alias && rule.forwarding.Remote? && rule.forwarding.bindPort == f.bindPort
      && BindAddressError(f.bindAddress).None? && BindAddressesOverlap(f.bindAddress, rule.forwarding.bindAddress)
    else
      && LocalListener(rule).Some? && ListenerOf(f).Some?
      && ListenerOf(f).value.port == LocalListener(rule).value.port
      && BindAddressesOverlap(ListenerOf(f).value.address, LocalListener(rule).value.address)
  }

  predicate DuplicatesRule(alias: string, f: Forwarding, rule: Rule) {
    rule.alias == alias && rule.forwarding == f
  }

  lemma ForwardsConflictSymmetric(f: Forwarding, g: Forwarding)
    ensures ForwardsConflict(f, g) == ForwardsConflict(g, f)
  {
    OverlapSymmetric(f.bindAddress, g.bindAddress);
  }

  /** A directive conflicts with a saved directive exactly as it conflicted with the directive itself. */
  lemma SavedConflictsAlike(alias: string, f: Forwarding, rule: Rule)
    requires ValidForwarding(f) && ValidForwarding(rule.forwarding) && rule.alias == alias
    ensures ConflictsWithRule(alias, f, rule) == ForwardsConflict(f, rule.forwarding)
  {
    hide BindAddressesOverlap, BindAddressError, DestinationHostError;
  }

  /** A forwarding and a rule clash if they would listen at one place: here, or at the same server. */
  lemma RuleConflictMeans(alias: string, f: Forwarding, rule: Rule)
    requires ValidForwarding(f) && ValidForwarding(rule.forwarding)
    ensures ConflictsWithRule(alias, f, rule) <==>
            && (f.Remote? <==> rule.forwarding.Remote?) && (f.Remote? ==> rule.alias == alias)
            && f.bindPort == rule.forwarding.bindPort
            && BindAddressesOverlap(f.bindAddress, rule.forwarding.bindAddress)
  {
    hide BindAddressesOverlap, BindAddressError, DestinationHostError;
  }

  // ----- the one-pass classifier

  datatype Progress = Progress(seen: map<Forwarding, nat>, accepted: seq<Forwarding>, candidates: seq<Candidate>)

  ghost predicate FirstAt(rules: seq<Rule>, matching: Rule -> bool, k: nat) {
    k < |rules| && matching(rules[k]) && forall j :: 0 <= j < k ==> !matching(rules[j])
  }

  function FirstRule(rules: seq<Rule>, matching: Rule -> bool): (r: Option<Rule>)
    ensures r.Some? ==> exists k: nat :: FirstAt(rules, matching, k) && r.value == rules[k]
    ensures r.Some? ==> r.value in rules && matching(r.value)
    ensures r.None? <==> forall x :: x in rules ==> !matching(x)
  {
    if rules == [] then None
    else if matching(rules[0]) then
      assert FirstAt(rules, matching, 0);
      Some(rules[0])
    else
      var r := FirstRule(rules[1..], matching);
      assert r.Some? ==> exists k: nat :: FirstAt(rules, matching, k) && r.value == rules[k] by {
        if r.Some? {
          var k: nat :| FirstAt(rules[1..], matching, k) && r.value == rules[1..][k];
          assert FirstAt(rules, matching, k + 1);
        }
      }
      r
  }

  function Classify(alias: string, f: Forwarding, p: Progress, existing: seq<Rule>,
                    running: set<RuleId>): Classification
  {
    if f in p.seen then DuplicateDirective(p.seen[f])
    else
      var duplicate := FirstRule(existing, (r: Rule) => DuplicatesRule(alias, f, r));
      if duplicate.Some? then DuplicateRule(duplicate.value.id, duplicate.value.id in running)
      else if exists other :: other in p.accepted && ForwardsConflict(f, other) then Conflict(None, false)
      else
        var clash := FirstRule(existing, (r: Rule) => ConflictsWithRule(alias, f, r));
        if clash.Some? then Conflict(Some(clash.value.id), clash.value.id in running) else Supported
  }

  function Advance(alias: string, d: Directive, p: Progress, existing: seq<Rule>, running: set<RuleId>): Progress {
    match d.parsed
    case Err(Unsupported(reason)) =>
      p.(candidates := p.candidates + [Candidate(d.kind, None, UnsupportedDirective(reason))])
    case Err(Invalid(reason)) =>
      p.(candidates := p.candidates + [Candidate(d.kind, None, InvalidDirective(reason))])
    case Ok(f) =>
      var c := Classify(alias, f, p, existing, running);
      Progress(
        if f in p.seen then p.seen else p.seen[f := |p.candidates|],
        if c.Supported? then p.accepted + [f] else p.accepted,
        p.candidates + [Candidate(d.kind, Some(f), c)])
  }

  function Scan(alias: string, ds: seq<Directive>, existing: seq<Rule>, running: set<RuleId>): (p: Progress)
    ensures |p.candidates| == |ds|
  {
    if ds == [] then Progress(map[], [], [])
    else Advance(alias, ds[|ds| - 1], Scan(alias, ds[..|ds| - 1], existing, running), existing, running)
  }

  lemma ScanExtends(alias: string, ds: seq<Directive>, d: Directive, existing: seq<Rule>, running: set<RuleId>)
    ensures Scan(alias, ds + [d], existing, running) ==
            Advance(alias, d, Scan(alias, ds, existing, running), existing, running)
  {
    hide Advance;
    assert (ds + [d])[..|ds|] == ds;
  }

  lemma DirectivesExtend(lines: seq<string>, i: nat, defaultBind: string)
    requires i < |lines| && BindAddressError(defaultBind).None?
    ensures Directives(lines[..i + 1], defaultBind) ==
            match DirectiveOf(lines[i], defaultBind)
            case Some(d) => Directives(lines[..i], defaultBind) + [d]
            case None => Directives(lines[..i], defaultBind)
  {
    hide DirectiveOf, BindAddressError;
    assert lines[..i + 1][..i] == lines[..i];
  }

  lemma NoLines(defaultBind: string)
    requires BindAddressError(defaultBind).None?
    ensures Directives([], defaultBind) == []
  {
  }

  /** What the preview answers: the output is decoded (None if it is not UTF-8), then each line is classified. */
  function PreviewOf(alias: string, output: Option<string>, existing: seq<Rule>, running: set<RuleId>)
    : Result<Listing, InvalidReason>
  {
    if AliasError(alias).Some? then Err(Syntax)
    else
      match output
      case None => Err(NonUtf8Output)
      case Some(text) =>
        Ok(Listing(alias, Scan(alias, Directives(Lines(text), LocalDefaultBind(text)), existing, running).candidates))
  }

  method Preview(alias: string, output: Option<string>, existing: seq<Rule>, running: set<RuleId>)
    returns (listing: Result<Listing, InvalidReason>)
    ensures listing == PreviewOf(alias, output, existing, running)
  {
    hide Classify, DirectiveOf, Directives, Lines, LocalDefaultBind, AliasError, BindAddressError;
    if AliasError(alias).Some? { return Err(Syntax); }
    if output.None? { return Err(NonUtf8Output); }
    var text := output.value;
    var defaultBind := LocalDefaultBind(text);
    var seen: map<Forwarding, nat>, accepted: seq<Forwarding>, candidates: seq<Candidate> := map[], [], [];
    var lines := Lines(text);
    assert Directives(lines[..0], defaultBind) == [] by { NoLines(defaultBind); }
    assert Scan(alias, [], existing, running) == Progress(seen, accepted, candidates);
    hide Scan;
    for i := 0 to |lines|
      invariant Scan(alias, Directives(lines[..i], defaultBind), existing, running) ==
                Progress(seen, accepted, candidates)
    {
      DirectivesExtend(lines, i, defaultBind);
      var d := DirectiveOf(lines[i], defaultBind);
      if d.None? { continue; }
      ScanExtends(alias, Directives(lines[..i], defaultBind), d.value, existing, running);
      var forwarding, classification;
      match d.value.parsed {
        case Err(Unsupported(reason)) => forwarding, classification := None, UnsupportedDirective(reason);
        case Err(Invalid(reason)) => forwarding, classification := None, InvalidDirective(reason);
        case Ok(f) =>
          classification := Classify(alias, f, Progress(seen, accepted, candidates), existing, running);
          if classification.Supported? { accepted := accepted + [f]; }
          if f !in seen { seen := seen[f := |candidates|]; }
          forwarding := Some(f);
      }
      candidates := candidates + [Candidate(d.value.kind, forwarding, classification)];
    }
    assert lines[..|lines|] == lines;
    listing := Ok(Listing(alias, candidates));
  }

  // ----- what Supported means, without the one-pass bookkeeping

  predicate RepeatsEarlier(ds: seq<Directive>, i: nat)
    requires i < |ds| && ds[i].parsed.Ok?
  {
    exists j :: 0 <= j < i && ds[j].parsed == ds[i].parsed
  }

  /**
   * A directive can be imported if it parses, is the first of its kind, is not a rule already, and clashes
   * neither with an earlier importable directive nor with a rule.
   */
  predicate Importable(alias: string, ds: seq<Directive>, existing: seq<Rule>, i: nat)
    requires i < |ds|
    decreases i
  {
    && ds[i].parsed.Ok?
    && !RepeatsEarlier(ds, i)
    && (forall r :: r in existing ==> !DuplicatesRule(alias, ds[i].parsed.value, r))
    && (forall j :: 0 <= j < i && Importable(alias, ds, existing, j) ==>
          !ForwardsConflict(ds[i].parsed.value, ds[j].parsed.value))
    && (forall r :: r in existing ==> !ConflictsWithRule(alias, ds[i].parsed.value, r))
  }

  lemma {:induction false} ImportablePrefix(alias: string, ds: seq<Directive>, existing: seq<Rule>, n: nat, i: nat)
    requires i < n <= |ds|
    ensures Importable(alias, ds[..n], existing, i) == Importable(alias, ds, existing, i)
    decreases i
  {
    hide ForwardsConflict, ConflictsWithRule, DuplicatesRule;
    forall j | 0 <= j < i ensures Importable(alias, ds[..n], existing, j) == Importable(alias, ds, existing, j) {
      ImportablePrefix(alias, ds, existing, n, j);
    }
    assert forall j :: 0 <= j <= i ==> ds[..n][j] == ds[j];
    if ds[i].parsed.Ok? { assert RepeatsEarlier(ds[..n], i) == RepeatsEarlier(ds, i); }
  }

  predicate ParsedEarlier(ds: seq<Directive>, f: Forwarding) {
    exists j :: 0 <= j < |ds| && ds[j].parsed == Ok(f)
  }

  predicate ImportedEarlier(alias: string, ds: seq<Directive>, existing: seq<Rule>, f: Forwarding) {
    exists j: nat :: j < |ds| && Importable(alias, ds, existing, j) && ds[j].parsed.value == f
  }

  // What the loop's collections hold.
  ghost predicate Faithful(alias: string, ds: seq<Directive>, existing: seq<Rule>, p: Progress) {
    && (forall f :: f in p.seen <==> ParsedEarlier(ds, f))
    && (forall f :: f in p.accepted <==> ImportedEarlier(alias, ds, existing, f))
    && |p.candidates| == |ds|
    && forall i: nat :: i < |ds| ==> FaithfulAt(alias, ds, existing, p, i)
  }

  lemma ClassifiedFaithfully(alias: string, ds: seq<Directive>, existing: seq<Rule>, running: set<RuleId>, p: Progress)
    requires |ds| > 0 && Faithful(alias, ds[..|ds| - 1], existing, p) && ds[|ds| - 1].parsed.Ok?
    ensures Classify(alias, ds[|ds| - 1].parsed.value, p, existing, running).Supported? <==>
            Importable(alias, ds, existing, |ds| - 1)
  {
    hide ForwardsConflict, ConflictsWithRule, DuplicatesRule, FaithfulAt, ImportedEarlier;
    var n := |ds| - 1;
    var f := ds[n].parsed.value;
    assert RepeatsEarlier(ds, n) <==> ParsedEarlier(ds[..n], f);
    hide ParsedEarlier;
    AcceptedConflicts(alias, ds, existing, p.accepted, f);
  }

  lemma AcceptedConflicts(alias: string, ds: seq<Directive>, existing: seq<Rule>, accepted: seq<Forwarding>,
                          f: Forwarding)
    requires |ds| > 0
    requires forall g :: g in accepted <==> ImportedEarlier(alias, ds[..|ds| - 1], existing, g)
    ensures (exists other :: other in accepted && ForwardsConflict(f, other)) <==>
            (exists j ::
               0 <= j < |ds| - 1 && Importable(alias, ds, existing, j) && ForwardsConflict(f, ds[j].parsed.value))
  {
    hide ForwardsConflict, ConflictsWithRule, DuplicatesRule;
    var front := ds[..|ds| - 1];
    forall j: nat | j < |front| ensures Importable(alias, front, existing, j) == Importable(alias, ds, existing, j) {
      ImportablePrefix(alias, ds, existing, |front|, j);
    }
    assert forall j: nat :: j < |front| && Importable(alias, front, existing, j) ==> ds[j].parsed.Ok?;
    hide Importable;
    if j :| 0 <= j < |front| && Importable(alias, ds, existing, j) && ForwardsConflict(f, ds[j].parsed.value) {
      assert Importable(alias, front, existing, j) && front[j].parsed.value == ds[j].parsed.value;
      assert ds[j].parsed.value in accepted;
    }
    if other :| other in accepted && ForwardsConflict(f, other) {
      var j: nat :| j < |front| && Importable(alias, front, existing, j) && front[j].parsed.value == other;
      assert Importable(alias, ds, existing, j);
    }
  }

  lemma ParsedLater(ds: seq<Directive>, d: Directive, f: Forwarding)
    ensures ParsedEarlier(ds + [d], f) <==> ParsedEarlier(ds, f) || d.parsed == Ok(f)
  {
    var all := ds + [d];
    assert all[|ds|] == d;
    if ParsedEarlier(ds, f) {
      var j :| 0 <= j < |ds| && ds[j].parsed == Ok(f);
      assert all[j].parsed == Ok(f);
    }
  }

  lemma ImportedLater(alias: string, ds: seq<Directive>, d: Directive, existing: seq<Rule>, f: Forwarding)
    ensures ImportedEarlier(alias, ds + [d], existing, f) <==>
            ImportedEarlier(alias, ds, existing, f)
            || (Importable(alias, ds + [d], existing, |ds|) && d.parsed == Ok(f))
  {
    hide ForwardsConflict, ConflictsWithRule, DuplicatesRule;
    var all := ds + [d];
    assert all[..|ds|] == ds;
    forall j: nat | j < |ds| ensures Importable(alias, ds, existing, j) == Importable(alias, all, existing, j) {
      ImportablePrefix(alias, all, existing, |ds|, j);
    }
    hide Importable;
    if ImportedEarlier(alias, ds, existing, f) {
      var j: nat :| j < |ds| && Importable(alias, ds, existing, j) && ds[j].parsed.value == f;
      assert Importable(alias, all, existing, j) && all[j].parsed.value == f;
    }
  }

  ghost predicate FaithfulAt(alias: string, ds: seq<Directive>, existing: seq<Rule>, p: Progress, i: nat)
    requires i < |ds| == |p.candidates|
  {
    && (p.candidates[i].classification.Supported? <==> Importable(alias, ds, existing, i))
    && p.candidates[i].kind == ds[i].kind
    && p.candidates[i].forwarding == (if ds[i].parsed.Ok? then Some(ds[i].parsed.value) else None)
  }

  lemma OldCandidateStays(alias: string, ds: seq<Directive>, d: Directive, existing: seq<Rule>, p: Progress,
                          p': Progress, i: nat)
    requires i < |ds| == |p.candidates| && |p'.candidates| == |ds| + 1
    requires FaithfulAt(alias, ds, existing, p, i) && p'.candidates[i] == p.candidates[i]
    ensures FaithfulAt(alias, ds + [d], existing, p', i)
  {
    hide Importable;
    assert (ds + [d])[..|ds|] == ds;
    ImportablePrefix(alias, ds + [d], existing, |ds|, i);
  }

  lemma NewCandidate(alias: string, ds: seq<Directive>, d: Directive, existing: seq<Rule>, running: set<RuleId>,
                     p: Progress)
    requires Faithful(alias, ds, existing, p)
    ensures var p' := Advance(alias, d, p, existing, running);
      && |p'.candidates| == |ds| + 1
      && FaithfulAt(alias, ds + [d], existing, p', |ds|)
      && (forall f :: f in p'.seen <==> f in p.seen || d.parsed == Ok(f))
      && (forall f :: f in p'.accepted <==>
            f in p.accepted || (Importable(alias, ds + [d], existing, |ds|) && d.parsed == Ok(f)))
  {
    var all := ds + [d];
    assert all[..|all| - 1] == ds && all[|all| - 1] == d;
    hide Classify, Faithful;
    if d.parsed.Ok? { ClassifiedFaithfully(alias, all, existing, running, p); }
    assert d.parsed.Err? ==> !Importable(alias, all, existing, |ds|);
    assert |p.candidates| == |ds| by { FaithfulLength(alias, ds, existing, p); }
    hide Importable;
  }

  lemma FaithfulLength(alias: string, ds: seq<Directive>, existing: seq<Rule>, p: Progress)
    requires Faithful(alias, ds, existing, p)
    ensures |p.candidates| == |ds|
  {
  }

  lemma AdvanceIsFaithful(alias: string, ds: seq<Directive>, d: Directive, existing: seq<Rule>, running: set<RuleId>,
                          p: Progress)
    requires Faithful(alias, ds, existing, p)
    ensures Faithful(alias, ds + [d], existing, Advance(alias, d, p, existing, running))
  {
    hide Importable, ParsedEarlier, ImportedEarlier, FaithfulAt;
    var all := ds + [d];
    var p' := Advance(alias, d, p, existing, running);
    NewCandidate(alias, ds, d, existing, running, p);
    assert forall i: nat :: i < |ds| ==> p'.candidates[i] == p.candidates[i];
    hide Advance;
    forall f ensures ParsedEarlier(all, f) <==> ParsedEarlier(ds, f) || d.parsed == Ok(f) { ParsedLater(ds, d, f); }
    forall f ensures ImportedEarlier(alias, all, existing, f) <==>
      ImportedEarlier(alias, ds, existing, f) || (Importable(alias, all, existing, |ds|) && d.parsed == Ok(f))
    {
      ImportedLater(alias, ds, d, existing, f);
    }
    forall i: nat | i < |all| ensures FaithfulAt(alias, all, existing, p', i) {
      if i < |ds| { OldCandidateStays(alias, ds, d, existing, p, p', i); }
    }
  }

  lemma {:induction false} ScanIsFaithful(alias: string, ds: seq<Directive>, existing: seq<Rule>, running: set<RuleId>)
    ensures Faithful(alias, ds, existing, Scan(alias, ds, existing, running))
  {
    if ds != [] {
      hide Faithful, Advance;
      var front, d := ds[..|ds| - 1], ds[|ds| - 1];
      ScanIsFaithful(alias, front, existing, running);
      AdvanceIsFaithful(alias, front, d, existing, running, Scan(alias, front, existing, running));
      assert front + [d] == ds;
    } else {
      NothingIsFaithful(alias, existing);
    }
  }

  lemma NothingIsFaithful(alias: string, existing: seq<Rule>)
    ensures Faithful(alias, [], existing, Progress(map[], [], []))
  {
  }

  /** The candidate shown for a directive, and when it is shown as Supported. */
  lemma ShownFaithfully(alias: string, ds: seq<Directive>, existing: seq<Rule>, running: set<RuleId>, i: nat)
    requires i < |ds|
    ensures var c := Scan(alias, ds, existing, running).candidates[i];
      && (c.classification.Supported? <==> Importable(alias, ds, existing, i))
      && c.kind == ds[i].kind
      && c.forwarding == if ds[i].parsed.Ok? then Some(ds[i].parsed.value) else None
  {
    hide Importable, Scan, ParsedEarlier, ImportedEarlier;
    ScanIsFaithful(alias, ds, existing, running);
    assert FaithfulAt(alias, ds, existing, Scan(alias, ds, existing, running), i);
  }

  // ----- the exact classification of every directive

  predicate FirstParsed(ds: seq<Directive>, f: Forwarding, i: nat) {
    i < |ds| && ds[i].parsed == Ok(f) && forall j :: 0 <= j < i ==> ds[j].parsed != Ok(f)
  }

  ghost predicate SeenFirst(ds: seq<Directive>, p: Progress) {
    |p.candidates| == |ds| && forall f :: f in p.seen ==> FirstParsed(ds, f, p.seen[f])
  }

  lemma AdvanceSeesFirst(
    alias: string, ds: seq<Directive>, d: Directive, existing: seq<Rule>, running: set<RuleId>, p: Progress)
    requires Faithful(alias, ds, existing, p) && SeenFirst(ds, p)
    ensures SeenFirst(ds + [d], Advance(alias, d, p, existing, running))
  {
    hide Classify, ImportedEarlier, FaithfulAt;
    var p' := Advance(alias, d, p, existing, running);
    forall f | f in p'.seen ensures FirstParsed(ds + [d], f, p'.seen[f]) {
      if f in p.seen {
        assert FirstParsed(ds, f, p.seen[f]);
      } else {
        assert !ParsedEarlier(ds, f);
      }
    }
  }

  lemma {:induction false} ScanSeesFirst(alias: string, ds: seq<Directive>, existing: seq<Rule>, running: set<RuleId>)
    ensures SeenFirst(ds, Scan(alias, ds, existing, running))
  {
    hide Advance, SeenFirst, Faithful;
    if ds == [] {
      assert SeenFirst(ds, Progress(map[], [], [])) by { NothingSeen(ds); }
    } else {
      var n := |ds| - 1;
      ScanSeesFirst(alias, ds[..n], existing, running);
      ScanIsFaithful(alias, ds[..n], existing, running);
      AdvanceSeesFirst(alias, ds[..n], ds[n], existing, running, Scan(alias, ds[..n], existing, running));
      assert ds[..n] + [ds[n]] == ds;
    }
  }

  lemma NothingSeen(ds: seq<Directive>)
    requires ds == []
    ensures SeenFirst(ds, Progress(map[], [], []))
  {
  }

  lemma {:induction false} CandidatesStay(
    alias: string, ds: seq<Directive>, existing: seq<Rule>, running: set<RuleId>, i: nat)
    requires i < |ds|
    ensures Scan(alias, ds, existing, running).candidates[i] ==
            Advance(alias, ds[i], Scan(alias, ds[..i], existing, running), existing, running).candidates[i]
  {
    var n := |ds| - 1;
    if i < n {
      CandidatesStay(alias, ds[..n], existing, running, i);
      assert ds[..n][..i] == ds[..i];
      hide Classify;
      assert Scan(alias, ds, existing, running).candidates[i] ==
             Scan(alias, ds[..n], existing, running).candidates[i];
    }
  }

  // The first rule that is this forwarding already, and the first it clashes with.
  predicate FirstDuplicate(alias: string, f: Forwarding, rules: seq<Rule>, k: nat) {
    k < |rules| && DuplicatesRule(alias, f, rules[k]) && forall j :: 0 <= j < k ==> !DuplicatesRule(alias, f, rules[j])
  }

  predicate FirstClash(alias: string, f: Forwarding, rules: seq<Rule>, k: nat) {
    && k < |rules| && ConflictsWithRule(alias, f, rules[k])
    && forall j :: 0 <= j < k ==> !ConflictsWithRule(alias, f, rules[j])
  }

  ghost predicate ClashesEarlier(alias: string, ds: seq<Directive>, existing: seq<Rule>, i: nat)
    requires i < |ds| && ds[i].parsed.Ok?
  {
    exists j :: 0 <= j < i && Importable(alias, ds, existing, j)
                && ForwardsConflict(ds[i].parsed.value, ds[j].parsed.value)
  }

  // The classification of a directive, told from the directives before it and the rules.
  ghost predicate Rightly(
    c: Classification, alias: string, ds: seq<Directive>, existing: seq<Rule>, running: set<RuleId>, i: nat)
    requires i < |ds|
  {
    match ds[i].parsed
    case Err(Unsupported(reason)) => c == UnsupportedDirective(reason)
    case Err(Invalid(reason)) => c == InvalidDirective(reason)
    case Ok(f) =>
      if RepeatsEarlier(ds, i) then c.DuplicateDirective? && FirstParsed(ds, f, c.firstIndex)
      else if exists r :: r in existing && DuplicatesRule(alias, f, r) then
        exists k: nat :: FirstDuplicate(alias, f, existing, k)
                         && c == DuplicateRule(existing[k].id, existing[k].id in running)
      else if ClashesEarlier(alias, ds, existing, i) then c == Conflict(None, false)
      else if exists r :: r in existing && ConflictsWithRule(alias, f, r) then
        exists k: nat :: FirstClash(alias, f, existing, k)
                         && c == Conflict(Some(existing[k].id), existing[k].id in running)
      else c == Supported
  }

  lemma ClassifiedRightly(
    alias: string, ds: seq<Directive>, existing: seq<Rule>, running: set<RuleId>, i: nat, p: Progress)
    requires i < |ds| && ds[i].parsed.Ok? && Faithful(alias, ds[..i], existing, p) && SeenFirst(ds[..i], p)
    ensures Rightly(Classify(alias, ds[i].parsed.value, p, existing, running), alias, ds, existing, running, i)
  {
    hide ForwardsConflict, ConflictsWithRule, DuplicatesRule, FaithfulAt, Importable, ImportedEarlier;
    var f := ds[i].parsed.value;
    assert ds[..i + 1][..i] == ds[..i];
    AcceptedConflicts(alias, ds[..i + 1], existing, p.accepted, f);
    EarlierClashes(alias, ds, ds[..i + 1], existing, i);
    assert f in p.seen <==> RepeatsEarlier(ds, i) by {
      if RepeatsEarlier(ds, i) {
        var j :| 0 <= j < i && ds[j].parsed == ds[i].parsed;
        assert ds[..i][j].parsed == Ok(f);
      }
    }
    if f in p.seen {
      assert FirstParsed(ds[..i], f, p.seen[f]);
    } else {
      var duplicate := FirstRule(existing, (r: Rule) => DuplicatesRule(alias, f, r));
      if duplicate.Some? {
        var k: nat :| FirstAt(existing, (r: Rule) => DuplicatesRule(alias, f, r), k) && duplicate.value == existing[k];
        assert FirstDuplicate(alias, f, existing, k);
      }
      var clash := FirstRule(existing, (r: Rule) => ConflictsWithRule(alias, f, r));
      if clash.Some? {
        var k: nat :| FirstAt(existing, (r: Rule) => ConflictsWithRule(alias, f, r), k) && clash.value == existing[k];
        assert FirstClash(alias, f, existing, k);
      }
    }
  }

  lemma EarlierClashes(alias: string, ds: seq<Directive>, all: seq<Directive>, existing: seq<Rule>, i: nat)
    requires i < |ds| && ds[i].parsed.Ok? && all == ds[..i + 1]
    ensures ClashesEarlier(alias, all, existing, i) <==> ClashesEarlier(alias, ds, existing, i)
  {
    hide ForwardsConflict, ConflictsWithRule, DuplicatesRule, Importable;
    assert forall j :: 0 <= j <= i ==> all[j] == ds[j];
    forall j: nat | j < i
      ensures Importable(alias, all, existing, j) == Importable(alias, ds, existing, j)
      ensures Importable(alias, ds, existing, j) ==> ds[j].parsed.Ok?
    {
      ImportablePrefix(alias, ds, existing, i + 1, j);
      ImportableParses(alias, ds, existing, j);
    }
  }

  lemma ImportableParses(alias: string, ds: seq<Directive>, existing: seq<Rule>, j: nat)
    requires j < |ds|
    ensures Importable(alias, ds, existing, j) ==> ds[j].parsed.Ok?
  {
  }

  /**
   * Every candidate is classified rightly: the place of the first equal directive, the first rule that is the
   * same, an importable directive it clashes with, the first rule it clashes with, in this order, or Supported.
   */
  lemma ShownRightly(alias: string, ds: seq<Directive>, existing: seq<Rule>, running: set<RuleId>, i: nat)
    requires i < |ds|
    ensures Rightly(Scan(alias, ds, existing, running).candidates[i].classification, alias, ds, existing, running, i)
  {
    var p := Scan(alias, ds[..i], existing, running);
    ScanIsFaithful(alias, ds[..i], existing, running);
    ScanSeesFirst(alias, ds[..i], existing, running);
    CandidatesStay(alias, ds, existing, running, i);
    hide Classify, Scan, Faithful, SeenFirst;
    if ds[i].parsed.Ok? { ClassifiedRightly(alias, ds, existing, running, i, p); }
    hide Importable, RepeatsEarlier, ClashesEarlier;
  }
}
