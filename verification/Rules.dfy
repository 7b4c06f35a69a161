/** Forwarding rules, their validated fields, and validation of a whole rule set. */
module Rules {
  import opened Wrappers
  import opened Text
  import Net

  type RuleId = nat

  datatype Field = RuleName | SshHostAlias | BindPort | DestinationHost | DestinationPort

  datatype ValidationError =
    | Empty(field: Field)
    | SurroundingWhitespace(field: Field)
    | Whitespace(field: Field)
    | ControlCharacter(field: Field)
    | TooLong(field: Field, maxCharacters: nat)
    | LooksLikeOption(field: Field)
    | PortZero(field: Field)
    | InvalidBindAddress(value: string)
    | InvalidDestinationHost(value: string)
    | DuplicateName(name: string)
    | DuplicateLocalListener(address: string, port: u16)

  datatype Forwarding =
    | Local(bindAddress: string, bindPort: u16, destinationHost: string, destinationPort: u16)
    | Remote(bindAddress: string, bindPort: u16, destinationHost: string, destinationPort: u16)
    | Dynamic(bindAddress: string, bindPort: u16)

  datatype Rule = Rule(
    id: RuleId, name: string, alias: string, forwarding: Forwarding, autoStart: bool, reconnect: bool)

  // ----- field validators; each returns the error of the first check that fails

  function TextError(value: string, field: Field, maxCharacters: nat, allowSpaces: bool): Option<ValidationError> {
    if value == "" then Some(Empty(field))
    else if Trim(value) != value then Some(SurroundingWhitespace(field))
    else if |value| > maxCharacters then Some(TooLong(field, maxCharacters))
    else if exists c :: c in value && IsControl(c) then Some(ControlCharacter(field))
    else if !allowSpaces && exists c :: c in value && IsWhitespace(c) then Some(Whitespace(field))
    else None
  }

  function NameError(value: string): Option<ValidationError> {
    TextError(value, RuleName, 128, true)
  }

  function AliasError(value: string): Option<ValidationError> {
    match TextError(value, SshHostAlias, 255, false)
    case Some(e) => Some(e)
    case None => if value[0] == '-' then Some(LooksLikeOption(SshHostAlias)) else None
  }

  function PortError(value: u16, field: Field): Option<ValidationError> {
    if value == 0 then Some(PortZero(field)) else None
  }

  function BindAddressError(value: string): Option<ValidationError> {
    if value == "localhost" || value == "*" || Net.ParseIp(value).Some? then None
    else Some(InvalidBindAddress(value))
  }

  function DestinationHostError(value: string): Option<ValidationError> {
    match TextError(value, DestinationHost, 253, false)
    case Some(e) => Some(e)
    case None =>
      if ':' in value && Net.ParseIp(value).None? then Some(InvalidDestinationHost(value)) else None
  }

  function ListenError(name: string, alias: string, bindPort: u16): Option<ValidationError> {
    if NameError(name).Some? then NameError(name)
    else if AliasError(alias).Some? then AliasError(alias)
    else PortError(bindPort, BindPort)
  }

  function TargetError(host: string, port: u16): Option<ValidationError> {
    if DestinationHostError(host).Some? then DestinationHostError(host)
    else PortError(port, DestinationPort)
  }

  // ----- constructors

  const DEFAULT_BIND_ADDRESS := "127.0.0.1"

  function NewLocal(id: RuleId, name: string, alias: string, bindPort: u16, host: string, port: u16)
    : Result<Rule, ValidationError>
  {
    if ListenError(name, alias, bindPort).Some? then Err(ListenError(name, alias, bindPort).value)
    else if TargetError(host, port).Some? then Err(TargetError(host, port).value)
    else Ok(Rule(id, name, alias, Local(DEFAULT_BIND_ADDRESS, bindPort, host, port), false, false))
  }

  function NewRemote(id: RuleId, name: string, alias: string, bindPort: u16, host: string, port: u16)
    : Result<Rule, ValidationError>
  {
    if ListenError(name, alias, bindPort).Some? then Err(ListenError(name, alias, bindPort).value)
    else if TargetError(host, port).Some? then Err(TargetError(host, port).value)
    else Ok(Rule(id, name, alias, Remote(DEFAULT_BIND_ADDRESS, bindPort, host, port), false, false))
  }

  function NewDynamic(id: RuleId, name: string, alias: string, bindPort: u16): Result<Rule, ValidationError> {
    if ListenError(name, alias, bindPort).Some? then Err(ListenError(name, alias, bindPort).value)
    else Ok(Rule(id, name, alias, Dynamic(DEFAULT_BIND_ADDRESS, bindPort), false, false))
  }

  function WithBindAddress(rule: Rule, address: string): Result<Rule, ValidationError> {
    match BindAddressError(address)
    case Some(e) => Err(e)
    case None => Ok(rule.(forwarding := rule.forwarding.(bindAddress := address)))
  }

  function WithPolicy(rule: Rule, autoStart: bool, reconnect: bool): Rule {
    rule.(autoStart := autoStart, reconnect := reconnect)
  }

  /** What the constructors guarantee of every rule that exists. */
  predicate ValidForwarding(f: Forwarding) {
    && BindAddressError(f.bindAddress).None?
    && f.bindPort != 0
    && (!f.Dynamic? ==>
          DestinationHostError(f.destinationHost).None? && f.destinationPort != 0)
  }

  predicate ValidRule(r: Rule) {
    NameError(r.name).None? && AliasError(r.alias).None? && ValidForwarding(r.forwarding)
  }

  // ----- listeners

  datatype Listener = Listener(address: string, port: u16)

  function LocalListener(r: Rule): Option<Listener> {
    if r.forwarding.Remote? then None
    else Some(Listener(r.forwarding.bindAddress, r.forwarding.bindPort))
  }

  datatype BindingClass = AnyAddress | Localhost | V4Any | V6Any | V4(v4: Net.IpAddr) | V6(v6: Net.IpAddr)

  function ClassOf(address: string): BindingClass {
    if address == "*" then AnyAddress
    else if address == "localhost" then Localhost
    else
      match Net.ParseIp(address)
      case None => AnyAddress
      case Some(ip) =>
        if ip.V4? then (if Net.IsUnspecified(ip) then V4Any else V4(ip))
        else if Net.IsUnspecified(ip) then V6Any else V6(ip)
  }

  /** The arms of the source's match, in its order. */
  predicate ClassesOverlap(left: BindingClass, right: BindingClass) {
    match (left, right)
    case (AnyAddress, _) => true
    case (_, AnyAddress) => true
    case (V4Any, V4(_)) => true
    case (V4Any, Localhost) => true
    case (V4(_), V4Any) => true
    case (Localhost, V4Any) => true
    case (V6Any, V6(_)) => true
    case (V6Any, Localhost) => true
    case (V6(_), V6Any) => true
    case (Localhost, V6Any) => true
    case (Localhost, Localhost) => true
    case (Localhost, V4(value)) => Net.IsLoopback(value)
    case (V4(value), Localhost) => Net.IsLoopback(value)
    case (Localhost, V6(value)) => Net.IsLoopback(value)
    case (V6(value), Localhost) => Net.IsLoopback(value)
    case (V4(l), V4(r)) => l == r
    case (V6(l), V6(r)) => l == r
    case _ => false
  }

  predicate BindAddressesOverlap(left: string, right: string) {
    ClassesOverlap(ClassOf(left), ClassOf(right))
  }

  lemma OverlapSymmetric(left: string, right: string)
    ensures BindAddressesOverlap(left, right) == BindAddressesOverlap(right, left)
  {
    var l, r := ClassOf(left), ClassOf(right);
    match l { case AnyAddress => case Localhost => case V4Any => case V6Any => case V4(_) => case V6(_) => }
  }

  /** The addresses a listener with this binding answers on. */
  ghost predicate Answers(class_: BindingClass, ip: Net.IpAddr) {
    match class_
    case AnyAddress => true
    case Localhost => Net.IsLoopback(ip)
    case V4Any => ip.V4?
    case V6Any => ip.V6?
    case V4(value) => ip == value
    case V6(value) => ip == value
  }

  /**
   * The coded relation is exactly "some address is answered by both", except that it is false for
   * 0.0.0.0 against itself and for :: against itself.
   */
  lemma OverlapIsIntersection(left: string, right: string)
    ensures BindAddressesOverlap(left, right) <==>
      (&& (exists ip :: Answers(ClassOf(left), ip) && Answers(ClassOf(right), ip))
       && !(ClassOf(left) == ClassOf(right) && ClassOf(left) in {V4Any, V6Any}))
  {
    var l, r := ClassOf(left), ClassOf(right);
    ParsedAddressHasItsFamily(left);
    ParsedAddressHasItsFamily(right);
    var ip := SharedAddress(l, r);
    if ClassesOverlap(l, r) {
      assert Answers(l, ip) && Answers(r, ip);
    } else if exists x :: Answers(l, x) && Answers(r, x) {
      var x :| Answers(l, x) && Answers(r, x);
      assert l == r && (l == V4Any || l == V6Any);
    }
  }

  // An address answered by both bindings, when there is one.
  function SharedAddress(l: BindingClass, r: BindingClass): Net.IpAddr {
    if l.V4? then l.v4 else if r.V4? then r.v4
    else if l.V6? then l.v6 else if r.V6? then r.v6
    else if l == V6Any || r == V6Any then Net.V6(Net.Zeros(7) + [1])
    else Net.V4([127, 0, 0, 1])
  }

  lemma ParsedAddressHasItsFamily(address: string)
    ensures ClassOf(address).V4? ==> ClassOf(address).v4.V4?
    ensures ClassOf(address).V6? ==> ClassOf(address).v6.V6?
  {
  }

  lemma WildcardParses(s: string)
    requires s == "0.0.0.0"
    ensures Net.ParseV4(s) == Some([0, 0, 0, 0])
  {
    hide Net.ParseV4, Decimal;
    Net.ZeroSpelled();
    var two, three := ["0", "0"], ["0", "0", "0"];
    assert two[1..] == ["0"] && three[1..] == two && ["0", "0", "0", "0"][1..] == three;
    assert Net.Joined(["0", "0", "0", "0"], '.') == s;
    Net.V4Exactly(s, [0, 0, 0, 0]);
  }

  lemma ZerosAreUnspecified()
    ensures Net.IsUnspecified(Net.V4([0, 0, 0, 0]))
  {
    assert [0, 0, 0, 0] == Net.Zeros(4);
  }

  lemma DottedIsNoWord(s: string)
    requires s == "0.0.0.0"
    ensures s != "*" && s != "localhost"
  {
    assert s[0] != "*"[0] && s[0] != "localhost"[0];
  }

  /** Two wildcard listeners of one family on one port are accepted although they collide. */
  lemma EqualWildcardsDoNotOverlap(s: string)
    requires s == "0.0.0.0"
    ensures !BindAddressesOverlap(s, s) && ClassOf(s) == V4Any
  {
    hide Net.ParseV4, Net.ParseV6, Net.IsUnspecified, Split;
    WildcardParses(s);
    ZerosAreUnspecified();
    DottedIsNoWord(s);
  }

  // ----- validation of a whole set

  predicate ListenersClash(a: Rule, b: Rule) {
    var x, y := LocalListener(a), LocalListener(b);
    x.Some? && y.Some? && x.value.port == y.value.port
    && BindAddressesOverlap(x.value.address, y.value.address)
  }

  predicate Compatible(a: Rule, b: Rule) {
    a.name != b.name && !ListenersClash(a, b)
  }

  /** Every two rules have different names and no clashing local listeners. */
  predicate PairwiseCompatible(rules: seq<Rule>) {
    forall i, j :: 0 <= i < j < |rules| ==> Compatible(rules[j], rules[i])
  }

  function ErrorsOf(rule: Rule, earlier: seq<Rule>): seq<ValidationError> {
    (if exists k :: 0 <= k < |earlier| && earlier[k].name == rule.name
     then [DuplicateName(rule.name)] else []) +
    (if exists k :: 0 <= k < |earlier| && ListenersClash(rule, earlier[k])
     then [DuplicateLocalListener(rule.forwarding.bindAddress, rule.forwarding.bindPort)] else [])
  }

  function RuleSetErrors(rules: seq<Rule>): seq<ValidationError> {
    if rules == [] then []
    else
      var front := rules[..|rules| - 1];
      RuleSetErrors(front) + ErrorsOf(rules[|rules| - 1], front)
  }

  predicate ValidRuleSet(rules: seq<Rule>) { RuleSetErrors(rules) == [] }

  lemma {:induction false} ValidRuleSetIsPairwise(rules: seq<Rule>)
    ensures ValidRuleSet(rules) <==> PairwiseCompatible(rules)
  {
    hide ListenersClash;
    if rules != [] {
      var n := |rules| - 1;
      var front, last := rules[..n], rules[n];
      ValidRuleSetIsPairwise(front);
      assert ErrorsOf(last, front) == [] <==> forall k :: 0 <= k < n ==> Compatible(rules[n], rules[k]) by {
        assert forall k :: 0 <= k < n ==> front[k] == rules[k];
      }
      if PairwiseCompatible(front) && ErrorsOf(last, front) == [] {
        forall i, j | 0 <= i < j < |rules| ensures Compatible(rules[j], rules[i]) {
          if j < n { assert Compatible(front[j], front[i]); }
        }
      }
      if PairwiseCompatible(rules) {
        assert forall i, j :: 0 <= i < j < n ==> front[j] == rules[j] && front[i] == rules[i];
      }
    }
  }

  method ValidateRuleSet(rules: seq<Rule>) returns (errors: seq<ValidationError>)
    ensures errors == RuleSetErrors(rules)
    ensures errors == [] <==> PairwiseCompatible(rules)
  {
    errors := [];
    for index := 0 to |rules|
      invariant errors == RuleSetErrors(rules[..index])
    {
      var rule, earlier := rules[index], rules[..index];
      assert rules[..index + 1][..index] == earlier;
      if exists k :: 0 <= k < |earlier| && earlier[k].name == rule.name {
        errors := errors + [DuplicateName(rule.name)];
      }
      var listener := LocalListener(rule);
      if listener.None? {
        continue;
      }
      if exists k :: 0 <= k < |earlier| && ListenersClash(rule, earlier[k]) {
        errors := errors + [DuplicateLocalListener(listener.value.address, listener.value.port)];
      }
    }
    assert rules[..|rules|] == rules;
    ValidRuleSetIsPairwise(rules);
  }

  // ----- lookup by id

  /** `rules.iter().find(..)`: the first rule with this id. */
  function FindRule(rules: seq<Rule>, id: RuleId): (r: Option<Rule>)
    ensures r.Some? ==> r.value.id == id && r.value in rules
    ensures r.None? <==> forall x :: x in rules ==> x.id != id
  {
    if rules == [] then None
    else if rules[0].id == id then Some(rules[0])
    else FindRule(rules[1..], id)
  }

  predicate UniqueIds(rules: seq<Rule>) {
    forall i, j :: 0 <= i < j < |rules| ==> rules[i].id != rules[j].id
  }

  // This error is about the rule at `j`: an earlier rule has its name, or listens where it would listen.
  predicate ErrorAt(rules: seq<Rule>, j: nat, e: ValidationError) {
    && j < |rules|
    && (|| (e == DuplicateName(rules[j].name) && exists i :: 0 <= i < j && rules[i].name == rules[j].name)
        || (e == DuplicateLocalListener(rules[j].forwarding.bindAddress, rules[j].forwarding.bindPort)
            && exists i :: 0 <= i < j && ListenersClash(rules[j], rules[i])))
  }

  lemma ErrorStaysAt(rules: seq<Rule>, n: nat, j: nat, e: ValidationError)
    requires j < n <= |rules|
    ensures ErrorAt(rules[..n], j, e) <==> ErrorAt(rules, j, e)
  {
    hide ListenersClash;
    assert forall i :: 0 <= i <= j ==> rules[..n][i] == rules[i];
  }

  /** The errors reported are exactly the repeated names and the taken local listeners. */
  lemma {:induction false} ErrorsAreReported(rules: seq<Rule>, e: ValidationError)
    ensures e in RuleSetErrors(rules) <==> exists j: nat :: ErrorAt(rules, j, e)
  {
    hide ListenersClash;
    if rules != [] {
      var n := |rules| - 1;
      ErrorsAreReported(rules[..n], e);
      assert e in ErrorsOf(rules[n], rules[..n]) <==> ErrorAt(rules, n, e) by {
        assert forall i :: 0 <= i < n ==> rules[..n][i] == rules[i];
      }
      hide ErrorAt, ErrorsOf;
      forall j: nat | j < n ensures ErrorAt(rules[..n], j, e) <==> ErrorAt(rules, j, e) {
        ErrorStaysAt(rules, n, j, e);
      }
      forall j: nat | j > n ensures !ErrorAt(rules, j, e) { NoErrorBeyond(rules, j, e); }
      forall j: nat | j >= n ensures !ErrorAt(rules[..n], j, e) { NoErrorBeyond(rules[..n], j, e); }
    }
  }

  lemma NoErrorBeyond(rules: seq<Rule>, j: nat, e: ValidationError)
    requires j >= |rules|
    ensures !ErrorAt(rules, j, e)
  {
  }

  /** Two listeners clash exactly if both are local or dynamic, on one port, at overlapping addresses. */
  lemma ClashMeans(a: Rule, b: Rule)
    ensures ListenersClash(a, b) <==>
            && (a.forwarding.Local? || a.forwarding.Dynamic?) && (b.forwarding.Local? || b.forwarding.Dynamic?)
            && a.forwarding.bindPort == b.forwarding.bindPort
            && BindAddressesOverlap(a.forwarding.bindAddress, b.forwarding.bindAddress)
  {
    hide BindAddressesOverlap;
  }

  // ----- what the field validators accept

  predicate PrintedText(value: string, most: nat) {
    && 0 < |value| <= most && (forall c :: c in value ==> !IsControl(c))
    && !IsWhitespace(value[0]) && !IsWhitespace(value[|value| - 1])
  }

  lemma TextMeans(value: string, field: Field, most: nat, allowSpaces: bool)
    ensures TextError(value, field, most, allowSpaces).None? <==>
            PrintedText(value, most) && (allowSpaces || forall c :: c in value ==> !IsWhitespace(c))
  {
    hide IsControl, IsWhitespace, Trim;
    TrimIsIdentity(value);
  }

  /** A rule name: one to 128 printed characters, spaces only inside. */
  lemma NameMeans(value: string)
    ensures NameError(value).None? <==> PrintedText(value, 128)
  {
    hide TextError, PrintedText;
    TextMeans(value, RuleName, 128, true);
  }

  /** A host alias: one to 255 printed characters without spaces that cannot be taken for an option. */
  lemma AliasMeans(value: string)
    ensures AliasError(value).None? <==>
            PrintedText(value, 255) && value[0] != '-' && forall c :: c in value ==> !IsWhitespace(c)
  {
    hide TextError, IsWhitespace, IsControl;
    TextMeans(value, SshHostAlias, 255, false);
  }

  /** A destination host: one to 253 printed characters without spaces; with a colon it must be an address. */
  lemma DestinationMeans(value: string)
    ensures DestinationHostError(value).None? <==>
            && PrintedText(value, 253) && (forall c :: c in value ==> !IsWhitespace(c))
            && (':' in value ==> Net.ParseIp(value).Some?)
  {
    hide TextError, IsWhitespace, IsControl, PrintedText, Net.ParseIp;
    TextMeans(value, DestinationHost, 253, false);
  }
}
