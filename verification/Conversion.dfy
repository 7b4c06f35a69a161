/** Conversion between the persisted configuration and validated domain rules. */
module Conversion {
  import opened Wrappers
  import opened Rules

  datatype Theme = System | Dark | Light
  datatype LogLevel = ErrorLevel | Warn | Info | Debug | Trace
  datatype Settings = Settings(theme: Theme, logLevel: LogLevel, defaultReconnect: bool, defaultAutoStart: bool)

  const DEFAULT_SETTINGS := Settings(System, Info, false, false)
  const SCHEMA_VERSION: nat := 2

  datatype WireRule =
    | WireLocal(id: RuleId, name: string, alias: string, bindAddress: string, bindPort: u16,
                destinationHost: string, destinationPort: u16, autoStart: bool, reconnect: bool)
    | WireRemote(id: RuleId, name: string, alias: string, bindAddress: string, bindPort: u16,
                 destinationHost: string, destinationPort: u16, autoStart: bool, reconnect: bool)
    | WireDynamic(id: RuleId, name: string, alias: string, bindAddress: string, bindPort: u16,
                  autoStart: bool, reconnect: bool)

  datatype ConfigV1 = ConfigV1(schemaVersion: nat, rules: seq<WireRule>)
  datatype ConfigV2 = ConfigV2(schemaVersion: nat, rules: seq<WireRule>, settings: Settings)

  datatype StoreError =
    | Io
    | Decode
    | UnsupportedSchema(version: nat)
    | InvalidRule(error: ValidationError)
    | InvalidRules(errors: seq<ValidationError>)
    | DurabilityUncertain

  datatype Persisted = Persisted(rules: seq<Rule>, settings: Settings)

  function ToDomain(w: WireRule): (r: Result<Rule, ValidationError>) {
    var base := match w
      case WireLocal(id, name, alias, _, bindPort, host, port, _, _) =>
        NewLocal(id, name, alias, bindPort, host, port)
      case WireRemote(id, name, alias, _, bindPort, host, port, _, _) =>
        NewRemote(id, name, alias, bindPort, host, port)
      case WireDynamic(id, name, alias, _, bindPort, _, _) =>
        NewDynamic(id, name, alias, bindPort);
    var rule :- base;
    var bound :- WithBindAddress(rule, w.bindAddress);
    Ok(WithPolicy(bound, w.autoStart, w.reconnect))
  }

  function ToWire(r: Rule): WireRule {
    match r.forwarding
    case Local(address, port, host, hostPort) =>
      WireLocal(r.id, r.name, r.alias, address, port, host, hostPort, r.autoStart, r.reconnect)
    case Remote(address, port, host, hostPort) =>
      WireRemote(r.id, r.name, r.alias, address, port, host, hostPort, r.autoStart, r.reconnect)
    case Dynamic(address, port) =>
      WireDynamic(r.id, r.name, r.alias, address, port, r.autoStart, r.reconnect)
  }

  // The rule says what the wire rule says, in every field and in its kind.
  predicate SaysTheSame(w: WireRule, r: Rule) {
    && r.id == w.id && r.name == w.name && r.alias == w.alias
    && r.autoStart == w.autoStart && r.reconnect == w.reconnect
    && match w
       case WireLocal(_, _, _, address, port, host, hostPort, _, _) =>
         r.forwarding == Local(address, port, host, hostPort)
       case WireRemote(_, _, _, address, port, host, hostPort, _, _) =>
         r.forwarding == Remote(address, port, host, hostPort)
       case WireDynamic(_, _, _, address, port, _, _) => r.forwarding == Dynamic(address, port)
  }

  /** Conversion accepts exactly what says the same as a valid rule, and is then inverted by `ToWire`. */
  lemma RuleRoundTrip(w: WireRule, r: Rule)
    ensures ToDomain(w) == Ok(r) <==> ValidRule(r) && ToWire(r) == w
    ensures ToWire(r) == w <==> SaysTheSame(w, r)
  {
    hide NameError, AliasError, BindAddressError, DestinationHostError;
  }

  function AllToDomain(ws: seq<WireRule>): Result<seq<Rule>, ValidationError> {
    if ws == [] then Ok([])
    else
      var first :- ToDomain(ws[0]);
      var rest :- AllToDomain(ws[1..]);
      Ok([first] + rest)
  }

  function AllToWire(rules: seq<Rule>): seq<WireRule> {
    if rules == [] then [] else [ToWire(rules[0])] + AllToWire(rules[1..])
  }

  predicate AllValid(rules: seq<Rule>) { forall r :: r in rules ==> ValidRule(r) }

  lemma {:induction false} AllRoundTrip(ws: seq<WireRule>, rules: seq<Rule>)
    ensures AllToDomain(ws) == Ok(rules) <==> AllValid(rules) && AllToWire(rules) == ws
  {
    hide ToDomain, ToWire, ValidRule;
    if rules == [] || ws == [] {
    } else {
      RuleRoundTrip(ws[0], rules[0]);
      AllRoundTrip(ws[1..], rules[1..]);
      assert rules == [rules[0]] + rules[1..];
      assert ws == [ws[0]] + ws[1..];
      assert AllToWire(rules) == ws <==> ToWire(rules[0]) == ws[0] && AllToWire(rules[1..]) == ws[1..];
      assert AllValid(rules) <==> ValidRule(rules[0]) && AllValid(rules[1..]);
      assert AllToDomain(ws) == Ok(rules) <==>
             ToDomain(ws[0]) == Ok(rules[0]) && AllToDomain(ws[1..]) == Ok(rules[1..]);
    }
  }

  function IntoDomain(c: ConfigV2): Result<Persisted, StoreError> {
    if c.schemaVersion != SCHEMA_VERSION then Err(UnsupportedSchema(c.schemaVersion))
    else
      match AllToDomain(c.rules)
      case Err(e) => Err(InvalidRule(e))
      case Ok(rules) =>
        var errors := RuleSetErrors(rules);
        if errors == [] then Ok(Persisted(rules, c.settings)) else Err(InvalidRules(errors))
  }

  function FromDomain(p: Persisted): Result<ConfigV2, StoreError> {
    var errors := RuleSetErrors(p.rules);
    if errors == [] then Ok(ConfigV2(SCHEMA_VERSION, AllToWire(p.rules), p.settings))
    else Err(InvalidRules(errors))
  }

  /** The version 1 reader, which knows no settings. */
  function V1IntoDomain(c: ConfigV1): Result<seq<Rule>, StoreError> {
    if c.schemaVersion != 1 then Err(UnsupportedSchema(c.schemaVersion))
    else
      match AllToDomain(c.rules)
      case Err(e) => Err(InvalidRule(e))
      case Ok(rules) =>
        var errors := RuleSetErrors(rules);
        if errors == [] then Ok(rules) else Err(InvalidRules(errors))
  }

  /** A configuration is readable exactly when it is what saving some valid rule set would write. */
  lemma ConfigRoundTrip(c: ConfigV2, p: Persisted)
    ensures IntoDomain(c) == Ok(p) <==> AllValid(p.rules) && FromDomain(p) == Ok(c)
  {
    AllRoundTrip(c.rules, p.rules);
    if AllToDomain(c.rules).Ok? {
      AllRoundTrip(c.rules, AllToDomain(c.rules).value);
    }
  }

  lemma DomainIsValid(c: ConfigV2)
    requires IntoDomain(c).Ok?
    ensures AllValid(IntoDomain(c).value.rules) && ValidRuleSet(IntoDomain(c).value.rules)
  {
    ConfigRoundTrip(c, IntoDomain(c).value);
  }
}
