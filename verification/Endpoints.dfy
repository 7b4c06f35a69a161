/** Reading forwarding directives from the output of `ssh -G`. */
module Endpoints {
  import opened Wrappers
  import opened Text
  import opened Rules

  datatype DirectiveKind = LocalForward | RemoteForward | DynamicForward
  datatype UnsupportedReason = UnixSocket | RemoteDynamic
  datatype InvalidReason = Syntax | BadBindAddress | BadDestinationHost | BadPort | NonUtf8Output
  datatype ParseFailure = Unsupported(unsupported: UnsupportedReason) | Invalid(invalid: InvalidReason)

  function ParsePort(value: string): (r: Result<u16, ParseFailure>)
    ensures r.Ok? ==> r.value != 0
  {
    match ParseU16(value)
    case Some(port) => if port != 0 then Ok(port) else Err(Invalid(BadPort))
    case None => Err(Invalid(BadPort))
  }

  // `[host]:port`, or a host and a port around the last colon.
  function HostAndPort(value: string): Result<(string, string), ParseFailure> {
    if value != "" && value[0] == '[' then
      match SplitOnce(value[1..], ']')
      case None => Err(Invalid(Syntax))
      case Some((host, rest)) => if rest != "" && rest[0] == ':' then Ok((host, rest[1..])) else Err(Invalid(Syntax))
    else
      match RSplitOnce(value, ':')
      case None => Err(Invalid(Syntax))
      case Some(pair) => Ok(pair)
  }

  function SplitEndpoint(value: string): (r: Result<(string, u16), ParseFailure>)
    ensures r.Ok? ==> r.value.1 != 0
  {
    var (host, text) :- HostAndPort(value);
    if host == "" then Err(Invalid(Syntax))
    else
      var port :- ParsePort(text);
      Ok((host, port))
  }

  function ParseListener(value: string, defaultBind: string): (r: Result<(string, u16), ParseFailure>)
    requires BindAddressError(defaultBind).None?
    ensures r.Ok? ==> BindAddressError(r.value.0).None? && r.value.1 != 0
  {
    if AllDigits(value) then
      var port :- ParsePort(value);
      Ok((defaultBind, port))
    else
      var (address, port) :- SplitEndpoint(value);
      if BindAddressError(address).Some? then Err(Invalid(BadBindAddress)) else Ok((address, port))
  }

  function ParseDestination(value: string): (r: Result<(string, u16), ParseFailure>)
    ensures r.Ok? ==> DestinationHostError(r.value.0).None? && r.value.1 != 0
  {
    var (host, port) :- SplitEndpoint(value);
    if DestinationHostError(host).Some? then Err(Invalid(BadDestinationHost)) else Ok((host, port))
  }

  predicate LooksLikeSocket(field: string) { '/' in field }

  predicate HasSocket(fields: seq<string>) { exists field :: field in fields && LooksLikeSocket(field) }

  predicate OfKind(kind: DirectiveKind, f: Forwarding) {
    match kind
    case LocalForward => f.Local?
    case RemoteForward => f.Remote?
    case DynamicForward => f.Dynamic?
  }

  /** Everything this accepts is of the directive's kind and satisfies the daemon's own validator. */
  function ParseFields(kind: DirectiveKind, fields: seq<string>, defaultBind: string)
    : (r: Result<Forwarding, ParseFailure>)
    requires BindAddressError(defaultBind).None?
    ensures r.Ok? ==> ValidForwarding(r.value) && OfKind(kind, r.value)
  {
    if HasSocket(fields) then Err(Unsupported(UnixSocket))
    else if kind.LocalForward? && |fields| == 2 then
      var (address, port) :- ParseListener(fields[0], defaultBind);
      var (host, hostPort) :- ParseDestination(fields[1]);
      Ok(Local(address, port, host, hostPort))
    else if kind.RemoteForward? && |fields| == 2 then
      var (address, port) :- ParseListener(fields[0], "localhost");
      var (host, hostPort) :- ParseDestination(fields[1]);
      Ok(Remote(address, port, host, hostPort))
    else if kind.RemoteForward? && |fields| == 1 then
      var _ :- ParseListener(fields[0], "localhost");
      Err(Unsupported(RemoteDynamic))
    else if kind.DynamicForward? && |fields| == 1 then
      var (address, port) :- ParseListener(fields[0], defaultBind);
      Ok(Dynamic(address, port))
    else Err(Invalid(Syntax))
  }

  function ParseForward(kind: DirectiveKind, value: string, defaultBind: string): (r: Result<Forwarding, ParseFailure>)
    requires BindAddressError(defaultBind).None?
    ensures r.Ok? ==> ValidForwarding(r.value) && OfKind(kind, r.value)
  {
    ParseFields(kind, SplitWhitespace(value), defaultBind)
  }

  // A forwarding line of the output: its kind and what its value parses to.
  datatype Directive = Directive(kind: DirectiveKind, parsed: Result<Forwarding, ParseFailure>)

  predicate SharesGateway(line: string) {
    var pair := SplitOnceWhitespace(line);
    pair.Some? && LowerAscii(pair.value.0) == "gatewayports" && Trim(pair.value.1) == "yes"
  }

  function LocalDefaultBind(text: string): (address: string)
    ensures BindAddressError(address).None?
  {
    if exists line :: line in Lines(text) && SharesGateway(line) then "*" else "localhost"
  }

  function KindOf(keyword: string): Option<DirectiveKind> {
    if LowerAscii(keyword) == "localforward" then Some(LocalForward)
    else if LowerAscii(keyword) == "remoteforward" then Some(RemoteForward)
    else if LowerAscii(keyword) == "dynamicforward" then Some(DynamicForward)
    else None
  }

  function DirectiveOf(line: string, defaultBind: string): (d: Option<Directive>)
    requires BindAddressError(defaultBind).None?
    ensures d.Some? && d.value.parsed.Ok? ==>
      ValidForwarding(d.value.parsed.value) && OfKind(d.value.kind, d.value.parsed.value)
  {
    match SplitOnceWhitespace(line)
    case None => None
    case Some((keyword, value)) =>
      match KindOf(keyword)
      case None => None
      case Some(kind) => Some(Directive(kind, ParseForward(kind, Trim(value), defaultBind)))
  }

  predicate WellParsed(ds: seq<Directive>) {
    forall d :: d in ds && d.parsed.Ok? ==> ValidForwarding(d.parsed.value)
  }

  function Directives(lines: seq<string>, defaultBind: string): (ds: seq<Directive>)
    requires BindAddressError(defaultBind).None?
    ensures WellParsed(ds) && |ds| <= |lines|
  {
    hide DirectiveOf, BindAddressError, ValidForwarding;
    if lines == [] then []
    else
      var before := Directives(lines[..|lines| - 1], defaultBind);
      match DirectiveOf(lines[|lines| - 1], defaultBind)
      case Some(d) => before + [d]
      case None => before
  }
}
