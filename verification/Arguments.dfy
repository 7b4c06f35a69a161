/** The forwarding argument given to `ssh`, and why it is unambiguous. */
module Arguments {
  import opened Wrappers
  import opened Text
  import opened Rules
  import opened Endpoints
  import Net

  function Bracket(value: string): string {
    if ':' in value then "[" + value + "]" else value
  }

  function Endpoint(host: string, port: nat): string {
    Bracket(host) + ":" + Decimal(port)
  }

  /** The option and its argument. */
  function ForwardingArgument(f: Forwarding): (string, string) {
    match f
    case Local(address, port, host, hostPort) => ("-L", Endpoint(address, port) + ":" + Endpoint(host, hostPort))
    case Remote(address, port, host, hostPort) => ("-R", Endpoint(address, port) + ":" + Endpoint(host, hostPort))
    case Dynamic(address, port) => ("-D", Endpoint(address, port))
  }

  // A host that is bracketed exactly when needed: any bind address, and any destination not starting with '['.
  predicate Plain(host: string) {
    host != "" && host[0] != '[' && (':' in host ==> ']' !in host)
  }

  lemma WordsArePlain(address: string)
    requires address == "localhost" || address == "*"
    ensures Plain(address) && '[' !in address && ']' !in address
  {
  }

  lemma BindAddressIsPlain(address: string)
    requires BindAddressError(address).None?
    ensures Plain(address) && '[' !in address && ']' !in address
  {
    hide Net.ParseIp;
    if Net.ParseIp(address).Some? {
      Net.IpCharacters(address);
      assert address[0] in address;
    } else {
      WordsArePlain(address);
    }
  }

  lemma DestinationIsPlain(host: string)
    requires DestinationHostError(host).None?
    ensures host != "" && (Plain(host) <==> host[0] != '[')
    ensures ':' in host ==> Plain(host)
  {
    hide Trim;
    if ':' in host { Net.IpCharacters(host); }
    assert host[0] in host;
  }

  lemma NoColonInDecimal(port: nat)
    ensures ':' !in Decimal(port)
  {
  }

  lemma BracketedSplits(host: string, port: string)
    requires ']' !in host
    ensures HostAndPort("[" + host + "]" + ":" + port) == Ok((host, port))
  {
    hide Find;
    var rest := ("[" + host + "]" + ":" + port)[1..];
    assert rest[..|host|] == host && rest[|host| + 1..] == ":" + port;
    FindAt(rest, ']', |host|);
  }

  lemma BareSplits(host: string, port: string)
    requires host != "" && host[0] != '[' && ':' !in port
    ensures HostAndPort(host + ":" + port) == Ok((host, port))
  {
    hide FindLast;
    var text := host + ":" + port;
    assert text[..|host|] == host && text[|host| + 1..] == port;
    FindLastAt(text, ':', |host|);
  }

  lemma PlainEndpointSplits(host: string, port: u16)
    requires Plain(host) && port != 0
    ensures SplitEndpoint(Endpoint(host, port)) == Ok((host, port))
  {
    hide Decimal, ParseU16, HostAndPort;
    ParseU16OfDecimal(port);
    NoColonInDecimal(port);
    if ':' in host { BracketedSplits(host, Decimal(port)); } else { BareSplits(host, Decimal(port)); }
  }

  lemma BracketedNameIsMisread(host: string, port: u16)
    requires host != "" && host[0] == '[' && ':' !in host
    ensures SplitEndpoint(Endpoint(host, port)) != Ok((host, port))
  {
    var text := Endpoint(host, port);
    assert text[0] == '[';
    match SplitOnce(text[1..], ']')
    case None =>
    case Some((found, rest)) =>
      assert text[1..][|host| - 1] == ':';
      assert |found| == |host| ==> found[|host| - 1] == ':';
  }

  /** Every printed listener is read back as it was. */
  lemma ListenerRoundTrip(address: string, port: u16)
    requires BindAddressError(address).None? && port != 0
    ensures SplitEndpoint(Endpoint(address, port)) == Ok((address, port))
  {
    BindAddressIsPlain(address);
    PlainEndpointSplits(address, port);
  }

  /** A printed destination is read back as it was exactly when its host does not start with '['. */
  lemma DestinationRoundTrip(host: string, port: u16)
    requires DestinationHostError(host).None? && port != 0
    ensures SplitEndpoint(Endpoint(host, port)) == Ok((host, port)) <==> host[0] != '['
  {
    DestinationIsPlain(host);
    if host[0] == '[' { BracketedNameIsMisread(host, port); } else { PlainEndpointSplits(host, port); }
  }

  // ----- no two forwardings share an argument

  lemma EqualAround(a: string, x: string, b: string, y: string)
    requires a + ":" + x == b + ":" + y && |a| == |b|
    ensures a == b && x == y
  {
    var s, t := a + ":" + x, b + ":" + y;
    assert a == s[..|a|] && b == t[..|b|];
    assert x == s[|a| + 1..] && y == t[|b| + 1..];
  }

  lemma ListenerEnd(a: string, x: string)
    requires BindAddressError(a).None?
    ensures var s := Bracket(a) + ":" + x;
      && (s[0] == '[' <==> ':' in a)
      && (if ':' in a then Find(s, ']') == |a| + 1 else Find(s, ':') == |a|)
  {
    hide BindAddressError, Find;
    BindAddressIsPlain(a);
    var s := Bracket(a) + ":" + x;
    if ':' in a {
      assert s[..|a| + 1] == ['['] + a;
      FindAt(s, ']', |a| + 1);
    } else {
      assert s[..|a|] == a;
      FindAt(s, ':', |a|);
    }
  }

  lemma BracketInjective(a: string, b: string)
    requires Bracket(a) == Bracket(b) && (':' in a <==> ':' in b)
    ensures a == b
  {
    if ':' in a {
      assert a == Bracket(a)[1..|a| + 1] && b == Bracket(b)[1..|b| + 1];
    }
  }

  lemma BracketAhead(a: string, x: string, b: string, y: string)
    requires BindAddressError(a).None? && BindAddressError(b).None?
    requires Bracket(a) + ":" + x == Bracket(b) + ":" + y
    ensures a == b && x == y
  {
    hide BindAddressError, Find;
    ListenerEnd(a, x);
    ListenerEnd(b, y);
    assert |Bracket(a)| == |Bracket(b)|;
    hide Bracket;
    EqualAround(Bracket(a), x, Bracket(b), y);
    BracketInjective(a, b);
  }

  lemma NumberAhead(m: nat, x: string, n: nat, y: string)
    requires Decimal(m) + ":" + x == Decimal(n) + ":" + y
    ensures m == n && x == y
  {
    hide Decimal, Find;
    NoColonInDecimal(m);
    NoColonInDecimal(n);
    FindAt(Decimal(m) + ":" + x, ':', |Decimal(m)|);
    FindAt(Decimal(n) + ":" + y, ':', |Decimal(n)|);
    EqualAround(Decimal(m), x, Decimal(n), y);
    DecimalInjective(m, n);
  }

  lemma HostEnd(g: string, m: nat)
    ensures FindLast(Endpoint(g, m), ':') == |Bracket(g)|
  {
    hide Decimal, Bracket;
    NoColonInDecimal(m);
    FindLastAt(Endpoint(g, m), ':', |Bracket(g)|);
  }

  lemma SameDestination(g: string, m: nat, h: string, n: nat)
    requires DestinationHostError(g).None? && DestinationHostError(h).None?
    requires Endpoint(g, m) == Endpoint(h, n)
    ensures g == h && m == n
  {
    hide Decimal, DestinationHostError, Bracket, FindLast;
    HostEnd(g, m);
    HostEnd(h, n);
    EqualAround(Bracket(g), Decimal(m), Bracket(h), Decimal(n));
    DecimalInjective(m, n);
    SameBracket(g, h);
  }

  lemma SameBracket(g: string, h: string)
    requires DestinationHostError(g).None? && DestinationHostError(h).None?
    requires Bracket(g) == Bracket(h)
    ensures g == h
  {
    DestinationIsPlain(g);
    DestinationIsPlain(h);
    hide DestinationHostError;
    assert ':' in g <==> ':' in Bracket(g);
    assert ':' in h <==> ':' in Bracket(h);
    BracketInjective(g, h);
  }

  lemma SameListener(a: string, m: nat, b: string, n: nat)
    requires BindAddressError(a).None? && BindAddressError(b).None?
    requires Endpoint(a, m) == Endpoint(b, n)
    ensures a == b && m == n
  {
    hide Decimal, BindAddressError;
    BracketAhead(a, Decimal(m), b, Decimal(n));
    DecimalInjective(m, n);
  }

  lemma SamePair(a: string, p: nat, g: string, m: nat, b: string, q: nat, h: string, n: nat)
    requires BindAddressError(a).None? && BindAddressError(b).None?
    requires DestinationHostError(g).None? && DestinationHostError(h).None?
    requires Endpoint(a, p) + ":" + Endpoint(g, m) == Endpoint(b, q) + ":" + Endpoint(h, n)
    ensures a == b && p == q && g == h && m == n
  {
    hide Decimal, BindAddressError, DestinationHostError, Bracket;
    var x, y := Decimal(p) + ":" + Endpoint(g, m), Decimal(q) + ":" + Endpoint(h, n);
    assert Endpoint(a, p) + ":" + Endpoint(g, m) == Bracket(a) + ":" + x;
    assert Endpoint(b, q) + ":" + Endpoint(h, n) == Bracket(b) + ":" + y;
    BracketAhead(a, x, b, y);
    NumberAhead(p, Endpoint(g, m), q, Endpoint(h, n));
    SameDestination(g, m, h, n);
  }

  /** Two valid forwardings with the same option and argument are the same. */
  lemma ArgumentIsUnambiguous(f: Forwarding, g: Forwarding)
    requires ValidForwarding(f) && ValidForwarding(g)
    requires ForwardingArgument(f) == ForwardingArgument(g)
    ensures f == g
  {
    hide Endpoint, BindAddressError, DestinationHostError;
    FlagsDiffer(f, g);
    if f.Dynamic? {
      SameListener(f.bindAddress, f.bindPort, g.bindAddress, g.bindPort);
    } else {
      SamePair(f.bindAddress, f.bindPort, f.destinationHost, f.destinationPort,
               g.bindAddress, g.bindPort, g.destinationHost, g.destinationPort);
    }
  }

  lemma FlagsDiffer(f: Forwarding, g: Forwarding)
    requires ForwardingArgument(f).0 == ForwardingArgument(g).0
    ensures f.Local? == g.Local? && f.Remote? == g.Remote? && f.Dynamic? == g.Dynamic?
  {
    hide Endpoint;
    assert "-L"[1] != "-R"[1] && "-L"[1] != "-D"[1] && "-R"[1] != "-D"[1];
  }

  // ----- how ssh reads the argument

  // A host and what follows its colon: in brackets, or up to the first colon.
  function ReadHost(text: string): Option<(string, string)> {
    if text != "" && text[0] == '[' then
      match SplitOnce(text[1..], ']')
      case None => None
      case Some((host, rest)) => if rest != "" && rest[0] == ':' then Some((host, rest[1..])) else None
    else SplitOnce(text, ':')
  }

  // `-D [bind_address:]port` with its address.
  function ReadListener(text: string): Option<(string, u16)> {
    match ReadHost(text)
    case None => None
    case Some((host, port)) => if ParseU16(port).Some? then Some((host, ParseU16(port).value)) else None
  }

  // `-L` and `-R` with all four parts, `[bind_address:]port:host:hostport`, as ssh(1) describes them.
  function ReadArgument(option: string, text: string): Option<Forwarding> {
    if option == "-D" then
      match ReadListener(text)
      case None => None
      case Some((address, port)) => Some(Dynamic(address, port))
    else
      match ReadHost(text)
      case None => None
      case Some((address, rest)) =>
        match SplitOnce(rest, ':')
        case None => None
        case Some((port, destination)) =>
          match ReadListener(destination)
          case None => None
          case Some((host, hostPort)) =>
            if ParseU16(port).None? then None
            else if option == "-L" then Some(Local(address, ParseU16(port).value, host, hostPort))
            else if option == "-R" then Some(Remote(address, ParseU16(port).value, host, hostPort))
            else None
  }

  lemma HostIsRead(host: string, rest: string)
    requires Plain(host)
    ensures ReadHost(Bracket(host) + ":" + rest) == Some((host, rest))
  {
    hide SplitOnce;
    if ':' in host {
      var inner := (Bracket(host) + ":" + rest)[1..];
      assert inner == host + [']'] + (":" + rest);
      SplitsAt(host, ']', ":" + rest);
      assert (":" + rest)[1..] == rest;
    } else {
      assert Bracket(host) + ":" + rest == host + [':'] + rest;
      SplitsAt(host, ':', rest);
    }
  }

  lemma SplitsAt(before: string, c: char, after: string)
    requires c !in before
    ensures SplitOnce(before + [c] + after, c) == Some((before, after))
  {
    hide Find;
    var text := before + [c] + after;
    assert text[..|before|] == before && text[|before| + 1..] == after;
    FindAt(text, c, |before|);
  }

  lemma ListenerIsRead(host: string, port: u16)
    requires Plain(host)
    ensures ReadListener(Endpoint(host, port)) == Some((host, port))
  {
    hide Decimal, ParseU16, ReadHost, Bracket;
    HostIsRead(host, Decimal(port));
    ParseU16OfDecimal(port);
  }

  lemma PortIsRead(port: u16, rest: string)
    ensures SplitOnce(Decimal(port) + ":" + rest, ':') == Some((Decimal(port), rest))
  {
    hide Decimal, Find;
    NoColonInDecimal(port);
    var text := Decimal(port) + ":" + rest;
    assert text[..|Decimal(port)|] == Decimal(port) && text[|Decimal(port)| + 1..] == rest;
    FindAt(text, ':', |Decimal(port)|);
  }

  lemma BracketedHostIsNotRead(host: string, port: u16)
    requires host != "" && host[0] == '[' && ':' !in host
    ensures ReadListener(Endpoint(host, port)) != Some((host, port))
  {
    var text := Endpoint(host, port);
    assert text[0] == '[';
    match SplitOnce(text[1..], ']')
    case None =>
    case Some((found, rest)) =>
      assert text[1..][|host| - 1] == ':';
      assert |found| == |host| ==> found[|host| - 1] == ':';
  }

  lemma PairIsRead(option: string, address: string, port: u16, host: string, hostPort: u16)
    requires (option == "-L" || option == "-R") && Plain(address)
    ensures ReadArgument(option, Endpoint(address, port) + ":" + Endpoint(host, hostPort)) ==
            match ReadListener(Endpoint(host, hostPort))
            case None => None
            case Some((h, p)) =>
              Some(if option == "-L" then Local(address, port, h, p) else Remote(address, port, h, p))
  {
    var destination := Endpoint(host, hostPort);
    var text := Endpoint(address, port) + ":" + destination;
    hide Endpoint, ReadListener, Decimal, ParseU16, ReadHost, SplitOnce, Bracket;
    assert option[1] != "-D"[1] by { OptionsDiffer(); }
    assert Endpoint(address, port) == Bracket(address) + ":" + Decimal(port) by { EndpointMeans(address, port); }
    assert text == Bracket(address) + ":" + (Decimal(port) + ":" + destination);
    HostIsRead(address, Decimal(port) + ":" + destination);
    PortIsRead(port, destination);
    ParseU16OfDecimal(port);
    OptionsDiffer();
  }

  lemma EndpointMeans(host: string, port: nat)
    ensures Endpoint(host, port) == Bracket(host) + ":" + Decimal(port)
  {
  }

  lemma OptionsDiffer()
    ensures "-L" != "-R" && "-L" != "-D" && "-R" != "-D"
    ensures "-L"[1] != "-D"[1] && "-R"[1] != "-D"[1]
  {
    assert "-L"[1] != "-R"[1];
  }

  /**
   * ssh reads the option and argument as the forwarding they were made from: `-L` for a local one, `-R` for
   * a remote one, `-D` for a dynamic one; exactly if its destination host does not start with '['.
   */
  lemma ArgumentIsRead(f: Forwarding)
    requires ValidForwarding(f)
    ensures var (option, text) := ForwardingArgument(f);
      ReadArgument(option, text) == Some(f) <==> f.Dynamic? || f.destinationHost[0] != '['
  {
    hide Endpoint, ReadListener, ReadArgument, BindAddressError, DestinationHostError;
    BindAddressIsPlain(f.bindAddress);
    match f
    case Dynamic(address, port) =>
      ListenerIsRead(address, port);
      DynamicIsRead(address, port);
    case Local(address, port, host, hostPort) =>
      DestinationIsPlain(host);
      PairIsRead("-L", address, port, host, hostPort);
      if host[0] == '[' { BracketedHostIsNotRead(host, hostPort); } else { ListenerIsRead(host, hostPort); }
    case Remote(address, port, host, hostPort) =>
      DestinationIsPlain(host);
      PairIsRead("-R", address, port, host, hostPort);
      OptionsDiffer();
      if host[0] == '[' { BracketedHostIsNotRead(host, hostPort); } else { ListenerIsRead(host, hostPort); }
  }

  lemma DynamicIsRead(address: string, port: u16)
    requires ReadListener(Endpoint(address, port)) == Some((address, port))
    ensures ReadArgument("-D", Endpoint(address, port)) == Some(Dynamic(address, port))
  {
    hide Endpoint, ReadListener;
  }
}
