/** The forwardings that `ssh -G` prints are the ones the preview shows. */
module EffectiveConfig {
  import opened Wrappers
  import opened Text
  import opened Rules
  import opened Endpoints
  import opened Arguments
  import opened Import
  import Net

  // ----- words of a line

  predicate Word(w: string) { w != "" && forall c :: c in w ==> !IsWhitespace(c) }

  lemma FirstSpace(w: string, rest: string)
    requires Word(w)
    ensures FindWhitespace(w + " " + rest) == |w|
  {
    var s := w + " " + rest;
    assert s[|w|] == ' ' && forall k :: 0 <= k < |w| ==> s[k] == w[k] && w[k] in w;
  }

  lemma NoSpace(w: string)
    requires Word(w)
    ensures FindWhitespace(w) == |w|
  {
    assert forall k :: 0 <= k < |w| ==> w[k] in w;
  }

  lemma SplitUnfolds(s: string)
    requires s != "" && !IsWhitespace(s[0])
    ensures SplitWhitespace(s) == [s[..FindWhitespace(s)]] + SplitWhitespace(s[FindWhitespace(s)..])
  {
  }

  lemma OneWord(w: string)
    requires Word(w)
    ensures SplitWhitespace(w) == [w]
  {
    hide SplitWhitespace, FindWhitespace, IsWhitespace;
    NoSpace(w);
    assert w[0] in w;
    SplitUnfolds(w);
    assert w[|w|..] == "" && w[..|w|] == w;
    NoWords();
  }

  lemma NoWords()
    ensures SplitWhitespace("") == []
  {
  }

  lemma SpaceBefore(w: string)
    requires Word(w)
    ensures SplitWhitespace(" " + w) == SplitWhitespace(w)
  {
    assert w[0] in w;
    assert (" " + w)[1..] == w;
    assert TrimStart(" " + w) == TrimStart(w);
  }

  lemma TwoWords(v: string, w: string)
    requires Word(v) && Word(w)
    ensures SplitWhitespace(v + " " + w) == [v, w]
  {
    hide SplitWhitespace, FindWhitespace, IsWhitespace;
    var s := v + " " + w;
    FirstSpace(v, w);
    StartsLike(v, w);
    SplitUnfolds(s);
    assert s[..|v|] == v;
    assert s[|v|..] == " " + w;
    SpaceBefore(w);
    OneWord(w);
  }

  lemma StartsLike(v: string, w: string)
    requires Word(v)
    ensures var s := v + " " + w; s != "" && !IsWhitespace(s[0])
  {
    var s := v + " " + w;
    assert s[0] == v[0] && v[0] in v;
  }

  // ----- endpoints, with the host in brackets or bare

  predicate Spells(text: string, host: string, port: nat) {
    || (text == "[" + host + "]" + ":" + Decimal(port) && ']' !in host)
    || (text == host + ":" + Decimal(port) && host != "" && host[0] != '[')
  }

  lemma SpelledIsSplit(text: string, host: string, port: u16)
    requires Spells(text, host, port) && host != "" && port != 0
    ensures SplitEndpoint(text) == Ok((host, port))
  {
    hide Decimal, ParseU16, HostAndPort;
    ParseU16OfDecimal(port);
    NoColonInDecimal(port);
    if text == "[" + host + "]" + ":" + Decimal(port) && ']' !in host {
      BracketedSplits(host, Decimal(port));
    } else {
      BareSplits(host, Decimal(port));
    }
  }

  lemma DecimalIsWord(port: nat)
    ensures Word(Decimal(port)) && '/' !in Decimal(port)
  {
    hide Decimal;
    forall c | c in Decimal(port) ensures !IsWhitespace(c) && c != '/' { assert IsDigit(c); }
  }

  lemma SpelledIsWord(text: string, host: string, port: nat)
    requires Spells(text, host, port) && Word(host)
    ensures Word(text) && ('/' in text <==> '/' in host) && !AllDigits(text)
  {
    hide Decimal, IsWhitespace;
    DecimalIsWord(port);
    assert !IsWhitespace('[') && !IsWhitespace(']') && !IsWhitespace(':') by { Marks(); }
    assert ':' in text && !IsDigit(':');
    forall c ensures c in text ==> c in host || c in Decimal(port) || c in "[]:" {}
    forall c | c in host ensures c in text {}
  }

  lemma Marks()
    ensures !IsWhitespace('[') && !IsWhitespace(']') && !IsWhitespace(':')
  {
  }

  lemma AddressIsWord(address: string)
    requires BindAddressError(address).None?
    ensures Word(address) && '/' !in address && ']' !in address && address[0] != '['
  {
    hide Net.ParseIp;
    if Net.ParseIp(address).Some? {
      Net.IpCharacters(address);
      assert address[0] in address;
    } else {
      assert address == "localhost" || address == "*";
    }
  }

  lemma HostIsWord(host: string)
    requires DestinationHostError(host).None?
    ensures Word(host)
  {
    hide Trim, Net.ParseIp;
  }

  // ----- the value of a directive

  function KindFor(f: Forwarding): DirectiveKind {
    match f
    case Local(_, _, _, _) => LocalForward
    case Remote(_, _, _, _) => RemoteForward
    case Dynamic(_, _) => DynamicForward
  }

  // The value of a directive asking for this forwarding.
  predicate SpellsForward(value: string, f: Forwarding) {
    if f.Dynamic? then Spells(value, f.bindAddress, f.bindPort)
    else exists i :: 0 <= i < |value| && SpellsAround(value, i, f)
  }

  predicate SpellsAround(value: string, i: nat, f: Forwarding)
    requires i < |value| && !f.Dynamic?
  {
    && value[i] == ' ' && Spells(value[..i], f.bindAddress, f.bindPort)
    && Spells(value[i + 1..], f.destinationHost, f.destinationPort)
  }

  // A path in the place of a host means a socket.
  predicate HasPath(f: Forwarding) { !f.Dynamic? && '/' in f.destinationHost }

  lemma ListenerParses(text: string, address: string, port: u16, defaultBind: string)
    requires BindAddressError(defaultBind).None? && BindAddressError(address).None? && port != 0
    requires Spells(text, address, port)
    ensures ParseListener(text, defaultBind) == Ok((address, port))
  {
    AddressIsWord(address);
    SpelledIsWord(text, address, port);
    SpelledIsSplit(text, address, port);
    hide Spells, SplitEndpoint, BindAddressError, AllDigits;
  }

  lemma DestinationParses(text: string, host: string, port: u16)
    requires DestinationHostError(host).None? && port != 0 && Spells(text, host, port)
    ensures ParseDestination(text) == Ok((host, port))
  {
    HostIsWord(host);
    SpelledIsSplit(text, host, port);
    hide Spells, SplitEndpoint, DestinationHostError;
  }

  lemma PairHasSocket(l: string, d: string)
    ensures HasSocket([l, d]) <==> '/' in l || '/' in d
  {
    var fields := [l, d];
    assert fields[0] == l && fields[1] == d;
    assert '/' in l ==> LooksLikeSocket(fields[0]);
    assert '/' in d ==> LooksLikeSocket(fields[1]);
  }

  lemma OneHasSocket(l: string)
    ensures HasSocket([l]) <==> '/' in l
  {
    var fields := [l];
    assert fields[0] == l;
    assert '/' in l ==> LooksLikeSocket(fields[0]);
  }

  lemma PairParses(kind: DirectiveKind, l: string, d: string, defaultBind: string, host: string, port: u16)
    requires BindAddressError(defaultBind).None? && DestinationHostError(host).None? && port != 0
    requires Word(l) && '/' !in l && Spells(d, host, port) && !kind.DynamicForward?
    ensures var bind := if kind.RemoteForward? then "localhost" else defaultBind;
      var listener := ParseListener(l, bind);
      ParseForward(kind, l + " " + d, defaultBind) ==
        if '/' in host then Err(Unsupported(UnixSocket))
        else if listener.Err? then Err(listener.error)
        else if kind.LocalForward? then Ok(Local(listener.value.0, listener.value.1, host, port))
        else Ok(Remote(listener.value.0, listener.value.1, host, port))
  {
    hide Spells, ParseListener, ParseDestination, SplitWhitespace, BindAddressError, DestinationHostError, Word,
      HasSocket, ParseFields;
    HostIsWord(host);
    SpelledIsWord(d, host, port);
    TwoWords(l, d);
    PairHasSocket(l, d);
    DestinationParses(d, host, port);
    FieldsParse(kind, l, d, defaultBind, host, port);
  }

  lemma FieldsParse(kind: DirectiveKind, l: string, d: string, defaultBind: string, host: string, port: u16)
    requires BindAddressError(defaultBind).None? && !kind.DynamicForward? && ParseDestination(d) == Ok((host, port))
    ensures var listener := ParseListener(l, if kind.RemoteForward? then "localhost" else defaultBind);
      ParseFields(kind, [l, d], defaultBind) ==
        if HasSocket([l, d]) then Err(Unsupported(UnixSocket))
        else if listener.Err? then Err(listener.error)
        else if kind.LocalForward? then Ok(Local(listener.value.0, listener.value.1, host, port))
        else Ok(Remote(listener.value.0, listener.value.1, host, port))
  {
    hide ParseListener, ParseDestination, BindAddressError, DestinationHostError, HasSocket;
    LocalhostBinds();
  }

  lemma SingleParses(kind: DirectiveKind, l: string, defaultBind: string)
    requires BindAddressError(defaultBind).None? && Word(l) && '/' !in l && !kind.LocalForward?
    ensures var listener := ParseListener(l, if kind.RemoteForward? then "localhost" else defaultBind);
      ParseForward(kind, l, defaultBind) ==
        if listener.Err? then Err(listener.error)
        else if kind.RemoteForward? then Err(Unsupported(RemoteDynamic))
        else Ok(Dynamic(listener.value.0, listener.value.1))
  {
    OneWord(l);
    OneHasSocket(l);
    hide ParseListener, SplitWhitespace, BindAddressError, Word, HasSocket;
  }

  /** A directive's value is read as the forwarding it spells, exactly if no path stands for its host. */
  lemma SpelledForwardIsRead(f: Forwarding, value: string, defaultBind: string)
    requires ValidForwarding(f) && SpellsForward(value, f) && BindAddressError(defaultBind).None?
    ensures ParseForward(KindFor(f), value, defaultBind) ==
            if HasPath(f) then Err(Unsupported(UnixSocket)) else Ok(f)
  {
    hide Spells, BindAddressError, DestinationHostError, ParseListener, SplitWhitespace;
    AddressIsWord(f.bindAddress);
    if f.Dynamic? {
      SpelledIsWord(value, f.bindAddress, f.bindPort);
      ListenerParses(value, f.bindAddress, f.bindPort, defaultBind);
      SingleParses(DynamicForward, value, defaultBind);
      hide ParseForward;
    } else {
      var i :| 0 <= i < |value| && SpellsAround(value, i, f);
      var l, d := value[..i], value[i + 1..];
      assert value == l + " " + d;
      SpelledIsWord(l, f.bindAddress, f.bindPort);
      LocalhostBinds();
      ListenerParses(l, f.bindAddress, f.bindPort, if f.Remote? then "localhost" else defaultBind);
      PairParses(KindFor(f), l, d, defaultBind, f.destinationHost, f.destinationPort);
      hide ParseForward;
    }
  }

  lemma LocalhostBinds()
    ensures BindAddressError("localhost").None?
  {
  }

  lemma BarePortParses(port: u16, defaultBind: string)
    requires BindAddressError(defaultBind).None? && port != 0
    ensures ParseListener(Decimal(port), defaultBind) == Ok((defaultBind, port))
  {
    ParseU16OfDecimal(port);
    hide Decimal, ParseU16, BindAddressError;
  }

  /** A listener that is only a port is bound to the default address, a remote one to localhost. */
  lemma BarePortIsBound(f: Forwarding, d: string, defaultBind: string)
    requires ValidForwarding(f) && BindAddressError(defaultBind).None? && !HasPath(f)
    requires f.bindAddress == if f.Remote? then "localhost" else defaultBind
    requires !f.Dynamic? ==> Spells(d, f.destinationHost, f.destinationPort)
    ensures var value := if f.Dynamic? then Decimal(f.bindPort) else Decimal(f.bindPort) + " " + d;
      ParseForward(KindFor(f), value, defaultBind) == Ok(f)
  {
    var port := Decimal(f.bindPort);
    DecimalIsWord(f.bindPort);
    LocalhostBinds();
    BarePortParses(f.bindPort, if f.Remote? then "localhost" else defaultBind);
    hide Spells, Decimal, BindAddressError, DestinationHostError, ParseListener, SplitWhitespace;
    if f.Dynamic? {
      SingleParses(DynamicForward, port, defaultBind);
      hide ParseForward;
    } else {
      PairParses(KindFor(f), port, d, defaultBind, f.destinationHost, f.destinationPort);
      hide ParseForward;
    }
  }

  /** A remote forwarding without a destination would be a remote proxy, which is not supported. */
  lemma RemoteProxyIsUnsupported(value: string, address: string, port: u16, defaultBind: string)
    requires BindAddressError(address).None? && BindAddressError(defaultBind).None? && port != 0
    requires Spells(value, address, port)
    ensures ParseForward(RemoteForward, value, defaultBind) == Err(Unsupported(RemoteDynamic))
  {
    AddressIsWord(address);
    SpelledIsWord(value, address, port);
    LocalhostBinds();
    ListenerParses(value, address, port, "localhost");
    hide Spells, BindAddressError, ParseListener, ParseForward;
    SingleParses(RemoteForward, value, defaultBind);
  }

  // ----- what is reported of a directive that is no forwarding

  predicate BadPortText(port: string) { ParseU16(port).None? || ParseU16(port) == Some(0) }

  /** A port that is no number from 1 to 65535 is reported as such. */
  lemma BadPortIsReported(host: string, port: string)
    requires host != "" && host[0] != '[' && ':' !in port && BadPortText(port)
    ensures SplitEndpoint(host + ":" + port) == Err(Invalid(BadPort))
  {
    BareSplits(host, port);
    hide ParseU16, HostAndPort;
  }

  /** So is a bind address or a destination host that is none. */
  lemma BadHostIsReported(text: string, host: string, port: u16, defaultBind: string)
    requires Spells(text, host, port) && Word(host) && port != 0 && BindAddressError(defaultBind).None?
    ensures BindAddressError(host).Some? ==> ParseListener(text, defaultBind) == Err(Invalid(BadBindAddress))
    ensures DestinationHostError(host).Some? ==> ParseDestination(text) == Err(Invalid(BadDestinationHost))
  {
    SpelledIsWord(text, host, port);
    SpelledIsSplit(text, host, port);
    hide Spells, SplitEndpoint, BindAddressError, DestinationHostError, AllDigits;
  }

  /** A listener or destination error is the directive's error, the listener's first. */
  lemma BadPartIsReported(kind: DirectiveKind, l: string, d: string, defaultBind: string)
    requires Word(l) && Word(d) && '/' !in l && '/' !in d && !kind.DynamicForward?
    requires BindAddressError(defaultBind).None?
    ensures var listener := ParseListener(l, if kind.RemoteForward? then "localhost" else defaultBind);
      var r := ParseForward(kind, l + " " + d, defaultBind);
      && (listener.Err? ==> r == Err(listener.error))
      && (listener.Ok? && ParseDestination(d).Err? ==> r == Err(ParseDestination(d).error))
  {
    hide ParseFields, ParseListener, ParseDestination, SplitWhitespace, BindAddressError, HasSocket, Word;
    TwoWords(l, d);
    PairHasSocket(l, d);
    LocalhostBinds();
    BadFieldIsReported(kind, l, d, defaultBind);
  }

  lemma BadFieldIsReported(kind: DirectiveKind, l: string, d: string, defaultBind: string)
    requires BindAddressError(defaultBind).None? && BindAddressError("localhost").None?
    requires !HasSocket([l, d]) && !kind.DynamicForward?
    ensures var listener := ParseListener(l, if kind.RemoteForward? then "localhost" else defaultBind);
      var r := ParseFields(kind, [l, d], defaultBind);
      && (listener.Err? ==> r == Err(listener.error))
      && (listener.Ok? && ParseDestination(d).Err? ==> r == Err(ParseDestination(d).error))
  {
    hide ParseListener, ParseDestination, BindAddressError, DestinationHostError, HasSocket;
  }

  // ----- the endpoints as TunnelDeck itself prints them

  function PrintedForward(f: Forwarding): string {
    if f.Dynamic? then Endpoint(f.bindAddress, f.bindPort)
    else Endpoint(f.bindAddress, f.bindPort) + " " + Endpoint(f.destinationHost, f.destinationPort)
  }

  lemma PlainIsSpelled(host: string, port: nat)
    requires Plain(host)
    ensures Spells(Endpoint(host, port), host, port)
  {
    hide Decimal;
  }

  lemma PrintedIsSpelled(f: Forwarding)
    requires ValidForwarding(f) && (!f.Dynamic? ==> f.destinationHost[0] != '[')
    ensures SpellsForward(PrintedForward(f), f)
  {
    BindAddressIsPlain(f.bindAddress);
    PlainIsSpelled(f.bindAddress, f.bindPort);
    if !f.Dynamic? {
      DestinationIsPlain(f.destinationHost);
      PlainIsSpelled(f.destinationHost, f.destinationPort);
      hide Spells, Endpoint, Plain, BindAddressError, DestinationHostError, SpellsForward;
      PairSpells(f, Endpoint(f.bindAddress, f.bindPort), Endpoint(f.destinationHost, f.destinationPort));
    }
  }

  lemma PairSpells(f: Forwarding, l: string, d: string)
    requires !f.Dynamic? && Spells(l, f.bindAddress, f.bindPort) && Spells(d, f.destinationHost, f.destinationPort)
    ensures SpellsForward(l + " " + d, f)
  {
    hide Spells;
    var value := l + " " + d;
    assert value[..|l|] == l && value[|l| + 1..] == d;
    assert SpellsAround(value, |l|, f);
  }

  lemma JoinedIsWord(host: string, port: nat)
    requires Word(host)
    ensures Word(host + ":" + Decimal(port))
  {
    hide Decimal, IsWhitespace;
    DecimalIsWord(port);
    Marks();
    forall c ensures c in host + ":" + Decimal(port) ==> c in host || c in Decimal(port) || c == ':' {}
  }

  lemma ReadDestination(kind: DirectiveKind, l: string, d: string, defaultBind: string)
    requires BindAddressError(defaultBind).None? && Word(l) && Word(d) && !kind.DynamicForward?
    ensures var r := ParseForward(kind, l + " " + d, defaultBind);
      r.Ok? ==> ParseDestination(d) == Ok((r.value.destinationHost, r.value.destinationPort))
  {
    hide ParseFields, ParseDestination, SplitWhitespace, BindAddressError, Word;
    TwoWords(l, d);
    FieldsReadDestination(kind, l, d, defaultBind);
  }

  lemma FieldsReadDestination(kind: DirectiveKind, l: string, d: string, defaultBind: string)
    requires BindAddressError(defaultBind).None? && !kind.DynamicForward?
    ensures var r := ParseFields(kind, [l, d], defaultBind);
      r.Ok? ==> ParseDestination(d) == Ok((r.value.destinationHost, r.value.destinationPort))
  {
    hide ParseListener, ParseDestination, BindAddressError, DestinationHostError, HasSocket;
  }

  lemma BracketedHostIsMisread(f: Forwarding, defaultBind: string)
    requires ValidForwarding(f) && !f.Dynamic? && f.destinationHost[0] == '[' && BindAddressError(defaultBind).None?
    ensures ParseForward(KindFor(f), PrintedForward(f), defaultBind) != Ok(f)
  {
    var host, port := f.destinationHost, f.destinationPort;
    DestinationIsPlain(host);
    HostIsWord(host);
    JoinedIsWord(host, port);
    AddressIsWord(f.bindAddress);
    BindAddressIsPlain(f.bindAddress);
    PlainIsSpelled(f.bindAddress, f.bindPort);
    var l, d := Endpoint(f.bindAddress, f.bindPort), Endpoint(host, port);
    SpelledIsWord(l, f.bindAddress, f.bindPort);
    assert d == host + ":" + Decimal(port);
    BracketedNameIsMisread(host, port);
    hide Endpoint, ParseForward, SplitEndpoint, BindAddressError, DestinationHostError, Word, Spells, Decimal, Plain;
    ReadDestination(KindFor(f), l, d, defaultBind);
  }

  /**
   * A printed forwarding is read back as it was exactly when its destination host neither has a slash nor
   * starts with '['.
   */
  lemma PrintedForwardIsRead(f: Forwarding, defaultBind: string)
    requires ValidForwarding(f) && BindAddressError(defaultBind).None?
    ensures ParseForward(KindFor(f), PrintedForward(f), defaultBind) == Ok(f) <==>
            f.Dynamic? || ('/' !in f.destinationHost && f.destinationHost[0] != '[')
  {
    hide ParseForward, PrintedForward, BindAddressError, DestinationHostError, SpellsForward;
    if !f.Dynamic? { HostIsWord(f.destinationHost); }
    if !f.Dynamic? && f.destinationHost[0] == '[' {
      BracketedHostIsMisread(f, defaultBind);
    } else {
      PrintedIsSpelled(f);
      SpelledForwardIsRead(f, PrintedForward(f), defaultBind);
    }
  }

  // ----- lines of the output, and the preview

  function KeywordFor(f: Forwarding): string {
    match f
    case Local(_, _, _, _) => "localforward"
    case Remote(_, _, _, _) => "remoteforward"
    case Dynamic(_, _) => "dynamicforward"
  }

  // The line asks for this forwarding; the case of its keyword does not matter.
  ghost predicate AsksFor(line: string, f: Forwarding) {
    exists keyword, value :: line == keyword + " " + value && LowerAscii(keyword) == KeywordFor(f)
                             && SpellsForward(value, f)
  }

  lemma KeywordIsWord(keyword: string, f: Forwarding)
    requires LowerAscii(keyword) == KeywordFor(f)
    ensures Word(keyword) && KindOf(keyword) == Some(KindFor(f))
  {
    assert KeywordFor(f)[0] != 'x';
    forall i | 0 <= i < |keyword| ensures !IsWhitespace(keyword[i]) {
      assert LowerAscii(keyword)[i] == KeywordFor(f)[i];
      assert 'a' <= KeywordFor(f)[i] <= 'z';
    }
    assert "localforward"[0] != "remoteforward"[0] && "localforward"[0] != "dynamicforward"[0];
    assert "remoteforward"[0] != "dynamicforward"[0];
  }

  lemma EndsInDigit(text: string, host: string, port: nat)
    requires Spells(text, host, port)
    ensures text != "" && IsDigit(text[|text| - 1])
  {
    hide Decimal;
    var n := Decimal(port);
    assert n[|n| - 1] in n && text[|text| - 1] == n[|n| - 1];
  }

  lemma ValueIsTrimmed(f: Forwarding, value: string)
    requires ValidForwarding(f) && SpellsForward(value, f)
    ensures Trim(value) == value
  {
    hide Spells, BindAddressError, DestinationHostError;
    AddressIsWord(f.bindAddress);
    if f.Dynamic? {
      SpelledIsWord(value, f.bindAddress, f.bindPort);
      EndsInDigit(value, f.bindAddress, f.bindPort);
      assert value[0] in value;
    } else {
      var i :| 0 <= i < |value| && SpellsAround(value, i, f);
      var l, d := value[..i], value[i + 1..];
      SpelledIsWord(l, f.bindAddress, f.bindPort);
      EndsInDigit(d, f.destinationHost, f.destinationPort);
      assert value[0] == l[0] && l[0] in l;
      assert value[|value| - 1] == d[|d| - 1];
    }
    TrimIsIdentity(value);
  }

  lemma LineSplits(keyword: string, value: string)
    requires Word(keyword)
    ensures SplitOnceWhitespace(keyword + " " + value) == Some((keyword, value))
  {
    FirstSpace(keyword, value);
    var line := keyword + " " + value;
    assert line[..|keyword|] == keyword && line[|keyword| + 1..] == value;
  }

  lemma AskedIsDirective(line: string, f: Forwarding, defaultBind: string)
    requires ValidForwarding(f) && AsksFor(line, f) && BindAddressError(defaultBind).None?
    ensures DirectiveOf(line, defaultBind) ==
            Some(Directive(KindFor(f), if HasPath(f) then Err(Unsupported(UnixSocket)) else Ok(f)))
  {
    hide SpellsForward, ParseForward, Trim, SplitOnceWhitespace, LowerAscii, KindOf, KeywordFor, BindAddressError,
      DestinationHostError;
    var keyword, value :| line == keyword + " " + value && LowerAscii(keyword) == KeywordFor(f)
                          && SpellsForward(value, f);
    KeywordIsWord(keyword, f);
    LineSplits(keyword, value);
    ValueIsTrimmed(f, value);
    SpelledForwardIsRead(f, value, defaultBind);
  }

  lemma OtherKeyword(keyword: string)
    requires LowerAscii(keyword) != "localforward" && LowerAscii(keyword) != "remoteforward"
    requires LowerAscii(keyword) != "dynamicforward"
    ensures KindOf(keyword).None?
  {
  }

  lemma LoneWord(keyword: string)
    requires Word(keyword)
    ensures SplitOnceWhitespace(keyword).None?
  {
    NoSpace(keyword);
  }

  /** A line with any other keyword, or with a keyword alone, is no directive. */
  lemma OtherLineIsIgnored(keyword: string, value: string, defaultBind: string)
    requires Word(keyword) && BindAddressError(defaultBind).None?
    requires LowerAscii(keyword) != "localforward" && LowerAscii(keyword) != "remoteforward"
    requires LowerAscii(keyword) != "dynamicforward"
    ensures DirectiveOf(keyword + " " + value, defaultBind).None?
    ensures DirectiveOf(keyword, defaultBind).None?
  {
    hide LowerAscii, SplitOnceWhitespace, ParseForward, KindOf, Trim, BindAddressError, Word;
    OtherKeyword(keyword);
    LoneWord(keyword);
    LineSplits(keyword, value);
  }

  lemma {:induction false} DirectiveAt(lines: seq<string>, i: nat, defaultBind: string)
    requires i < |lines| && BindAddressError(defaultBind).None? && DirectiveOf(lines[i], defaultBind).Some?
    ensures var j := |Directives(lines[..i], defaultBind)|;
      && j < |Directives(lines, defaultBind)|
      && Directives(lines, defaultBind)[j] == DirectiveOf(lines[i], defaultBind).value
    decreases lines
  {
    hide DirectiveOf, BindAddressError;
    var n := |lines| - 1;
    assert lines[..n + 1] == lines;
    DirectivesExtend(lines, n, defaultBind);
    if i < n {
      assert lines[..n][..i] == lines[..i];
      DirectiveAt(lines[..n], i, defaultBind);
    }
  }

  // The place of a line's candidate in the preview: the number of directives above it.
  function PlaceOf(text: string, i: nat): nat
    requires i <= |Lines(text)|
  {
    |Directives(Lines(text)[..i], LocalDefaultBind(text))|
  }

  /** The preview shows, at its place, the forwarding that a line of the output asks for. */
  lemma AskedIsShown(
    alias: string, text: string, existing: seq<Rule>, running: set<RuleId>, i: nat, f: Forwarding)
    requires AliasError(alias).None? && ValidForwarding(f)
    requires i < |Lines(text)| && AsksFor(Lines(text)[i], f)
    ensures PreviewOf(alias, Some(text), existing, running).Ok?
    ensures var shown := PreviewOf(alias, Some(text), existing, running).value.candidates;
      && PlaceOf(text, i) < |shown|
      && shown[PlaceOf(text, i)].kind == KindFor(f)
      && if HasPath(f) then shown[PlaceOf(text, i)].forwarding == None
         else shown[PlaceOf(text, i)].forwarding == Some(f)
  {
    hide Lines, LocalDefaultBind, DirectiveOf, AliasError, ValidForwarding, AsksFor, Scan;
    var lines, bind := Lines(text), LocalDefaultBind(text);
    AskedIsDirective(lines[i], f, bind);
    DirectiveAt(lines, i, bind);
    ShownFaithfully(alias, Directives(lines, bind), existing, running, PlaceOf(text, i));
    hide Directives;
  }

  /** A bare port of a local or dynamic forwarding is shared when a line says so, and is local if none does. */
  lemma SharedByGatewayPorts(text: string, i: nat, keyword: string)
    requires i < |Lines(text)| && Lines(text)[i] == keyword + " yes" && LowerAscii(keyword) == "gatewayports"
    ensures LocalDefaultBind(text) == "*"
  {
    hide Lines, Trim, SplitOnceWhitespace, LowerAscii;
    var line := Lines(text)[i];
    GatewayIsWord(keyword);
    assert line == keyword + " " + "yes";
    LineSplits(keyword, "yes");
    YesIsTrimmed();
    assert SharesGateway(line) && line in Lines(text);
  }

  lemma YesIsTrimmed()
    ensures Trim("yes") == "yes"
  {
    TrimIsIdentity("yes");
  }

  lemma GatewayIsWord(keyword: string)
    requires LowerAscii(keyword) == "gatewayports"
    ensures Word(keyword)
  {
    forall i | 0 <= i < |keyword| ensures !IsWhitespace(keyword[i]) {
      assert LowerAscii(keyword)[i] == "gatewayports"[i];
      assert 'a' <= "gatewayports"[i] <= 'z';
    }
  }

  lemma LocalWithoutGatewayPorts(text: string)
    requires forall line :: line in Lines(text) ==> !("gatewayports" <= LowerAscii(line))
    ensures LocalDefaultBind(text) == "localhost"
  {
    hide Lines;
    forall line | line in Lines(text) ensures !SharesGateway(line) {
      var i := FindWhitespace(line);
      assert LowerAscii(line[..i]) == LowerAscii(line)[..i];
    }
  }

  // ----- a whole output

  function Joined(lines: seq<string>): string {
    if lines == [] then "" else lines[0] + "\n" + Joined(lines[1..])
  }

  predicate PlainLine(line: string) { '\n' !in line && (line != "" ==> line[|line| - 1] != '\r') }

  lemma FirstLine(line: string, rest: string)
    requires PlainLine(line)
    ensures Lines(line + "\n" + rest) == [line] + Lines(rest)
  {
    var text := line + "\n" + rest;
    assert text[|line|] == '\n' && text[..|line|] == line && text[|line| + 1..] == rest;
    FindAt(text, '\n', |line|);
  }

  lemma {:induction false} JoinedLines(lines: seq<string>)
    requires forall line :: line in lines ==> PlainLine(line)
    ensures Lines(Joined(lines)) == lines
  {
    hide Lines, PlainLine;
    if lines == [] {
      assert Lines("") == [] by { NoText(); }
    } else {
      assert lines[0] in lines;
      FirstLine(lines[0], Joined(lines[1..]));
      JoinedLines(lines[1..]);
    }
  }

  lemma NoText()
    ensures Lines("") == []
  {
  }

  lemma WordIsPlain(w: string)
    requires Word(w)
    ensures '\n' !in w
  {
  }

  lemma SpelledValueIsPlain(f: Forwarding, value: string)
    requires ValidForwarding(f) && SpellsForward(value, f)
    ensures '\n' !in value && value != "" && IsDigit(value[|value| - 1])
  {
    hide Spells, BindAddressError, DestinationHostError, Word;
    AddressIsWord(f.bindAddress);
    if f.Dynamic? {
      SpelledIsWord(value, f.bindAddress, f.bindPort);
      WordIsPlain(value);
      EndsInDigit(value, f.bindAddress, f.bindPort);
    } else {
      var i :| 0 <= i < |value| && SpellsAround(value, i, f);
      var l, d := value[..i], value[i + 1..];
      HostIsWord(f.destinationHost);
      SpelledIsWord(l, f.bindAddress, f.bindPort);
      SpelledIsWord(d, f.destinationHost, f.destinationPort);
      WordIsPlain(l);
      WordIsPlain(d);
      EndsInDigit(d, f.destinationHost, f.destinationPort);
      assert value == l + [' '] + d;
    }
  }

  lemma AskedIsPlain(line: string, f: Forwarding)
    requires ValidForwarding(f) && AsksFor(line, f)
    ensures PlainLine(line)
  {
    hide SpellsForward, ValidForwarding, LowerAscii, KeywordFor, Word, IsDigit;
    var keyword, value :| line == keyword + " " + value && LowerAscii(keyword) == KeywordFor(f)
                          && SpellsForward(value, f);
    KeywordIsWord(keyword, f);
    WordIsPlain(keyword);
    SpelledValueIsPlain(f, value);
    assert line[|line| - 1] == value[|value| - 1] && !IsDigit('\r') by { NoDigit(); }
  }

  lemma NoDigit()
    ensures !IsDigit('\r')
  {
  }

  lemma {:induction false} EachIsDirective(lines: seq<string>, fs: seq<Forwarding>, defaultBind: string)
    requires |lines| == |fs| && BindAddressError(defaultBind).None?
    requires forall i :: 0 <= i < |fs| ==> ValidForwarding(fs[i]) && AsksFor(lines[i], fs[i])
    ensures |Directives(lines, defaultBind)| == |lines|
    decreases lines
  {
    hide ValidForwarding, AsksFor, DirectiveOf, BindAddressError;
    if lines != [] {
      var n := |lines| - 1;
      EachIsDirective(lines[..n], fs[..n], defaultBind);
      AskedIsDirective(lines[n], fs[n], defaultBind);
      assert lines[..n + 1] == lines;
      DirectivesExtend(lines, n, defaultBind);
    }
  }

  /** An output that asks for these forwardings, one a line, is shown as exactly these, in order. */
  lemma WholeOutputIsShown(
    alias: string, lines: seq<string>, fs: seq<Forwarding>, existing: seq<Rule>, running: set<RuleId>)
    requires AliasError(alias).None? && |lines| == |fs|
    requires forall i :: 0 <= i < |fs| ==> ValidForwarding(fs[i]) && !HasPath(fs[i]) && AsksFor(lines[i], fs[i])
    ensures PreviewOf(alias, Some(Joined(lines)), existing, running).Ok?
    ensures var shown := PreviewOf(alias, Some(Joined(lines)), existing, running).value.candidates;
      && |shown| == |fs|
      && forall i :: 0 <= i < |fs| ==> shown[i].kind == KindFor(fs[i]) && shown[i].forwarding == Some(fs[i])
  {
    hide ValidForwarding, AsksFor, AliasError, Lines, Joined, Directives, Scan, LocalDefaultBind, HasPath, PlainLine;
    var text := Joined(lines);
    forall line | line in lines ensures PlainLine(line) {
      var i :| 0 <= i < |lines| && lines[i] == line;
      AskedIsPlain(line, fs[i]);
    }
    JoinedLines(lines);
    EachIsDirective(lines, fs, LocalDefaultBind(text));
    forall i | 0 <= i < |fs|
      ensures var shown := PreviewOf(alias, Some(text), existing, running).value.candidates;
        i < |shown| && shown[i].kind == KindFor(fs[i]) && shown[i].forwarding == Some(fs[i])
    {
      EachIsDirective(lines[..i], fs[..i], LocalDefaultBind(text));
      AskedIsShown(alias, text, existing, running, i, fs[i]);
    }
  }
}
