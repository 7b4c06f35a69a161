/** Textual IP addresses, as accepted by `std::net::IpAddr::from_str`. */
module Net {
  import opened Wrappers
  import opened Text

  datatype IpAddr = V4(octets: seq<nat>) | V6(groups: seq<nat>)

  predicate IsHexDigit(c: char) {
    IsDigit(c) || 'a' <= c <= 'f' || 'A' <= c <= 'F'
  }

  predicate AddressCharacter(c: char) {
    IsHexDigit(c) || c == ':' || c == '.'
  }

  function HexValue(s: string): nat
    requires forall c :: c in s ==> IsHexDigit(c)
  {
    if s == "" then 0
    else
      var c := s[|s| - 1];
      assert IsHexDigit(c) by { assert c in s; }
      assert forall d :: d in s[..|s| - 1] ==> d in s;
      16 * HexValue(s[..|s| - 1]) +
      (if IsDigit(c) then c as nat - '0' as nat
       else if 'a' <= c then 10 + (c as nat - 'a' as nat)
       else 10 + (c as nat - 'A' as nat))
  }

  // One octet: no leading zero, at most 255.
  function ParseOctet(s: string): (r: Option<nat>)
    ensures r.Some? ==> AllDigits(s)
  {
    if 1 <= |s| <= 3 && AllDigits(s) && (s[0] == '0' ==> |s| == 1) && DecimalValue(s) <= 255
    then Some(DecimalValue(s))
    else None
  }

  // One group of an IPv6 address: one to four hexadecimal digits.
  function ParseGroup(s: string): (r: Option<nat>)
    ensures r.Some? ==> forall c :: c in s ==> IsHexDigit(c)
  {
    if 1 <= |s| <= 4 && (forall c :: c in s ==> IsHexDigit(c)) then Some(HexValue(s)) else None
  }

  function ParseV4(s: string): (r: Option<seq<nat>>)
    ensures r.Some? ==> |r.value| == 4
  {
    var p := Split(s, '.');
    if |p| != 4 then None
    else
      match (ParseOctet(p[0]), ParseOctet(p[1]), ParseOctet(p[2]), ParseOctet(p[3]))
      case (Some(a), Some(b), Some(c), Some(d)) => Some([a, b, c, d])
      case _ => None
  }

  // Colon-separated groups; a dotted IPv4 address may take the place of the last two.
  function ParseGroups(pieces: seq<string>, dotted: bool): (r: Option<seq<nat>>)
  {
    if pieces == [] then Some([])
    else
      match ParseGroup(pieces[0])
      case Some(g) =>
        (match ParseGroups(pieces[1..], dotted)
         case Some(rest) => Some([g] + rest)
         case None => None)
      case None =>
        if !dotted || |pieces| != 1 then None
        else
          match ParseV4(pieces[0])
          case Some(o) => Some([o[0] * 256 + o[1], o[2] * 256 + o[3]])
          case None => None
  }

  function ParsePart(s: string, dotted: bool): Option<seq<nat>> {
    if s == "" then Some([]) else ParseGroups(Split(s, ':'), dotted)
  }

  // Position of the first "::", or the length.
  function FindDoubleColon(s: string): (i: nat)
    ensures i <= |s|
    ensures i < |s| ==> i + 1 < |s| && s[i] == ':' && s[i + 1] == ':'
  {
    if |s| < 2 then |s|
    else if s[0] == ':' && s[1] == ':' then 0
    else 1 + FindDoubleColon(s[1..])
  }

  function Zeros(n: nat): (z: seq<nat>)
    ensures |z| == n
  {
    seq(n, _ => 0)
  }

  function ParseV6(s: string): (r: Option<seq<nat>>)
    ensures r.Some? ==> |r.value| == 8
  {
    var i := FindDoubleColon(s);
    if i == |s| then
      match ParsePart(s, true)
      case Some(g) => if |g| == 8 then Some(g) else None
      case None => None
    else
      match (ParsePart(s[..i], false), ParsePart(s[i + 2..], true))
      case (Some(head), Some(tail)) =>
        if |head| + |tail| <= 7 then Some(head + Zeros(8 - |head| - |tail|) + tail) else None
      case _ => None
  }

  function ParseIp(s: string): Option<IpAddr> {
    match ParseV4(s)
    case Some(octets) => Some(V4(octets))
    case None =>
      match ParseV6(s)
      case Some(groups) => Some(V6(groups))
      case None => None
  }

  predicate IsUnspecified(a: IpAddr) {
    match a
    case V4(o) => o == Zeros(4)
    case V6(g) => g == Zeros(8)
  }

  predicate IsLoopback(a: IpAddr) {
    match a
    case V4(o) => o != [] && o[0] == 127
    case V6(g) => g == Zeros(7) + [1]
  }

  // ----- the characters an accepted address can contain

  lemma V4Characters(s: string)
    requires ParseV4(s).Some?
    ensures forall c :: c in s ==> IsDigit(c) || c == '.'
  {
    forall c | c in s ensures IsDigit(c) || c == '.' {
      var k :| 0 <= k < |s| && s[k] == c;
      SplitCoversCharacters(s, '.', k);
      if c != '.' {
        var p: nat :| InPiece(Split(s, '.'), p, s[k]);
        assert ParseOctet(Split(s, '.')[p]).Some?;
      }
    }
  }

  lemma {:induction false} GroupsCharacters(pieces: seq<string>, dotted: bool, p: nat)
    requires ParseGroups(pieces, dotted).Some? && p < |pieces|
    ensures forall c :: c in pieces[p] ==> AddressCharacter(c)
  {
    if ParseGroup(pieces[0]).Some? {
      if p > 0 { GroupsCharacters(pieces[1..], dotted, p - 1); }
    } else {
      V4Characters(pieces[0]);
    }
  }

  lemma PartCharacters(s: string, dotted: bool)
    requires ParsePart(s, dotted).Some?
    ensures forall c :: c in s ==> AddressCharacter(c)
  {
    forall c | c in s ensures AddressCharacter(c) {
      var k :| 0 <= k < |s| && s[k] == c;
      SplitCoversCharacters(s, ':', k);
      if c != ':' {
        var p: nat :| InPiece(Split(s, ':'), p, s[k]);
        GroupsCharacters(Split(s, ':'), dotted, p);
      }
    }
  }

  lemma OnePieceIsShort(s: string)
    requires ParsePart(s, true).Some? && ':' !in s
    ensures |ParsePart(s, true).value| <= 2
  {
    if s != "" {
      assert Split(s, ':') == [s] by { SplitUnfolds(s, ':'); }
      OnePieceGroups(s);
    }
  }

  lemma OnePieceGroups(s: string)
    requires ParseGroups([s], true).Some?
    ensures |ParseGroups([s], true).value| <= 2
  {
    hide ParseGroup, ParseV4;
    assert [s][1..] == [];
  }

  lemma V6Characters(s: string)
    requires ParseV6(s).Some?
    ensures ':' in s && forall c :: c in s ==> AddressCharacter(c)
  {
    hide ParsePart, AddressCharacter;
    var i := FindDoubleColon(s);
    if i == |s| {
      PartCharacters(s, true);
      if ':' !in s { OnePieceIsShort(s); }
    } else {
      PartCharacters(s[..i], false);
      PartCharacters(s[i + 2..], true);
      assert s == s[..i] + [s[i], s[i + 1]] + s[i + 2..];
      assert AddressCharacter(':') by { ColonIsAddressCharacter(); }
      hide FindDoubleColon, ParseV6;
    }
  }

  lemma ColonIsAddressCharacter()
    ensures AddressCharacter(':')
  {
  }

  /** An accepted address is non-empty, has only address characters, and has a colon exactly when it is IPv6. */
  lemma IpCharacters(s: string)
    requires ParseIp(s).Some?
    ensures s != ""
    ensures forall c :: c in s ==> AddressCharacter(c)
    ensures ParseIp(s).value.V6? <==> ':' in s
  {
    if ParseV4(s).Some? {
      V4Characters(s);
    } else {
      V6Characters(s);
    }
  }

  // ----- exactly which texts are addresses, and of what

  function Joined(pieces: seq<string>, c: char): string
    requires pieces != []
  {
    if |pieces| == 1 then pieces[0] else pieces[0] + [c] + Joined(pieces[1..], c)
  }

  lemma {:induction false} SplitJoins(s: string, c: char)
    ensures Joined(Split(s, c), c) == s
    decreases |s|
  {
    hide Split, Find;
    SplitUnfolds(s, c);
    var i := Find(s, c);
    if i < |s| {
      SplitJoins(s[i + 1..], c);
      var pieces := Split(s[i + 1..], c);
      assert ([s[..i]] + pieces)[1..] == pieces;
      assert s == s[..i] + [c] + s[i + 1..];
    }
  }

  lemma {:induction false} JoinedSplits(pieces: seq<string>, c: char)
    requires pieces != [] && forall p :: p in pieces ==> c !in p
    ensures Split(Joined(pieces, c), c) == pieces
  {
    hide Split, Find;
    var s := Joined(pieces, c);
    assert pieces[0] in pieces;
    SplitUnfolds(s, c);
    if |pieces| > 1 {
      assert forall p :: p in pieces[1..] ==> p in pieces;
      JoinedSplits(pieces[1..], c);
      assert s[..|pieces[0]|] == pieces[0] && s[|pieces[0]| + 1..] == Joined(pieces[1..], c);
      FindAt(s, c, |pieces[0]|);
      assert pieces == [pieces[0]] + pieces[1..];
    }
  }

  lemma {:induction false} NoLeadingZero(n: nat)
    ensures Decimal(n)[0] == '0' ==> n == 0
  {
    if n >= 10 { NoLeadingZero(n / 10); }
  }

  lemma {:induction false} DigitsAreDecimal(s: string)
    requires s != "" && AllDigits(s) && (s[0] == '0' ==> |s| == 1)
    ensures Decimal(DecimalValue(s)) == s
  {
    var n := |s| - 1;
    var front := s[..n];
    assert s[n] in s && forall c :: c in front ==> c in s;
    var d := s[n] as nat - '0' as nat;
    assert DecimalValue(s) == 10 * DecimalValue(front) + d && Digit(d) == s[n];
    if n == 0 {
      assert DecimalValue(front) == 0;
    } else {
      DigitsAreDecimal(front);
      ZeroSpelled();
      hide DecimalValue, Decimal;
      DecimalUnfolds(DecimalValue(front), d);
      assert s == front + [s[n]];
    }
  }

  lemma DecimalUnfolds(n: nat, d: nat)
    requires 0 < n && d < 10
    ensures Decimal(10 * n + d) == Decimal(n) + [Digit(d)]
  {
    assert (10 * n + d) / 10 == n && (10 * n + d) % 10 == d;
  }

  /** One octet is exactly the decimal spelling of a number up to 255. */
  lemma OctetExactly(s: string, v: nat)
    ensures ParseOctet(s) == Some(v) <==> v <= 255 && s == Decimal(v)
  {
    hide Decimal, DecimalValue;
    if ParseOctet(s) == Some(v) { DigitsAreDecimal(s); }
    if v <= 255 && s == Decimal(v) {
      DecimalRoundTrip(v);
      NoLeadingZero(v);
      assert Decimal(0) == "0" by { ZeroSpelled(); }
      assert Power10(3) == 1000;
      DecimalLength(v, 3);
    }
  }

  lemma ZeroSpelled()
    ensures Decimal(0) == "0"
  {
  }

  function Dotted(o: seq<nat>): string
    requires |o| == 4
  {
    Joined([Decimal(o[0]), Decimal(o[1]), Decimal(o[2]), Decimal(o[3])], '.')
  }

  predicate Octets(o: seq<nat>) { |o| == 4 && forall i :: 0 <= i < 4 ==> o[i] <= 255 }

  lemma NoDotInDecimal(n: nat)
    ensures '.' !in Decimal(n)
  {
  }

  /** An IPv4 address is exactly four octets joined by dots. */
  lemma V4Exactly(s: string, o: seq<nat>)
    ensures ParseV4(s) == Some(o) <==> Octets(o) && s == Dotted(o)
  {
    hide ParseOctet, Split, Decimal, Joined;
    var p := Split(s, '.');
    if ParseV4(s) == Some(o) {
      OctetExactly(p[0], o[0]);
      OctetExactly(p[1], o[1]);
      OctetExactly(p[2], o[2]);
      OctetExactly(p[3], o[3]);
      SplitJoins(s, '.');
      assert p == [Decimal(o[0]), Decimal(o[1]), Decimal(o[2]), Decimal(o[3])];
    }
    if Octets(o) && s == Dotted(o) {
      forall i | 0 <= i < 4 ensures '.' !in Decimal(o[i]) { NoDotInDecimal(o[i]); }
      JoinedSplits([Decimal(o[0]), Decimal(o[1]), Decimal(o[2]), Decimal(o[3])], '.');
      OctetExactly(Decimal(o[0]), o[0]);
      OctetExactly(Decimal(o[1]), o[1]);
      OctetExactly(Decimal(o[2]), o[2]);
      OctetExactly(Decimal(o[3]), o[3]);
      assert [o[0], o[1], o[2], o[3]] == o;
    }
  }

  // ----- IPv6 addresses as they are written, in full or with one gap

  function HexDigit(d: nat): (c: char)
    requires d < 16
    ensures IsHexDigit(c) && c != ':'
  {
    if d < 10 then Digit(d) else ('a' as nat + (d - 10)) as char
  }

  function Hex(n: nat): (s: string)
    ensures s != "" && (forall c :: c in s ==> IsHexDigit(c)) && ':' !in s
  {
    if n < 16 then [HexDigit(n)] else Hex(n / 16) + [HexDigit(n % 16)]
  }

  lemma {:induction false} HexRoundTrip(n: nat)
    ensures HexValue(Hex(n)) == n
  {
    var s := Hex(n);
    if n < 16 {
      assert s[..0] == "";
    } else {
      HexRoundTrip(n / 16);
      assert s[..|s| - 1] == Hex(n / 16);
    }
  }

  lemma HexIsShort(n: nat)
    requires n < 0x1_0000
    ensures |Hex(n)| <= 4
  {
    assert n / 16 < 0x1000 && n / 16 / 16 < 0x100 && n / 16 / 16 / 16 < 0x10;
    assert |Hex(n / 16 / 16 / 16)| == 1;
    assert |Hex(n / 16 / 16)| <= 2;
    assert |Hex(n / 16)| <= 3;
  }

  predicate Groups(g: seq<nat>) { forall v :: v in g ==> v < 0x1_0000 }

  function Hexes(g: seq<nat>): (pieces: seq<string>)
    ensures |pieces| == |g|
    ensures forall i :: 0 <= i < |g| ==> pieces[i] == Hex(g[i])
  {
    seq(|g|, i requires 0 <= i < |g| => Hex(g[i]))
  }

  function Written(g: seq<nat>): string {
    if g == [] then "" else Joined(Hexes(g), ':')
  }

  lemma {:induction false} GroupsAreParsed(g: seq<nat>, dotted: bool)
    requires Groups(g)
    ensures ParseGroups(Hexes(g), dotted) == Some(g)
  {
    hide Hex, HexValue;
    if g != [] {
      assert g[0] in g && forall v :: v in g[1..] ==> v in g;
      HexRoundTrip(g[0]);
      HexIsShort(g[0]);
      GroupsAreParsed(g[1..], dotted);
      assert Hexes(g)[1..] == Hexes(g[1..]);
      assert g == [g[0]] + g[1..];
    }
  }

  lemma PartIsParsed(g: seq<nat>, dotted: bool)
    requires Groups(g)
    ensures ParsePart(Written(g), dotted) == Some(g)
  {
    hide Hex, Joined, Split;
    if g != [] {
      JoinedSplits(Hexes(g), ':');
      GroupsAreParsed(g, dotted);
      assert Written(g) != "" by { assert Split("", ':') == [""] by { SplitUnfolds("", ':'); } HexesAreWords(g); }
    }
  }

  lemma HexesAreWords(g: seq<nat>)
    ensures forall p :: p in Hexes(g) ==> p != "" && ':' !in p
  {
  }

  lemma {:induction false} GapIsFound(a: string, b: string)
    requires FindDoubleColon(a) == |a| && (a == "" || a[|a| - 1] != ':')
    ensures FindDoubleColon(a + "::" + b) == |a|
  {
    var s := a + "::" + b;
    assert s[|a|] == ':' && s[|a| + 1] == ':';
    if a != "" {
      assert s[1..] == a[1..] + "::" + b;
      GapIsFound(a[1..], b);
    }
  }

  lemma {:induction false} NoGap(pieces: seq<string>)
    requires pieces != [] && forall p :: p in pieces ==> p != "" && ':' !in p
    ensures var s := Joined(pieces, ':');
      s != "" && FindDoubleColon(s) == |s| && s[|s| - 1] != ':' && s[0] != ':'
  {
    var s := Joined(pieces, ':');
    assert pieces[0] in pieces;
    if |pieces| == 1 {
      NoColonNoGap(s, "");
      assert s + "" == s;
    } else {
      var rest := Joined(pieces[1..], ':');
      assert forall p :: p in pieces[1..] ==> p in pieces;
      NoGap(pieces[1..]);
      assert s == pieces[0] + ([':'] + rest);
      assert ([':'] + rest)[1..] == rest;
      NoColonNoGap(pieces[0], [':'] + rest);
    }
  }

  lemma {:induction false} NoColonNoGap(a: string, rest: string)
    requires a != "" && ':' !in a && FindDoubleColon(rest) == |rest|
    ensures FindDoubleColon(a + rest) == |a + rest|
  {
    var s := a + rest;
    assert s[0] == a[0] && a[0] in a;
    if |a| == 1 {
      assert s[1..] == rest;
    } else {
      assert s[1..] == a[1..] + rest && forall c :: c in a[1..] ==> c in a;
      NoColonNoGap(a[1..], rest);
    }
  }

  lemma WrittenHasNoGap(g: seq<nat>)
    ensures var s := Written(g);
      FindDoubleColon(s) == |s| && (s == "" || s[|s| - 1] != ':')
  {
    hide Hex, Joined;
    if g != [] {
      HexesAreWords(g);
      NoGap(Hexes(g));
    }
  }

  lemma NotV4(s: string)
    requires ':' in s
    ensures ParseV4(s).None?
  {
    if ParseV4(s).Some? { V4Characters(s); }
  }

  /** Eight hexadecimal groups joined by colons are read as that IPv6 address. */
  lemma FullV6IsParsed(g: seq<nat>)
    requires Groups(g) && |g| == 8
    ensures ParseIp(Written(g)) == Some(V6(g))
  {
    WrittenHasNoGap(g);
    PartIsParsed(g, true);
    assert ':' in Written(g);
    NotV4(Written(g));
    hide Written, ParsePart, ParseV4;
  }

  /** Groups around one gap are read as the address with zeros in the gap; a gap stands for at least one group. */
  lemma GappedV6IsParsed(head: seq<nat>, tail: seq<nat>)
    requires Groups(head) && Groups(tail)
    ensures ParseIp(Written(head) + "::" + Written(tail)) ==
            if |head| + |tail| <= 7 then Some(V6(head + Zeros(8 - |head| - |tail|) + tail)) else None
  {
    hide Written, ParsePart, ParseV4, FindDoubleColon;
    WrittenHasNoGap(head);
    GapIsFound(Written(head), Written(tail));
    PartIsParsed(head, false);
    PartIsParsed(tail, true);
    AroundGap(Written(head), Written(tail));
    NotV4(Written(head) + "::" + Written(tail));
  }

  lemma AroundGap(a: string, b: string)
    ensures var s := a + "::" + b;
      |s| > |a| && ':' in s && s[..|a|] == a && s[|a| + 2..] == b
  {
    assert (a + "::" + b)[|a|] == ':';
  }
}
