/** The string operations of Rust's standard library that the daemon relies on. */
module Text {
  import opened Wrappers

  // Unicode general category Cc.
  predicate IsControl(c: char) {
    c < ' ' || '\U{7F}' <= c <= '\U{9F}'
  }

  // Unicode property White_Space.
  predicate IsWhitespace(c: char) {
    || '\U{9}' <= c <= '\U{D}' || c == ' ' || c == '\U{85}' || c == '\U{A0}' || c == '\U{1680}'
    || '\U{2000}' <= c <= '\U{200A}' || c == '\U{2028}' || c == '\U{2029}' || c == '\U{202F}'
    || c == '\U{205F}' || c == '\U{3000}'
  }

  predicate IsDigit(c: char) { '0' <= c <= '9' }

  function LowerAscii(s: string): (r: string)
    ensures |r| == |s|
  {
    seq(|s|, i requires 0 <= i < |s| =>
      if 'A' <= s[i] <= 'Z' then (s[i] as int + 32) as char else s[i])
  }

  function TrimStart(s: string): (r: string)
    ensures r != "" ==> !IsWhitespace(r[0])
    ensures s == "" || !IsWhitespace(s[0]) ==> r == s
    ensures |r| <= |s| && r == s[|s| - |r|..]
  {
    if s != "" && IsWhitespace(s[0]) then TrimStart(s[1..]) else s
  }

  function TrimEnd(s: string): (r: string)
    ensures r != "" ==> !IsWhitespace(r[|r| - 1])
    ensures s == "" || !IsWhitespace(s[|s| - 1]) ==> r == s
    ensures r <= s
  {
    if s != "" && IsWhitespace(s[|s| - 1]) then TrimEnd(s[..|s| - 1]) else s
  }

  function Trim(s: string): string { TrimEnd(TrimStart(s)) }

  lemma TrimIsIdentity(s: string)
    ensures Trim(s) == s <==> s == "" || (!IsWhitespace(s[0]) && !IsWhitespace(s[|s| - 1]))
  {
    var t := TrimStart(s);
    if t != "" && Trim(s) == s {
      assert |t| == |s|;
      assert t == s;
    }
  }

  /** Position of the first `c`, or the length of `s`. */
  function Find(s: string, c: char): (i: nat)
    ensures i <= |s|
    ensures i < |s| ==> s[i] == c
    ensures c !in s[..i]
    ensures i == |s| <==> c !in s
  {
    if s == "" || s[0] == c then 0
    else
      var j := Find(s[1..], c);
      assert s[..j + 1] == [s[0]] + s[1..][..j];
      j + 1
  }

  /** The first position is the only one with no earlier occurrence. */
  lemma FindAt(s: string, c: char, i: nat)
    requires i < |s| && s[i] == c && c !in s[..i]
    ensures Find(s, c) == i
  {
    var j := Find(s, c);
    assert forall k :: 0 <= k < i ==> s[k] == s[..i][k];
    assert forall k :: 0 <= k < j ==> s[k] == s[..j][k];
  }

  /** `split_once` on one character. */
  function SplitOnce(s: string, c: char): Option<(string, string)> {
    var i := Find(s, c);
    if i == |s| then None else Some((s[..i], s[i + 1..]))
  }

  function FindLast(s: string, c: char): (i: nat)
    ensures i <= |s|
    ensures i < |s| ==> s[i] == c && c !in s[i + 1..]
    ensures i == |s| <==> c !in s
  {
    if s == "" then 0
    else if s[|s| - 1] == c then |s| - 1
    else
      var front := s[..|s| - 1];
      assert s == front + [s[|s| - 1]];
      var j := FindLast(front, c);
      if j == |front| then |s|
      else
        assert s[j + 1..] == front[j + 1..] + [s[|s| - 1]];
        j
  }

  lemma FindLastAt(s: string, c: char, i: nat)
    requires i < |s| && s[i] == c && c !in s[i + 1..]
    ensures FindLast(s, c) == i
  {
    var j := FindLast(s, c);
    assert forall k :: i < k < |s| ==> s[k] == s[i + 1..][k - i - 1];
    assert forall k :: j < k < |s| ==> s[k] == s[j + 1..][k - j - 1];
  }

  /** `rsplit_once` on one character. */
  function RSplitOnce(s: string, c: char): Option<(string, string)> {
    var i := FindLast(s, c);
    if i == |s| then None else Some((s[..i], s[i + 1..]))
  }

  /** `split` on one character: always at least one piece. */
  function Split(s: string, c: char): (pieces: seq<string>)
    ensures |pieces| >= 1
    decreases |s|
  {
    var i := Find(s, c);
    if i == |s| then [s] else [s[..i]] + Split(s[i + 1..], c)
  }

  predicate InPiece(pieces: seq<string>, p: nat, c: char) {
    p < |pieces| && c in pieces[p]
  }

  lemma SplitUnfolds(s: string, c: char)
    ensures var i := Find(s, c);
      Split(s, c) == if i == |s| then [s] else [s[..i]] + Split(s[i + 1..], c)
  {
    hide Find;
  }

  lemma {:induction false} SplitCoversCharacters(s: string, c: char, k: nat)
    requires k < |s|
    ensures s[k] == c || exists p: nat :: InPiece(Split(s, c), p, s[k])
    decreases |s|
  {
    hide Split, Find;
    SplitUnfolds(s, c);
    var i := Find(s, c);
    if i == |s| {
      assert InPiece(Split(s, c), 0, s[k]);
    } else if k < i {
      assert s[..i][k] == s[k];
      assert InPiece(Split(s, c), 0, s[k]);
    } else if k > i {
      var rest := s[i + 1..];
      assert rest[k - i - 1] == s[k];
      SplitCoversCharacters(rest, c, k - i - 1);
      if s[k] != c {
        var p: nat :| InPiece(Split(rest, c), p, s[k]);
        assert InPiece(Split(s, c), p + 1, s[k]);
      }
    }
  }

  /** Position of the first whitespace character, or the length. */
  function FindWhitespace(s: string): (i: nat)
    ensures i <= |s|
    ensures i < |s| ==> IsWhitespace(s[i])
    ensures forall k :: 0 <= k < i ==> !IsWhitespace(s[k])
  {
    if s == "" || IsWhitespace(s[0]) then 0 else 1 + FindWhitespace(s[1..])
  }

  /** `split_once(char::is_whitespace)`. */
  function SplitOnceWhitespace(s: string): Option<(string, string)> {
    var i := FindWhitespace(s);
    if i == |s| then None else Some((s[..i], s[i + 1..]))
  }

  /** `split_whitespace`: the maximal runs of non-whitespace characters. */
  function SplitWhitespace(s: string): (words: seq<string>)
    ensures forall w :: w in words ==> w != ""
    decreases |s|
  {
    var t := TrimStart(s);
    if t == "" then []
    else
      var i := FindWhitespace(t);
      [t[..i]] + SplitWhitespace(t[i..])
  }

  /** `str::lines`: pieces ended by `\n`, one trailing `\r` of a piece dropped, no last empty piece. */
  function Lines(s: string): seq<string>
    decreases |s|
  {
    if s == "" then []
    else
      var i := Find(s, '\n');
      if i == |s| then [s]
      else [DropCarriageReturn(s[..i])] + Lines(s[i + 1..])
  }

  function DropCarriageReturn(s: string): string {
    if s != "" && s[|s| - 1] == '\r' then s[..|s| - 1] else s
  }

  // ----- decimal numbers

  function Digit(d: nat): (c: char)
    requires d < 10
    ensures IsDigit(c) && c as nat - '0' as nat == d
  {
    ('0' as nat + d) as char
  }

  predicate AllDigits(s: string) { forall c :: c in s ==> IsDigit(c) }

  function Decimal(n: nat): (s: string)
    ensures s != "" && AllDigits(s)
  {
    if n < 10 then [Digit(n)] else Decimal(n / 10) + [Digit(n % 10)]
  }

  function DecimalValue(s: string): nat
    requires AllDigits(s)
  {
    if s == "" then 0
    else
      assert s[|s| - 1] in s;
      assert forall c :: c in s[..|s| - 1] ==> c in s;
      10 * DecimalValue(s[..|s| - 1]) + (s[|s| - 1] as nat - '0' as nat)
  }

  lemma {:induction false} DecimalRoundTrip(n: nat)
    ensures DecimalValue(Decimal(n)) == n
  {
    if n < 10 {
      assert Decimal(n)[..0] == "";
    } else {
      DecimalRoundTrip(n / 10);
      var s := Decimal(n / 10) + [Digit(n % 10)];
      assert s[..|s| - 1] == Decimal(n / 10);
    }
  }

  lemma DecimalInjective(m: nat, n: nat)
    requires Decimal(m) == Decimal(n)
    ensures m == n
  {
    DecimalRoundTrip(m);
    DecimalRoundTrip(n);
  }

  function Power10(k: nat): (p: nat)
    ensures p >= 1
  {
    if k == 0 then 1 else 10 * Power10(k - 1)
  }

  lemma {:induction false} DecimalLength(n: nat, k: nat)
    requires k >= 1 && n < Power10(k)
    ensures |Decimal(n)| <= k
  {
    if n >= 10 {
      assert k != 1 by { assert Power10(1) == 10 * Power10(0); }
      assert n / 10 < Power10(k - 1);
      DecimalLength(n / 10, k - 1);
    }
  }

  /** `str::parse::<u16>`: an optional plus sign and at least one digit. */
  function ParseU16(s: string): Option<u16> {
    var digits := if s != "" && s[0] == '+' then s[1..] else s;
    if digits != "" && AllDigits(digits) && DecimalValue(digits) < 0x1_0000
    then Some(DecimalValue(digits))
    else None
  }

  lemma ParseU16OfDecimal(n: nat)
    requires n < 0x1_0000
    ensures ParseU16(Decimal(n)) == Some(n)
  {
    DecimalRoundTrip(n);
    assert Decimal(n)[0] in Decimal(n);
  }
}
