/** Which changes to Cargo.toml the automated review accepts: only simple dependency declarations added. */
module Manifest {
  import opened Wrappers
  import opened Text

  // Python's `str.isspace`.
  predicate IsSpace(c: char) { IsWhitespace(c) || '\U{1C}' <= c <= '\U{1F}' }

  function StripStart(s: string): string {
    if s != "" && IsSpace(s[0]) then StripStart(s[1..]) else s
  }

  function StripEnd(s: string): string {
    if s != "" && IsSpace(s[|s| - 1]) then StripEnd(s[..|s| - 1]) else s
  }

  function Strip(s: string): string { StripEnd(StripStart(s)) }

  predicate NameCharacter(c: char) {
    'A' <= c <= 'Z' || 'a' <= c <= 'z' || IsDigit(c) || c == '_' || c == '-'
  }

  function NameLength(s: string): (n: nat)
    ensures n <= |s|
    ensures n > 0 ==> NameCharacter(s[0])
  {
    if s != "" && NameCharacter(s[0]) then 1 + NameLength(s[1..]) else 0
  }

  datatype Dependency = Dependency(name: string, version: string)

  // After the closing quote: nothing, or a comment.
  predicate OnlyComment(s: string) {
    s == "" || (StripStart(s) != "" && StripStart(s)[0] == '#')
  }

  // A quoted non-empty text without escapes, and nothing after it but a comment.
  function QuotedVersion(quoted: string): Option<string> {
    if quoted == "" || quoted[0] != '"' then None
    else
      var end := Find(quoted[1..], '"');
      var version := quoted[1..][..end];
      if end == |quoted| - 1 || version == "" || '\\' in version || !OnlyComment(quoted[1..][end + 1..]) then None
      else Some(version)
  }

  /** `name = "version"`, with spaces around `=` and a comment allowed. */
  function Declaration(s: string): (d: Option<Dependency>)
    ensures d.Some? ==> s != "" && NameCharacter(s[0])
  {
    var n := NameLength(s);
    var afterName := StripStart(s[n..]);
    if n == 0 || afterName == "" || afterName[0] != '=' then None
    else
      match QuotedVersion(StripStart(afterName[1..]))
      case None => None
      case Some(version) => Some(Dependency(s[..n], version))
  }

  // ----- the same as a pattern: a name, spaces around `=`, a quoted version, and perhaps a comment

  predicate Spaces(s: string) { forall c :: c in s ==> IsSpace(c) }

  predicate AllNameCharacters(s: string) { forall c :: c in s ==> NameCharacter(c) }

  ghost predicate CommentTail(tail: string) {
    tail == "" || exists sp, rest :: Spaces(sp) && tail == sp + (['#'] + rest)
  }

  ghost predicate SpelledVersion(quoted: string, version: string, tail: string) {
    && version != "" && '"' !in version && '\\' !in version && CommentTail(tail)
    && quoted == ['"'] + (version + (['"'] + tail))
  }

  ghost predicate Spelled(s: string, d: Dependency, a: string, b: string, quoted: string) {
    && d.name != "" && AllNameCharacters(d.name) && Spaces(a) && Spaces(b)
    && (exists tail :: SpelledVersion(quoted, d.version, tail))
    && s == d.name + (a + (['='] + (b + quoted)))
  }

  lemma {:induction false} StripStartSkips(sp: string, rest: string)
    requires Spaces(sp) && (rest != "" ==> !IsSpace(rest[0]))
    ensures StripStart(sp + rest) == rest
  {
    if sp == "" {
      assert sp + rest == rest;
    } else {
      assert sp[0] in sp && (sp + rest)[1..] == sp[1..] + rest;
      StripStartSkips(sp[1..], rest);
    }
  }

  // What follows the leading spaces of a text.
  ghost predicate Stripped(s: string, r: string) {
    && |r| <= |s| && s == s[..|s| - |r|] + r && Spaces(s[..|s| - |r|])
    && (r != "" ==> !IsSpace(r[0]))
  }

  lemma StrippedLonger(s: string, r: string)
    requires s != "" && IsSpace(s[0]) && Stripped(s[1..], r)
    ensures Stripped(s, r)
  {
    hide IsSpace;
    var n := |s| - |r|;
    assert s[..n] == [s[0]] + s[1..][..n - 1];
    assert s == [s[0]] + s[1..];
  }

  lemma {:induction false} StripStartSplits(s: string)
    ensures Stripped(s, StripStart(s))
  {
    hide Stripped, IsSpace;
    if s != "" && IsSpace(s[0]) {
      StripStartSplits(s[1..]);
      StrippedLonger(s, StripStart(s));
    } else {
      NothingStripped(s);
    }
  }

  lemma NothingStripped(s: string)
    requires s != "" ==> !IsSpace(s[0])
    ensures Stripped(s, s)
  {
    assert s[..0] == "";
  }

  lemma {:induction false} NameLengthSplits(s: string)
    ensures var n := NameLength(s);
      AllNameCharacters(s[..n]) && (n < |s| ==> !NameCharacter(s[n]))
  {
    if s != "" && NameCharacter(s[0]) {
      NameLengthSplits(s[1..]);
      assert s[..NameLength(s)] == [s[0]] + s[1..][..NameLength(s[1..])];
    }
  }

  lemma {:induction false} NameLengthOf(name: string, rest: string)
    requires AllNameCharacters(name) && (rest != "" ==> !NameCharacter(rest[0]))
    ensures NameLength(name + rest) == |name|
  {
    if name == "" {
      assert name + rest == rest;
    } else {
      assert name[0] in name && (name + rest)[1..] == name[1..] + rest;
      NameLengthOf(name[1..], rest);
    }
  }

  lemma CommentIsTail(s: string)
    ensures OnlyComment(s) <==> CommentTail(s)
  {
    StripStartSplits(s);
    var r := StripStart(s);
    if r != "" && r[0] == '#' {
      assert s == s[..|s| - |r|] + (['#'] + r[1..]);
    }
    if s != "" && CommentTail(s) {
      var sp, rest :| Spaces(sp) && s == sp + (['#'] + rest);
      assert !IsSpace('#');
      StripStartSkips(sp, ['#'] + rest);
    }
  }

  lemma VersionIsSpelled(quoted: string, version: string)
    requires QuotedVersion(quoted) == Some(version)
    ensures exists tail :: SpelledVersion(quoted, version, tail)
  {
    hide OnlyComment, CommentTail, Find;
    var closed := quoted[1..];
    var end := Find(closed, '"');
    var tail := closed[end + 1..];
    CommentIsTail(tail);
    assert version == closed[..end];
    EndsAtQuote(closed, end);
    assert quoted == ['"'] + closed;
    assert SpelledVersion(quoted, version, tail);
  }

  lemma EndsAtQuote(closed: string, end: nat)
    requires end < |closed| && closed[end] == '"'
    ensures closed == closed[..end] + (['"'] + closed[end + 1..])
  {
  }

  lemma SpelledIsVersion(quoted: string, version: string, tail: string)
    requires SpelledVersion(quoted, version, tail)
    ensures QuotedVersion(quoted) == Some(version)
  {
    hide OnlyComment, CommentTail, Find;
    var closed := version + (['"'] + tail);
    assert quoted[1..] == closed && closed[..|version|] == version && closed[|version| + 1..] == tail;
    FindAt(closed, '"', |version|);
    CommentIsTail(tail);
  }

  lemma VersionIsSpelling(quoted: string, version: string)
    ensures QuotedVersion(quoted) == Some(version) <==> exists tail :: SpelledVersion(quoted, version, tail)
  {
    hide QuotedVersion, SpelledVersion;
    if QuotedVersion(quoted) == Some(version) { VersionIsSpelled(quoted, version); }
    if tail :| SpelledVersion(quoted, version, tail) { SpelledIsVersion(quoted, version, tail); }
  }

  lemma SpelledIsDeclared(s: string, d: Dependency, a: string, b: string, quoted: string)
    requires Spelled(s, d, a, b, quoted)
    ensures Declaration(s) == Some(d)
  {
    hide QuotedVersion, CommentTail, NameLength, StripStart;
    VersionIsSpelling(quoted, d.version);
    var fromEquals := ['='] + (b + quoted);
    var afterName := a + fromEquals;
    assert a != "" ==> afterName[0] == a[0] && a[0] in a;
    assert !NameCharacter('=') && !IsSpace('=') && !IsSpace('"');
    NameLengthOf(d.name, afterName);
    assert s[..|d.name|] == d.name && s[|d.name|..] == afterName;
    StripStartSkips(a, fromEquals);
    assert fromEquals[1..] == b + quoted;
    StripStartSkips(b, quoted);
  }

  lemma AfterNameSplits(s: string, afterName: string)
    requires afterName == StripStart(s) && afterName != "" && afterName[0] == '='
    ensures var quoted := StripStart(afterName[1..]);
      exists a, b :: Spaces(a) && Spaces(b) && s == a + (['='] + (b + quoted))
  {
    hide StripStart, Spaces;
    StripStartSplits(s);
    StripStartSplits(afterName[1..]);
    var later := afterName[1..];
    var quoted := StripStart(later);
    var a, b := s[..|s| - |afterName|], later[..|later| - |quoted|];
    FirstAndRest(afterName);
    assert Spaces(a) && Spaces(b) && s == a + (['='] + (b + quoted));
  }

  lemma FirstAndRest(s: string)
    requires s != ""
    ensures s == [s[0]] + s[1..]
  {
  }

  lemma DeclaredIsSpelled(s: string, d: Dependency)
    requires Declaration(s) == Some(d)
    ensures exists a, b, quoted :: Spelled(s, d, a, b, quoted)
  {
    hide QuotedVersion, NameLength, StripStart, NameCharacter, SpelledVersion, AllNameCharacters, Spaces;
    var n := NameLength(s);
    NameLengthSplits(s);
    var rest := s[n..];
    var afterName := StripStart(rest);
    AfterNameSplits(rest, afterName);
    var quoted := StripStart(afterName[1..]);
    var a, b :| Spaces(a) && Spaces(b) && rest == a + (['='] + (b + quoted));
    VersionIsSpelling(quoted, d.version);
    assert s == d.name + rest;
    assert Spelled(s, d, a, b, quoted);
  }

  /** A line is read as a declaration exactly when it has that spelling, which determines name and version. */
  lemma DeclarationIsSpelling(s: string, d: Dependency)
    ensures Declaration(s) == Some(d) <==> exists a, b, quoted :: Spelled(s, d, a, b, quoted)
  {
    hide Declaration, Spelled;
    if Declaration(s) == Some(d) { DeclaredIsSpelled(s, d); }
    if a, b, quoted :| Spelled(s, d, a, b, quoted) { SpelledIsDeclared(s, d, a, b, quoted); }
  }

  // ----- tables

  predicate IsHeader(line: string) { Strip(line) != "" && Strip(line)[0] == '[' }

  predicate TargetTable(s: string, tail: string) {
    && |s| > 8 + |tail| && s[..8] == "[target." && s[|s| - |tail|..] == tail
    && ']' !in s[8..|s| - |tail|]
  }

  predicate TableOf(s: string, word: string) { s == "[" + word + "]" || TargetTable(s, "." + word + "]") }

  predicate DependencyTable(s: string) {
    TableOf(s, "dependencies") || TableOf(s, "dev-dependencies") || TableOf(s, "build-dependencies")
  }

  predicate InDependencies(section: Option<string>) { section.Some? && DependencyTable(section.value) }

  function Declares(line: string): Option<Dependency> { Declaration(Strip(line)) }

  lemma DeclarationIsNoHeader(line: string)
    requires Declares(line).Some?
    ensures !IsHeader(line)
  {
  }

  // ----- the greedy comparison

  datatype Scan = Scan(index: nat, section: Option<string>, additions: seq<Dependency>)

  function SectionAfter(section: Option<string>, line: string): Option<string> {
    if IsHeader(line) then Some(Strip(line)) else section
  }

  // One line of the new file: the next old line, or a declaration under a dependency table.
  function Take(base: seq<string>, s: Scan, line: string): Option<Scan> {
    var section := SectionAfter(s.section, line);
    if s.index < |base| && line == base[s.index] then Some(Scan(s.index + 1, section, s.additions))
    else if !InDependencies(section) || Declares(line).None? then None
    else Some(Scan(s.index, section, s.additions + [Declares(line).value]))
  }

  function TakeAll(base: seq<string>, head: seq<string>): Option<Scan> {
    if head == [] then Some(Scan(0, None, []))
    else
      match TakeAll(base, head[..|head| - 1])
      case None => None
      case Some(s) => Take(base, s, head[|head| - 1])
  }

  predicate DistinctNames(ds: seq<Dependency>) {
    forall i, j :: 0 <= i < j < |ds| ==> ds[i].name != ds[j].name
  }

  function Additions(base: seq<string>, head: seq<string>): Option<seq<Dependency>> {
    match TakeAll(base, head)
    case None => None
    case Some(s) =>
      if s.index == |base| && s.additions != [] && DistinctNames(s.additions) then Some(s.additions) else None
  }

  function NamesOf(ds: seq<Dependency>): set<string> { set d | d in ds :: d.name }

  method ManifestDependencyAdditions(base: seq<string>, head: seq<string>) returns (r: Option<seq<Dependency>>)
    ensures r == Additions(base, head)
  {
    hide Declares, DependencyTable, IsHeader, Strip;
    var baseIndex, section: Option<string>, additions: seq<Dependency> := 0, None, [];
    for i := 0 to |head|
      invariant TakeAll(base, head[..i]) == Some(Scan(baseIndex, section, additions))
    {
      assert head[..i + 1][..i] == head[..i];
      var raw := head[i];
      if baseIndex < |base| && raw == base[baseIndex] {
        baseIndex := baseIndex + 1;
        if IsHeader(raw) { section := Some(Strip(raw)); }
        continue;
      }
      if IsHeader(raw) { section := Some(Strip(raw)); }
      var match_ := Declares(raw);
      if !InDependencies(section) || match_.None? {
        RefusedStays(base, head, i + 1);
        return None;
      }
      additions := additions + [match_.value];
    }
    assert head[..|head|] == head;
    NamesCount(additions);
    if baseIndex != |base| || additions == [] || |NamesOf(additions)| != |additions| { return None; }
    r := Some(additions);
  }

  lemma {:induction false} RefusedStays(base: seq<string>, head: seq<string>, n: nat)
    requires n <= |head| && TakeAll(base, head[..n]).None?
    ensures TakeAll(base, head).None?
    decreases |head|
  {
    hide Take;
    if n < |head| {
      assert head[..|head| - 1][..n] == head[..n];
      RefusedStays(base, head[..|head| - 1], n);
    } else {
      assert head[..n] == head;
    }
  }

  lemma NamesGrow(front: seq<Dependency>, d: Dependency)
    ensures NamesOf(front + [d]) == NamesOf(front) + {d.name}
    ensures DistinctNames(front + [d]) <==> DistinctNames(front) && d.name !in NamesOf(front)
  {
    var ds := front + [d];
    if d.name in NamesOf(front) {
      var e :| e in front && e.name == d.name;
      var i :| 0 <= i < |front| && front[i] == e;
      assert ds[i].name == ds[|front|].name;
    } else {
      assert forall i :: 0 <= i < |front| ==> front[i] in front && front[i].name in NamesOf(front);
    }
    if DistinctNames(ds) { assert forall i :: 0 <= i < |front| ==> front[i] == ds[i]; }
  }

  lemma {:induction false} NamesCount(ds: seq<Dependency>)
    ensures |NamesOf(ds)| <= |ds|
    ensures |NamesOf(ds)| == |ds| <==> DistinctNames(ds)
  {
    if ds != [] {
      var n := |ds| - 1;
      assert ds == ds[..n] + [ds[n]];
      NamesCount(ds[..n]);
      NamesGrow(ds[..n], ds[n]);
      hide NamesOf, DistinctNames;
    }
  }

  // ----- what an acceptable change is: some choice of the inserted lines explains it

  // `kept` says of each new line whether it is an old one.
  function KeptLines(head: seq<string>, kept: seq<bool>): seq<string>
    requires |kept| == |head|
  {
    if head == [] then []
    else
      var n := |head| - 1;
      KeptLines(head[..n], kept[..n]) + if kept[n] then [head[n]] else []
  }

  function InsertedLines(head: seq<string>, kept: seq<bool>): seq<string>
    requires |kept| == |head|
  {
    if head == [] then []
    else
      var n := |head| - 1;
      InsertedLines(head[..n], kept[..n]) + if kept[n] then [] else [head[n]]
  }

  // The table the line at the end of these lines belongs to.
  function SectionOf(lines: seq<string>): Option<string> {
    if lines == [] then None else SectionAfter(SectionOf(lines[..|lines| - 1]), lines[|lines| - 1])
  }

  predicate SimpleInsertion(head: seq<string>, i: nat)
    requires i < |head|
  {
    Declares(head[i]).Some? && InDependencies(SectionOf(head[..i + 1]))
  }

  predicate OnlyInsertions(head: seq<string>, kept: seq<bool>)
    requires |kept| == |head|
  {
    forall i :: 0 <= i < |head| && !kept[i] ==> SimpleInsertion(head, i)
  }

  function Declared(lines: seq<string>): seq<Dependency> {
    if lines == [] then []
    else
      Declared(lines[..|lines| - 1]) +
      match Declares(lines[|lines| - 1])
      case Some(d) => [d]
      case None => []
  }

  /** The new file is the old one with declarations of distinct names inserted under dependency tables. */
  ghost predicate Explains(base: seq<string>, head: seq<string>, kept: seq<bool>) {
    && |kept| == |head|
    && KeptLines(head, kept) == base
    && OnlyInsertions(head, kept)
    && Declared(InsertedLines(head, kept)) != []
    && DistinctNames(Declared(InsertedLines(head, kept)))
  }

  lemma OneMoreLine(front: seq<string>, line: string, kept: seq<bool>, keep: bool)
    requires |kept| == |front|
    ensures KeptLines(front + [line], kept + [keep]) == KeptLines(front, kept) + if keep then [line] else []
    ensures InsertedLines(front + [line], kept + [keep]) == InsertedLines(front, kept) + if keep then [] else [line]
    ensures SectionOf(front + [line]) == SectionAfter(SectionOf(front), line)
  {
    hide SectionAfter;
    assert (front + [line])[..|front|] == front && (kept + [keep])[..|front|] == kept;
  }

  lemma OneMoreDeclared(lines: seq<string>, line: string)
    requires Declares(line).Some?
    ensures Declared(lines + [line]) == Declared(lines) + [Declares(line).value]
  {
    hide Declares;
    assert (lines + [line])[..|lines|] == lines;
  }

  lemma SameInsertion(front: seq<string>, line: string, i: nat)
    requires i < |front|
    ensures SimpleInsertion(front + [line], i) == SimpleInsertion(front, i)
  {
    assert (front + [line])[..i + 1] == front[..i + 1];
    hide Declares, InDependencies, SectionOf;
  }

  lemma LastInsertion(front: seq<string>, line: string)
    ensures SimpleInsertion(front + [line], |front|) <==>
            Declares(line).Some? && InDependencies(SectionAfter(SectionOf(front), line))
  {
    hide Declares, InDependencies, SectionAfter;
    assert (front + [line])[..|front| + 1] == front + [line] && (front + [line])[..|front|] == front;
  }

  lemma OneMoreInsertion(front: seq<string>, line: string, kept: seq<bool>, keep: bool)
    requires |kept| == |front|
    ensures OnlyInsertions(front + [line], kept + [keep]) <==>
            OnlyInsertions(front, kept)
            && (keep || (Declares(line).Some? && InDependencies(SectionAfter(SectionOf(front), line))))
  {
    hide SimpleInsertion, Declares, InDependencies, SectionAfter, SectionOf;
    var head, all := front + [line], kept + [keep];
    LastInsertion(front, line);
    forall i: nat | i < |front| ensures SimpleInsertion(head, i) == SimpleInsertion(front, i) && all[i] == kept[i] {
      SameInsertion(front, line, i);
    }
    if OnlyInsertions(head, all) {
      forall i | 0 <= i < |front| && !kept[i] ensures SimpleInsertion(front, i) {
        assert !all[i] && SimpleInsertion(head, i);
      }
      assert !keep ==> !all[|front|] && SimpleInsertion(head, |front|);
    } else {
      var i :| 0 <= i < |head| && !all[i] && !SimpleInsertion(head, i);
      assert i < |front| ==> !kept[i] && !SimpleInsertion(front, i);
    }
  }

  // ----- soundness: the greedy choice is such a choice

  predicate Matches(base: seq<string>, s: Scan, line: string) { s.index < |base| && line == base[s.index] }

  function GreedyKept(base: seq<string>, head: seq<string>): (kept: seq<bool>)
    ensures |kept| == |head|
  {
    if head == [] then []
    else
      var n := |head| - 1;
      var before := TakeAll(base, head[..n]);
      GreedyKept(base, head[..n]) + [before.Some? && Matches(base, before.value, head[n])]
  }

  // What the greedy comparison has made of the lines so far.
  predicate Explained(base: seq<string>, head: seq<string>, kept: seq<bool>, s: Scan)
    requires |kept| == |head|
  {
    && s.index <= |base| && s.section == SectionOf(head)
    && KeptLines(head, kept) == base[..s.index]
    && OnlyInsertions(head, kept)
    && Declared(InsertedLines(head, kept)) == s.additions
  }

  lemma TakeExplains(base: seq<string>, front: seq<string>, kept: seq<bool>, s: Scan, line: string)
    requires |kept| == |front| && Explained(base, front, kept, s) && Take(base, s, line).Some?
    ensures Explained(base, front + [line], kept + [Matches(base, s, line)], Take(base, s, line).value)
  {
    hide Declares, InDependencies, SectionAfter, KeptLines, InsertedLines, SectionOf, OnlyInsertions, Declared;
    var keep := Matches(base, s, line);
    OneMoreLine(front, line, kept, keep);
    OneMoreInsertion(front, line, kept, keep);
    if keep {
      assert base[..s.index + 1] == base[..s.index] + [line];
      assert InsertedLines(front, kept) + [] == InsertedLines(front, kept);
    } else {
      OneMoreDeclared(InsertedLines(front, kept), line);
      assert KeptLines(front, kept) + [] == KeptLines(front, kept);
    }
  }

  lemma {:induction false} GreedyExplains(base: seq<string>, head: seq<string>)
    requires TakeAll(base, head).Some?
    ensures Explained(base, head, GreedyKept(base, head), TakeAll(base, head).value)
  {
    hide Take, Matches, Explained;
    if head == [] {
      NothingExplained(base);
    } else {
      var n := |head| - 1;
      var front := head[..n];
      GreedyExplains(base, front);
      TakeExplains(base, front, GreedyKept(base, front), TakeAll(base, front).value, head[n]);
      assert front + [head[n]] == head;
    }
  }

  lemma NothingExplained(base: seq<string>)
    ensures Explained(base, [], [], Scan(0, None, []))
  {
  }

  // ----- completeness: whatever the choice, the greedy one stays ahead of it and finds the same declarations

  // Old lines the greedy comparison has already used and the other choice has not: all are declarations,
  // and the current table is a dependency table.
  predicate Ahead(base: seq<string>, a: nat, g: nat, section: Option<string>) {
    && a <= g <= |base|
    && (forall k :: a <= k < g ==> Declares(base[k]).Some?)
    && (a < g ==> InDependencies(section))
  }

  lemma AheadOfKept(base: seq<string>, a: nat, s: Scan, line: string)
    requires Ahead(base, a, s.index, s.section) && a < |base| && line == base[a]
    ensures Take(base, s, line).Some?
    ensures Ahead(base, a + 1, Take(base, s, line).value.index, Take(base, s, line).value.section)
  {
    hide Declares, InDependencies, SectionAfter;
    if a < s.index {
      assert Declares(base[a]).Some?;
      SectionStays(s.section, line);
    }
  }

  lemma AheadOfInserted(base: seq<string>, a: nat, s: Scan, line: string)
    requires Ahead(base, a, s.index, s.section)
    requires Declares(line).Some? && InDependencies(SectionAfter(s.section, line))
    ensures Take(base, s, line).Some?
    ensures Ahead(base, a, Take(base, s, line).value.index, Take(base, s, line).value.section)
  {
    SectionStays(s.section, line);
    hide Declares, InDependencies, SectionAfter;
  }

  lemma StaysAhead(base: seq<string>, a: nat, s: Scan, line: string, keep: bool)
    requires Ahead(base, a, s.index, s.section)
    requires if keep then a < |base| && line == base[a]
             else Declares(line).Some? && InDependencies(SectionAfter(s.section, line))
    ensures Take(base, s, line).Some?
    ensures var s' := Take(base, s, line).value;
      Ahead(base, if keep then a + 1 else a, s'.index, s'.section)
  {
    hide Ahead, Take, Declares, InDependencies, SectionAfter;
    if keep { AheadOfKept(base, a, s, line); } else { AheadOfInserted(base, a, s, line); }
  }

  lemma SectionStays(section: Option<string>, line: string)
    requires Declares(line).Some?
    ensures SectionAfter(section, line) == section
  {
    DeclarationIsNoHeader(line);
    hide Declares, IsHeader, Strip;
  }

  lemma {:induction false} GreedyFollows(base: seq<string>, head: seq<string>, kept: seq<bool>, n: nat)
    requires |kept| == |head| && n <= |head| && KeptLines(head, kept) == base && OnlyInsertions(head, kept)
    ensures TakeAll(base, head[..n]).Some?
    ensures var s := TakeAll(base, head[..n]).value;
      && s.section == SectionOf(head[..n])
      && Ahead(base, |KeptLines(head[..n], kept[..n])|, s.index, s.section)
  {
    hide Take, Declares, InDependencies, SectionAfter, KeptLines, Ahead, OnlyInsertions;
    if n == 0 {
      assert head[..0] == [] && kept[..0] == [];
      StartsLevel(base, kept[..0]);
    } else {
      GreedyFollows(base, head, kept, n - 1);
      var front, line, keep := head[..n - 1], head[n - 1], kept[n - 1];
      var s := TakeAll(base, front).value;
      assert head[..n] == front + [line] && kept[..n] == kept[..n - 1] + [keep] && head[..n][..n - 1] == front;
      OneMoreLine(front, line, kept[..n - 1], keep);
      NextOfChoice(base, head, kept, n - 1);
      StaysAhead(base, |KeptLines(front, kept[..n - 1])|, s, line, keep);
      TakeSection(base, s, line);
    }
  }

  lemma StartsLevel(base: seq<string>, none: seq<bool>)
    requires none == []
    ensures Ahead(base, |KeptLines([], none)|, 0, None)
  {
  }

  lemma TakeSection(base: seq<string>, s: Scan, line: string)
    requires Take(base, s, line).Some?
    ensures Take(base, s, line).value.section == SectionAfter(s.section, line)
  {
    hide SectionAfter, Declares, InDependencies;
  }

  lemma {:induction false} KeptPrefix(head: seq<string>, kept: seq<bool>, n: nat)
    requires |kept| == |head| && n <= |head|
    ensures KeptLines(head[..n], kept[..n]) <= KeptLines(head, kept)
    decreases |head| - n
  {
    if n < |head| {
      KeptPrefix(head, kept, n + 1);
      var front := head[..n];
      assert head[..n + 1] == front + [head[n]] && kept[..n + 1] == kept[..n] + [kept[n]];
      OneMoreLine(front, head[n], kept[..n], kept[n]);
      hide KeptLines;
    } else {
      assert head[..n] == head && kept[..n] == kept;
    }
  }

  lemma NextOfChoice(base: seq<string>, head: seq<string>, kept: seq<bool>, n: nat)
    requires |kept| == |head| && n < |head| && KeptLines(head, kept) == base && OnlyInsertions(head, kept)
    ensures var a := |KeptLines(head[..n], kept[..n])|;
      if kept[n] then a < |base| && head[n] == base[a]
      else Declares(head[n]).Some? && InDependencies(SectionAfter(SectionOf(head[..n]), head[n]))
  {
    hide Declares, InDependencies, SectionAfter, KeptLines;
    var front := head[..n];
    assert head[..n + 1] == front + [head[n]] && kept[..n + 1] == kept[..n] + [kept[n]];
    OneMoreLine(front, head[n], kept[..n], kept[n]);
    if kept[n] {
      KeptPrefix(head, kept, n + 1);
    } else {
      assert SimpleInsertion(head, n);
    }
  }

  // ----- all choices insert the same declarations

  lemma MultisetWithLast(lines: seq<string>, line: string)
    ensures multiset(lines + [line]) == multiset(lines) + multiset{line}
  {
  }

  lemma AddToEither(front: seq<string>, k: seq<string>, m: seq<string>, line: string)
    requires multiset(front) == multiset(k) + multiset(m)
    ensures multiset(front + [line]) == multiset(k + [line]) + multiset(m)
    ensures multiset(front + [line]) == multiset(k) + multiset(m + [line])
  {
    MultisetWithLast(front, line);
    MultisetWithLast(k, line);
    MultisetWithLast(m, line);
  }

  lemma NoLines(head: seq<string>, kept: seq<bool>)
    requires head == [] && kept == []
    ensures KeptLines(head, kept) == [] && InsertedLines(head, kept) == []
  {
  }

  lemma {:induction false} SameLines(head: seq<string>, kept: seq<bool>)
    requires |kept| == |head|
    ensures multiset(head) == multiset(KeptLines(head, kept)) + multiset(InsertedLines(head, kept))
    decreases |head|
  {
    hide KeptLines, InsertedLines, SectionOf;
    if head == [] {
      NoLines(head, kept);
    } else {
      var n := |head| - 1;
      var front, line := head[..n], head[n];
      var k, m := KeptLines(front, kept[..n]), InsertedLines(front, kept[..n]);
      SameLines(front, kept[..n]);
      OneMoreLine(front, line, kept[..n], kept[n]);
      assert head == front + [line] && kept == kept[..n] + [kept[n]];
      AddToEither(front, k, m, line);
      assert k + [] == k && m + [] == m;
    }
  }

  function CountOf(lines: seq<string>, d: Dependency): nat {
    if lines == [] then 0
    else CountOf(lines[..|lines| - 1], d) + if Declares(lines[|lines| - 1]) == Some(d) then 1 else 0
  }

  lemma {:induction false} DeclaredCount(lines: seq<string>, d: Dependency)
    ensures multiset(Declared(lines))[d] == CountOf(lines, d)
  {
    hide Declares;
    if lines != [] {
      DeclaredCount(lines[..|lines| - 1], d);
    }
  }

  lemma {:induction false} CountWithout(lines: seq<string>, k: nat, d: Dependency)
    requires k < |lines|
    ensures CountOf(lines, d) ==
            CountOf(lines[..k] + lines[k + 1..], d) + if Declares(lines[k]) == Some(d) then 1 else 0
  {
    hide Declares;
    var n := |lines| - 1;
    var fewer := lines[..k] + lines[k + 1..];
    if k == n {
      assert fewer == lines[..n];
    } else {
      CountWithout(lines[..n], k, d);
      assert fewer[..n - 1] == lines[..n][..k] + lines[..n][k + 1..];
      assert fewer[n - 1] == lines[n] && lines[..n][k] == lines[k];
    }
  }

  lemma MultisetWithout(lines: seq<string>, k: nat)
    requires k < |lines|
    ensures multiset(lines) == multiset{lines[k]} + multiset(lines[..k] + lines[k + 1..])
  {
    assert lines == lines[..k] + ([lines[k]] + lines[k + 1..]);
    assert multiset([lines[k]] + lines[k + 1..]) == multiset{lines[k]} + multiset(lines[k + 1..]);
  }

  lemma Cancel(common: multiset<string>, m: multiset<string>, n: multiset<string>)
    requires common + m == common + n
    ensures m == n
  {
    forall y ensures m[y] == n[y] {
      assert (common + m)[y] == common[y] + m[y] && (common + n)[y] == common[y] + n[y];
    }
  }

  lemma {:induction false} CountDependsOnLines(a: seq<string>, b: seq<string>, d: Dependency)
    requires multiset(a) == multiset(b)
    ensures CountOf(a, d) == CountOf(b, d)
    decreases |a|
  {
    hide Declares;
    if a == [] {
      assert |multiset(b)| == |b|;
    } else {
      var n := |a| - 1;
      assert a[n] in multiset(b);
      var k :| 0 <= k < |b| && b[k] == a[n];
      MultisetWithout(a, n);
      MultisetWithout(b, k);
      assert a[..n] + a[n + 1..] == a[..n];
      Cancel(multiset{a[n]}, multiset(a[..n]), multiset(b[..k] + b[k + 1..]));
      CountWithout(b, k, d);
      var last := if Declares(a[n]) == Some(d) then 1 else 0;
      assert CountOf(a, d) == CountOf(a[..n], d) + last;
      hide CountOf;
      CountDependsOnLines(a[..n], b[..k] + b[k + 1..], d);
    }
  }

  lemma SameDeclared(a: seq<string>, b: seq<string>)
    requires multiset(a) == multiset(b)
    ensures multiset(Declared(a)) == multiset(Declared(b))
  {
    hide Declared;
    forall d ensures multiset(Declared(a))[d] == multiset(Declared(b))[d] {
      DeclaredCount(a, d);
      DeclaredCount(b, d);
      CountDependsOnLines(a, b, d);
    }
  }

  lemma DistinctTogether(a: seq<Dependency>, b: seq<Dependency>)
    requires multiset(a) == multiset(b) && DistinctNames(a)
    ensures DistinctNames(b)
  {
    NamesCount(a);
    NamesCount(b);
    assert |multiset(a)| == |a| && |multiset(b)| == |b|;
    assert forall d :: d in a <==> d in multiset(a);
    assert forall d :: d in b <==> d in multiset(b);
    assert NamesOf(a) == NamesOf(b);
  }

  // ----- main result

  /**
   * The change is accepted exactly when some choice of inserted lines explains it; the dependencies
   * reported are then the ones every such choice inserts, however duplicate lines are aligned.
   */
  lemma AcceptsExactlyInsertions(base: seq<string>, head: seq<string>)
    ensures Additions(base, head).Some? <==> exists kept :: Explains(base, head, kept)
    ensures forall kept :: |kept| == |head| && Additions(base, head).Some? && Explains(base, head, kept) ==>
              multiset(Declared(InsertedLines(head, kept))) == multiset(Additions(base, head).value)
  {
    hide Explains, Additions, Declared, InsertedLines;
    if Additions(base, head).Some? { AcceptedIsExplained(base, head); }
    forall kept | Explains(base, head, kept)
      ensures Additions(base, head).Some?
      ensures |kept| == |head| && multiset(Declared(InsertedLines(head, kept))) == multiset(Additions(base, head).value)
    {
      ExplainedIsAccepted(base, head, kept);
    }
  }

  lemma AcceptedIsExplained(base: seq<string>, head: seq<string>)
    requires Additions(base, head).Some?
    ensures Explains(base, head, GreedyKept(base, head))
  {
    GreedyExplains(base, head);
    hide TakeAll, OnlyInsertions, KeptLines, InsertedLines, Declared, SectionOf;
    assert base[..|base|] == base;
  }

  lemma SameDeclarations(head: seq<string>, kept: seq<bool>, other: seq<bool>)
    requires |kept| == |head| == |other| && KeptLines(head, kept) == KeptLines(head, other)
    ensures multiset(Declared(InsertedLines(head, kept))) == multiset(Declared(InsertedLines(head, other)))
  {
    hide KeptLines, InsertedLines, Declared;
    SameLines(head, kept);
    SameLines(head, other);
    Cancel(multiset(KeptLines(head, kept)), multiset(InsertedLines(head, kept)), multiset(InsertedLines(head, other)));
    SameDeclared(InsertedLines(head, kept), InsertedLines(head, other));
  }

  lemma GreedyUsesAll(base: seq<string>, head: seq<string>, kept: seq<bool>)
    requires |kept| == |head| && KeptLines(head, kept) == base && OnlyInsertions(head, kept)
    ensures TakeAll(base, head).Some? && TakeAll(base, head).value.index == |base|
    ensures KeptLines(head, GreedyKept(base, head)) == base
    ensures TakeAll(base, head).value.additions == Declared(InsertedLines(head, GreedyKept(base, head)))
  {
    var n := |head|;
    assert head[..n] == head && kept[..n] == kept;
    GreedyFollows(base, head, kept, n);
    hide TakeAll, OnlyInsertions, KeptLines, InsertedLines, Declared, SectionOf, Declares;
    GreedyExplains(base, head);
    assert base[..|base|] == base;
  }

  lemma ExplainedIsAccepted(base: seq<string>, head: seq<string>, kept: seq<bool>)
    requires Explains(base, head, kept)
    ensures Additions(base, head).Some? && |kept| == |head|
    ensures multiset(Declared(InsertedLines(head, kept))) == multiset(Additions(base, head).value)
  {
    hide TakeAll, OnlyInsertions, KeptLines, InsertedLines, Declared, GreedyKept, DistinctNames;
    GreedyUsesAll(base, head, kept);
    var found := Declared(InsertedLines(head, kept));
    var additions := TakeAll(base, head).value.additions;
    SameDeclarations(head, kept, GreedyKept(base, head));
    DistinctTogether(found, additions);
    assert found[0] in multiset(found);
  }

  // ----- the tables

  predicate TableWord(word: string) {
    word == "dependencies" || word == "dev-dependencies" || word == "build-dependencies"
  }

  predicate NamesTable(s: string, target: string, word: string) {
    && TableWord(word)
    && (s == "[" + word + "]"
        || (s == "[target." + target + ("." + word + "]") && target != "" && ']' !in target))
  }

  lemma Sandwich(s: string, head: string, tail: string)
    requires |s| >= |head| + |tail| && s[..|head|] == head && s[|s| - |tail|..] == tail
    ensures s == head + s[|head|..|s| - |tail|] + tail
  {
  }

  lemma Layers(head: string, middle: string, tail: string)
    ensures var s := head + middle + tail;
      s[..|head|] == head && s[|s| - |tail|..] == tail && s[|head|..|s| - |tail|] == middle
  {
  }

  lemma TargetIsSpelled(s: string, tail: string)
    ensures TargetTable(s, tail) <==>
            exists target :: s == "[target." + target + tail && target != "" && ']' !in target
  {
    var head := "[target.";
    assert |head| == 8;
    if TargetTable(s, tail) {
      Sandwich(s, head, tail);
      assert s[8..|s| - |tail|] != "";
    }
    if target :| s == head + target + tail && target != "" && ']' !in target {
      Layers(head, target, tail);
    }
  }

  lemma TableOfIsSpelling(s: string, word: string)
    requires TableWord(word)
    ensures TableOf(s, word) <==> exists target :: NamesTable(s, target, word)
  {
    hide TableWord, TargetTable;
    TargetIsSpelled(s, "." + word + "]");
    if s == "[" + word + "]" { assert NamesTable(s, "", word); }
    if target :| s == "[target." + target + ("." + word + "]") && target != "" && ']' !in target {
      assert NamesTable(s, target, word);
    }
  }

  /** A header opens a dependency table exactly when it has one of the six spellings. */
  lemma TableIsSpelling(s: string)
    ensures DependencyTable(s) <==> exists target, word :: NamesTable(s, target, word)
  {
    hide TableOf;
    TableOfIsSpelling(s, "dependencies");
    TableOfIsSpelling(s, "dev-dependencies");
    TableOfIsSpelling(s, "build-dependencies");
  }
}
