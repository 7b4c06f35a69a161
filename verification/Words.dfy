/** Reading an SSH configuration file: logical lines and the words of a line. */
module Words {
  import opened Wrappers
  import opened Text

  // ----- logical lines

  predicate Continues(line: string) { line != "" && line[|line| - 1] == '\\' }

  // The logical lines of the remaining physical lines, `current` being the one under construction.
  function Join(lines: seq<string>, current: string): seq<string>
    decreases lines
  {
    if lines == [] then (if current != "" then [current] else [])
    else
      var grown := current + lines[0];
      if Continues(grown) then Join(lines[1..], grown[..|grown| - 1]) else [grown] + Join(lines[1..], "")
  }

  method LogicalLines(text: string) returns (lines: seq<string>)
    ensures lines == Join(Lines(text), "")
  {
    hide Lines;
    var physical := Lines(text);
    lines := [];
    var current := "";
    for i := 0 to |physical|
      invariant lines + Join(physical[i..], current) == Join(physical, "")
    {
      assert physical[i..][1..] == physical[i + 1..];
      current := current + physical[i];
      if Continues(current) {
        current := current[..|current| - 1];
      } else {
        assert lines + ([current] + Join(physical[i + 1..], "")) == (lines + [current]) + Join(physical[i + 1..], "");
        lines := lines + [current];
        current := "";
      }
    }
    assert physical[|physical|..] == [];
    if current != "" {
      lines := lines + [current];
    }
  }

  function Concat(pieces: seq<string>): string {
    if pieces == [] then "" else pieces[0] + Concat(pieces[1..])
  }

  // Every piece but the last ends with a continuation mark.
  function Continued(pieces: seq<string>): seq<string> {
    if pieces == [] then []
    else if |pieces| == 1 then pieces
    else [pieces[0] + "\\"] + Continued(pieces[1..])
  }

  lemma JoinUnfolds(lines: seq<string>, current: string)
    requires lines != []
    ensures var grown := current + lines[0];
      Join(lines, current) ==
      if Continues(grown) then Join(lines[1..], grown[..|grown| - 1]) else [grown] + Join(lines[1..], "")
  {
    hide Continues;
  }

  lemma JoinNext(line: string, rest: seq<string>, current: string)
    ensures var grown := current + line;
      Join([line] + rest, current) ==
      if Continues(grown) then Join(rest, grown[..|grown| - 1]) else [grown] + Join(rest, "")
  {
    hide Join, Continues;
    var lines := [line] + rest;
    assert lines[0] == line && lines[1..] == rest;
    JoinUnfolds(lines, current);
  }

  lemma JoinContinued(piece: string, rest: seq<string>, current: string)
    ensures Join([piece + "\\"] + rest, current) == Join(rest, current + piece)
  {
    hide Join;
    var line := piece + "\\";
    var grown := current + line;
    JoinNext(line, rest, current);
    assert grown[|grown| - 1] == '\\' && grown[..|grown| - 1] == current + piece;
  }

  lemma Associates<T>(a: seq<T>, b: seq<T>, c: seq<T>)
    ensures a + (b + c) == (a + b) + c
  {
  }

  lemma ConcatUnfolds(pieces: seq<string>, current: string)
    requires pieces != []
    ensures current + Concat(pieces) == (current + pieces[0]) + Concat(pieces[1..])
    ensures |pieces| == 1 ==> current + Concat(pieces) == current + pieces[0]
  {
    var rest := Concat(pieces[1..]);
    assert Concat(pieces) == pieces[0] + rest;
    assert |pieces| == 1 ==> rest == "";
    hide Concat;
    Associates(current, pieces[0], rest);
    if |pieces| == 1 { NothingAdded(current + pieces[0], rest); }
  }

  lemma NothingAdded(a: string, none: string)
    requires none == ""
    ensures a + none == a
  {
  }

  lemma ContinuedUnfolds(pieces: seq<string>, rest: seq<string>)
    requires pieces != []
    ensures Continued(pieces) + rest ==
            if |pieces| == 1 then [pieces[0]] + rest
            else [pieces[0] + "\\"] + (Continued(pieces[1..]) + rest)
  {
    if |pieces| == 1 {
      assert pieces == [pieces[0]];
    } else {
      var line, more := pieces[0] + "\\", Continued(pieces[1..]);
      assert Continued(pieces) == [line] + more;
      hide Continued;
      Associates([line], more, rest);
    }
  }

  /** A line broken up with continuation marks is read as the one line it was. */
  lemma {:induction false} ContinuedLine(pieces: seq<string>, current: string, rest: seq<string>)
    requires pieces != [] && !Continues(current + Concat(pieces))
    ensures Join(Continued(pieces) + rest, current) == [current + Concat(pieces)] + Join(rest, "")
    decreases pieces
  {
    hide Join, Continued, Concat, Continues;
    ConcatUnfolds(pieces, current);
    ContinuedUnfolds(pieces, rest);
    if |pieces| == 1 {
      JoinNext(pieces[0], rest, current);
    } else {
      JoinContinued(pieces[0], Continued(pieces[1..]) + rest, current);
      ContinuedLine(pieces[1..], current + pieces[0], rest);
    }
  }

  /** What the last lines break off with continuation marks is one line, if it is anything. */
  lemma {:induction false} UnfinishedLine(pieces: seq<string>, current: string)
    ensures Join(seq(|pieces|, i requires 0 <= i < |pieces| => pieces[i] + "\\"), current) ==
            if current + Concat(pieces) == "" then [] else [current + Concat(pieces)]
    decreases pieces
  {
    hide Join, Concat;
    var lines := seq(|pieces|, i requires 0 <= i < |pieces| => pieces[i] + "\\");
    if pieces == [] {
      NothingJoined(lines, current);
      ConcatNothing(pieces);
      NothingAdded(current, Concat(pieces));
    } else {
      var rest := seq(|pieces| - 1, i requires 0 <= i < |pieces| - 1 => pieces[1..][i] + "\\");
      assert lines == [pieces[0] + "\\"] + rest;
      JoinContinued(pieces[0], rest, current);
      ConcatUnfolds(pieces, current);
      UnfinishedLine(pieces[1..], current + pieces[0]);
    }
  }

  lemma NothingJoined(lines: seq<string>, current: string)
    requires lines == []
    ensures Join(lines, current) == if current != "" then [current] else []
  {
  }

  lemma ConcatNothing(pieces: seq<string>)
    requires pieces == []
    ensures Concat(pieces) == ""
  {
  }

  // ----- words

  predicate IsQuote(c: char) { c == '\'' || c == '"' }

  predicate Separates(c: char) { IsWhitespace(c) || c == '=' }

  datatype Reader = Reader(word: string, quote: Option<char>, escaped: bool)

  function Ended(r: Reader): seq<string> {
    var last := if r.escaped then r.word + "\\" else r.word;
    if last != "" then [last] else []
  }

  // What one character does to the reader, and the word it completes if any; None at a comment.
  function Accept(r: Reader, c: char): Option<(Reader, seq<string>)> {
    if r.escaped then Some((r.(word := r.word + [c], escaped := false), []))
    else if c == '\\' then Some((r.(escaped := true), []))
    else if r.quote == Some(c) then Some((r.(quote := None), []))
    else if r.quote.None? && IsQuote(c) then Some((r.(quote := Some(c)), []))
    else if r.quote.None? && c == '#' then None
    else if r.quote.None? && Separates(c) then
      if r.word != "" then Some((r.(word := ""), [r.word])) else Some((r, []))
    else Some((r.(word := r.word + [c]), []))
  }

  function WordsFrom(line: string, r: Reader): seq<string>
    decreases line
  {
    if line == "" then Ended(r)
    else
      match Accept(r, line[0])
      case None => Ended(r)
      case Some((next, done)) => done + WordsFrom(line[1..], next)
  }

  lemma ReadsNext(c: char, rest: string, r: Reader)
    ensures WordsFrom([c] + rest, r) ==
            if Accept(r, c).None? then Ended(r)
            else Accept(r, c).value.1 + WordsFrom(rest, Accept(r, c).value.0)
  {
    hide Accept, Ended;
    assert ([c] + rest)[1..] == rest;
  }

  lemma ReadsEnd(line: string, r: Reader)
    requires line == ""
    ensures WordsFrom(line, r) == Ended(r)
  {
  }

  lemma OneWordMore(words: seq<string>, word: string, rest: seq<string>)
    ensures words + ([word] + rest) == (words + [word]) + rest
  {
  }

  const START := Reader("", None, false)

  function WordsOf(line: string): seq<string> { WordsFrom(line, START) }

  method SplitWords(line: string) returns (words: seq<string>)
    ensures words == WordsOf(line)
  {
    hide WordsFrom, Separates, IsQuote;
    words := [];
    var word, quote: Option<char>, escaped := "", None, false;
    var i := 0;
    while i < |line|
      invariant i <= |line|
      invariant words + WordsFrom(line[i..], Reader(word, quote, escaped)) == WordsOf(line)
    {
      var c := line[i];
      assert line[i..] == [c] + line[i + 1..];
      ReadsNext(c, line[i + 1..], Reader(word, quote, escaped));
      if escaped {
        word := word + [c];
        escaped := false;
      } else if c == '\\' {
        escaped := true;
      } else if quote == Some(c) {
        quote := None;
      } else if quote.None? && IsQuote(c) {
        quote := Some(c);
      } else if quote.None? && c == '#' {
        break;
      } else if quote.None? && Separates(c) {
        if word != "" {
          OneWordMore(words, word, WordsFrom(line[i + 1..], Reader("", quote, escaped)));
          words := words + [word];
          word := "";
        }
      } else {
        word := word + [c];
      }
      i := i + 1;
    }
    if i == |line| { ReadsEnd(line[i..], Reader(word, quote, escaped)); }
    if escaped { word := word + "\\"; }
    if word != "" { words := words + [word]; }
  }

  // ----- any words can be written so that they are read back

  // Inside quotes only the mark and the backslash need a backslash before them.
  function Escaped(word: string, mark: char): string {
    if word == "" then ""
    else (if word[0] == '\\' || word[0] == mark then ['\\', word[0]] else [word[0]]) + Escaped(word[1..], mark)
  }

  function Quoted(word: string, mark: char): string { [mark] + Escaped(word, mark) + [mark] }

  function Written(words: seq<string>): string {
    if words == [] then "" else Quoted(words[0], '"') + [' '] + Written(words[1..])
  }

  lemma {:induction false} ReadsEscaped(word: string, mark: char, before: string, rest: string)
    requires mark == '"' || mark == '\''
    ensures WordsFrom(Escaped(word, mark) + rest, Reader(before, Some(mark), false)) ==
            WordsFrom(rest, Reader(before + word, Some(mark), false))
    decreases word
  {
    hide WordsFrom, Separates;
    var line := Escaped(word, mark) + rest;
    var r := Reader(before, Some(mark), false);
    if word == "" {
      assert line == rest && before + word == before;
    } else {
      var c, tail := word[0], Escaped(word[1..], mark) + rest;
      assert (before + [c]) + word[1..] == before + word;
      if c == '\\' || c == mark {
        assert line == ['\\'] + ([c] + tail);
        ReadsNext('\\', [c] + tail, r);
        ReadsNext(c, tail, r.(escaped := true));
      } else {
        assert line == [c] + tail;
        ReadsNext(c, tail, r);
      }
      hide Escaped;
      ReadsEscaped(word[1..], mark, before + [c], rest);
    }
  }

  lemma ReadsQuoted(word: string, mark: char, end: char, rest: string)
    requires (mark == '"' || mark == '\'') && (IsWhitespace(end) || end == '=')
    ensures WordsFrom(Quoted(word, mark) + [end] + rest, START) ==
            (if word == "" then [] else [word]) + WordsFrom(rest, START)
  {
    hide WordsFrom, Escaped;
    var line := Quoted(word, mark) + [end] + rest;
    var close := [mark] + ([end] + rest);
    assert line == [mark] + (Escaped(word, mark) + close);
    assert end != '#' && end != '\\' && !IsQuote(end);
    assert mark != '#' && mark != '\\';
    ReadsNext(mark, Escaped(word, mark) + close, START);
    ReadsEscaped(word, mark, "", close);
    assert "" + word == word;
    ReadsNext(mark, [end] + rest, Reader(word, Some(mark), false));
    ReadsNext(end, rest, Reader(word, None, false));
  }

  // Outside quotes these characters need a backslash before them.
  predicate Special(c: char) { c == '\\' || c == '#' || c == '"' || c == '\'' || c == '=' || IsWhitespace(c) }

  function Bare(word: string): string {
    if word == "" then "" else (if Special(word[0]) then ['\\', word[0]] else [word[0]]) + Bare(word[1..])
  }

  lemma {:induction false} ReadsBare(word: string, before: string, rest: string)
    ensures WordsFrom(Bare(word) + rest, Reader(before, None, false)) ==
            WordsFrom(rest, Reader(before + word, None, false))
    decreases word
  {
    hide WordsFrom, IsWhitespace;
    var line := Bare(word) + rest;
    var r := Reader(before, None, false);
    if word == "" {
      assert line == rest && before + word == before;
    } else {
      var c, tail := word[0], Bare(word[1..]) + rest;
      assert (before + [c]) + word[1..] == before + word;
      if Special(c) {
        assert line == ['\\'] + ([c] + tail);
        ReadsNext('\\', [c] + tail, r);
        ReadsNext(c, tail, r.(escaped := true));
      } else {
        assert line == [c] + tail;
        ReadsNext(c, tail, r);
      }
      hide Bare;
      ReadsBare(word[1..], before + [c], rest);
    }
  }

  // A word as it stands in a line, in quotes or bare, with the separator after it.
  datatype Spelled = Spelled(word: string, mark: Option<char>, end: char)

  predicate Proper(w: Spelled) {
    && (w.mark.Some? ==> w.mark.value == '"' || w.mark.value == '\'')
    && (IsWhitespace(w.end) || w.end == '=')
  }

  function Spelling(w: Spelled): string {
    (if w.mark.Some? then Quoted(w.word, w.mark.value) else Bare(w.word)) + [w.end]
  }

  function SpelledLine(ws: seq<Spelled>): string {
    if ws == [] then "" else Spelling(ws[0]) + SpelledLine(ws[1..])
  }

  function SpelledWords(ws: seq<Spelled>): seq<string> {
    if ws == [] then [] else (if ws[0].word == "" then [] else [ws[0].word]) + SpelledWords(ws[1..])
  }

  lemma ReadsSpelling(w: Spelled, rest: string)
    requires Proper(w)
    ensures WordsFrom(Spelling(w) + rest, START) == (if w.word == "" then [] else [w.word]) + WordsFrom(rest, START)
  {
    hide WordsFrom, Quoted, Bare, IsWhitespace;
    if w.mark.Some? {
      ReadsQuoted(w.word, w.mark.value, w.end, rest);
    } else {
      var line := Spelling(w) + rest;
      assert line == Bare(w.word) + ([w.end] + rest);
      ReadsBare(w.word, "", [w.end] + rest);
      assert "" + w.word == w.word;
      assert !IsQuote(w.end) && w.end != '#' && w.end != '\\' by { EndIsPlain(w.end); }
      ReadsNext(w.end, rest, Reader(w.word, None, false));
    }
  }

  lemma EndIsPlain(c: char)
    requires IsWhitespace(c) || c == '='
    ensures !IsQuote(c) && c != '#' && c != '\\'
  {
  }

  /**
   * However words are written, bare or in either quotes, with whatever separators, the line is read as the
   * non-empty ones; the rest of a line is read on, and nothing of it after a comment mark.
   */
  lemma {:induction false} SpelledWordsAreRead(ws: seq<Spelled>, rest: string)
    requires forall w :: w in ws ==> Proper(w)
    ensures WordsOf(SpelledLine(ws) + rest) == SpelledWords(ws) + WordsOf(rest)
    ensures WordsOf(SpelledLine(ws) + "#" + rest) == SpelledWords(ws)
    decreases ws
  {
    hide WordsFrom, Spelling, Proper;
    var comment := ['#'] + rest;
    if ws == [] {
      assert SpelledLine(ws) + rest == rest && SpelledLine(ws) + "#" + rest == comment;
      ReadsNext('#', rest, START);
    } else {
      assert ws[0] in ws && forall w :: w in ws[1..] ==> w in ws;
      var more := SpelledLine(ws[1..]);
      assert SpelledLine(ws) + rest == Spelling(ws[0]) + (more + rest);
      assert SpelledLine(ws) + "#" + rest == Spelling(ws[0]) + (more + "#" + rest);
      ReadsSpelling(ws[0], more + rest);
      ReadsSpelling(ws[0], more + "#" + rest);
      SpelledWordsAreRead(ws[1..], rest);
    }
  }

  /** The last word of a line needs no separator. */
  lemma LastWordIsRead(word: string)
    ensures WordsOf(Bare(word)) == if word == "" then [] else [word]
  {
    hide WordsFrom, Bare;
    ReadsBare(word, "", "");
    assert Bare(word) + "" == Bare(word) && "" + word == word;
    ReadsEnd("", Reader(word, None, false));
  }

  function NonEmpty(words: seq<string>): seq<string> {
    if words == [] then [] else (if words[0] == "" then [] else [words[0]]) + NonEmpty(words[1..])
  }

  /** Whatever characters words contain, writing them quoted and reading the line gives the non-empty ones back. */
  lemma {:induction false} WrittenWordsAreRead(words: seq<string>)
    ensures WordsOf(Written(words)) == NonEmpty(words)
  {
    if words != [] {
      ReadsQuoted(words[0], '"', ' ', Written(words[1..]));
      WrittenWordsAreRead(words[1..]);
    }
  }
}
