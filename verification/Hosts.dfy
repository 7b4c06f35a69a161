/** Discovery of the concrete host aliases in an SSH configuration and the files it includes. */
module Hosts {
  import opened Wrappers
  import opened Text
  import opened Words
  import opened Rules

  const MAX_CONFIG_FILES: nat := 256
  const MAX_INCLUDE_DEPTH: nat := 32

  type Path = string

  datatype WarningKind = Missing | Unreadable | InvalidIncludePattern
  datatype Warning = Warning(path: Path, kind: WarningKind)
  datatype Limit = IncludeDepth | FileCount
  datatype Discovery = Discovery(aliases: seq<string>, warnings: seq<Warning>)

  // The file system as the walk finds it: canonical paths, readable texts, `~` and relative names made
  // absolute, and the matches of a pattern (None if the pattern is malformed).
  datatype World = World(
    canonicalize: Path -> Result<Path, WarningKind>, read: Path -> Option<string>,
    expand: string -> Path, glob: Path -> Option<seq<Path>>)

  // ----- what a file asks for

  predicate HasPattern(value: string) {
    exists c :: c in value && (c == '*' || c == '?' || c == '[')
  }

  predicate Concrete(value: string) {
    !(value != "" && value[0] == '!') && !HasPattern(value) && AliasError(value).None?
  }

  datatype Item = Host(alias: string) | Include(value: string)

  // The items a line contributes from its values on, by keyword.
  function HostItem(value: string): seq<Item> {
    if Concrete(value) then [Host(value)] else []
  }

  function HostItems(values: seq<string>): seq<Item> {
    if values == [] then [] else HostItem(values[0]) + HostItems(values[1..])
  }

  function IncludeItems(values: seq<string>): seq<Item> {
    seq(|values|, i requires 0 <= i < |values| => Include(values[i]))
  }

  function LineItems(line: string): seq<Item> {
    var words := WordsOf(line);
    if words == [] then []
    else if LowerAscii(words[0]) == "host" then HostItems(words[1..])
    else if LowerAscii(words[0]) == "include" then IncludeItems(words[1..])
    else []
  }

  function ItemsOf(lines: seq<string>): seq<Item> {
    if lines == [] then [] else LineItems(lines[0]) + ItemsOf(lines[1..])
  }

  function FileItems(w: World, file: Path): seq<Item> {
    match w.read(file)
    case None => []
    case Some(text) => ItemsOf(Join(Lines(text), ""))
  }

  // The paths an include visits: the matches, or the name itself when it is no pattern and matches nothing.
  function Targets(w: World, value: string): seq<Path> {
    match w.glob(w.expand(value))
    case None => []
    case Some(paths) => if paths == [] && !HasPattern(value) then [w.expand(value)] else paths
  }

  predicate LeadsTo(w: World, value: string, file: Path) {
    exists t :: t in Targets(w, value) && w.canonicalize(t) == Ok(file)
  }

  /** One readable file includes another. */
  ghost predicate Edge(w: World, from: Path, to: Path) {
    exists value :: Include(value) in FileItems(w, from) && LeadsTo(w, value, to)
  }

  ghost predicate Chain(w: World, files: seq<Path>) {
    files != [] && forall i :: 0 <= i < |files| - 1 ==> Edge(w, files[i], files[i + 1])
  }

  ghost predicate Links(w: World, config: Path, files: seq<Path>, last: Path) {
    Chain(w, files) && w.canonicalize(config) == Ok(files[0]) && files[|files| - 1] == last
  }

  ghost predicate Reaches(w: World, config: Path, file: Path) {
    exists files :: Links(w, config, files, file)
  }

  /** More than 256 different files are reachable. */
  ghost predicate TooMany(w: World, config: Path) {
    exists files: set<Path> :: |files| > MAX_CONFIG_FILES && forall f :: f in files ==> Reaches(w, config, f)
  }

  // Different files, each including the next, the last of them asking for one more.
  ghost predicate DeepStack(w: World, config: Path, files: seq<Path>) {
    && |files| == MAX_INCLUDE_DEPTH + 1 && Links(w, config, files, files[MAX_INCLUDE_DEPTH])
    && (forall i, j :: 0 <= i < j < |files| ==> files[i] != files[j])
    && exists value :: Include(value) in FileItems(w, files[MAX_INCLUDE_DEPTH]) && Targets(w, value) != []
  }

  ghost predicate TooDeep(w: World, config: Path) {
    exists files :: DeepStack(w, config, files)
  }

  // ----- the walk

  // A file whose items have all been acted on.
  ghost predicate Settled(w: World, file: Path, visited: set<Path>, aliases: set<string>) {
    && (forall a :: Host(a) in FileItems(w, file) ==> a in aliases)
    && (forall to :: Edge(w, file, to) ==> to in visited)
  }

  predicate ItemDone(w: World, item: Item, visited: set<Path>, aliases: set<string>) {
    match item
    case Host(a) => a in aliases
    case Include(value) =>
      forall t :: t in Targets(w, value) && w.canonicalize(t).Ok? ==> w.canonicalize(t).value in visited
  }

  ghost predicate ItemsDone(w: World, items: seq<Item>, visited: set<Path>, aliases: set<string>) {
    forall item :: item in items ==> ItemDone(w, item, visited, aliases)
  }

  predicate GivesHost(w: World, file: Path, alias: string) { Host(alias) in FileItems(w, file) }

  // Everything found so far is there to be found.
  ghost predicate Found(w: World, config: Path, visited: set<Path>, aliases: set<string>) {
    && (forall f :: f in visited ==> Reaches(w, config, f))
    && (forall a :: a in aliases ==> exists f :: f in visited && GivesHost(w, f, a))
  }

  // The files being processed, outermost first: each includes the next.
  ghost predicate OnStack(w: World, config: Path, stack: seq<Path>, visited: set<Path>) {
    && (forall i :: 0 <= i < |stack| ==> stack[i] in visited)
    && (forall i, j :: 0 <= i < j < |stack| ==> stack[i] != stack[j])
    && (stack != [] ==> Links(w, config, stack, stack[|stack| - 1]))
  }

  predicate Asks(w: World, stack: seq<Path>, value: string) {
    stack != [] && Include(value) in FileItems(w, stack[|stack| - 1])
  }

  ghost predicate Wanted(w: World, config: Path, stack: seq<Path>, path: Path) {
    if stack == [] then path == config else exists value :: Asks(w, stack, value) && path in Targets(w, value)
  }

  lemma {:induction false} ChainExtends(w: World, config: Path, stack: seq<Path>, path: Path, file: Path)
    requires stack != [] ==> Links(w, config, stack, stack[|stack| - 1])
    requires Wanted(w, config, stack, path) && w.canonicalize(path) == Ok(file)
    ensures Links(w, config, stack + [file], file) && Reaches(w, config, file)
  {
    var longer := stack + [file];
    if stack != [] {
      var value :| Asks(w, stack, value) && path in Targets(w, value);
      assert LeadsTo(w, value, file);
      assert Edge(w, stack[|stack| - 1], file);
      forall i | 0 <= i < |longer| - 1 ensures Edge(w, longer[i], longer[i + 1]) {
        if i < |stack| - 1 { assert Edge(w, stack[i], stack[i + 1]); }
      }
    }
    assert Links(w, config, longer, file);
  }

  lemma StackIsDeep(w: World, config: Path, stack: seq<Path>, path: Path)
    requires |stack| == MAX_INCLUDE_DEPTH + 1 && Wanted(w, config, stack, path)
    requires Links(w, config, stack, stack[|stack| - 1])
    requires forall i, j :: 0 <= i < j < |stack| ==> stack[i] != stack[j]
    ensures TooDeep(w, config)
  {
    var value :| Asks(w, stack, value) && path in Targets(w, value);
    assert Include(value) in FileItems(w, stack[MAX_INCLUDE_DEPTH]) && Targets(w, value) != [];
    assert DeepStack(w, config, stack);
  }

  lemma StillDone(w: World, items: seq<Item>, visited: set<Path>, aliases: set<string>, visited': set<Path>,
                  aliases': set<string>)
    requires ItemsDone(w, items, visited, aliases) && visited <= visited' && aliases <= aliases'
    ensures ItemsDone(w, items, visited', aliases')
  {
  }

  lemma DoneIsSettled(w: World, file: Path, visited: set<Path>, aliases: set<string>)
    requires ItemsDone(w, FileItems(w, file), visited, aliases)
    ensures Settled(w, file, visited, aliases)
  {
    forall to | Edge(w, file, to) ensures to in visited {
      var value :| Include(value) in FileItems(w, file) && LeadsTo(w, value, to);
      assert ItemDone(w, Include(value), visited, aliases);
    }
    forall a | Host(a) in FileItems(w, file) ensures a in aliases {
      assert ItemDone(w, Host(a), visited, aliases);
    }
  }

  lemma {:induction false} ItemsOfConcat(a: seq<string>, b: seq<string>)
    ensures ItemsOf(a + b) == ItemsOf(a) + ItemsOf(b)
    decreases a
  {
    hide LineItems;
    if a == [] {
      assert a + b == b;
    } else {
      assert (a + b)[1..] == a[1..] + b;
      ItemsOfConcat(a[1..], b);
    }
  }

  lemma ItemsExtend(lines: seq<string>, i: nat)
    requires i < |lines|
    ensures ItemsOf(lines[..i + 1]) == ItemsOf(lines[..i]) + LineItems(lines[i])
    ensures forall item :: item in LineItems(lines[i]) ==> item in ItemsOf(lines)
  {
    hide LineItems;
    assert lines[..i + 1] == lines[..i] + [lines[i]];
    ItemsOfConcat(lines[..i], [lines[i]]);
    assert ItemsOf([lines[i]]) == LineItems(lines[i]) + ItemsOf([]);
    assert lines == lines[..i + 1] + lines[i + 1..];
    ItemsOfConcat(lines[..i + 1], lines[i + 1..]);
  }

  lemma {:induction false} HostItemsConcat(a: seq<string>, b: seq<string>)
    ensures HostItems(a + b) == HostItems(a) + HostItems(b)
    decreases a
  {
    hide HostItem;
    if a == [] {
      assert a + b == b;
    } else {
      assert (a + b)[1..] == a[1..] + b;
      HostItemsConcat(a[1..], b);
    }
  }

  lemma HostsExtend(values: seq<string>, k: nat)
    requires k < |values|
    ensures HostItems(values[..k + 1]) == HostItems(values[..k]) + HostItem(values[k])
    ensures forall item :: item in HostItem(values[k]) ==> item in HostItems(values)
  {
    hide HostItem;
    assert values[..k + 1] == values[..k] + [values[k]];
    HostItemsConcat(values[..k], [values[k]]);
    assert HostItems([values[k]]) == HostItem(values[k]) + HostItems([]);
    assert values == values[..k + 1] + values[k + 1..];
    HostItemsConcat(values[..k + 1], values[k + 1..]);
  }

  lemma IncludesExtend(values: seq<string>, k: nat)
    requires k < |values|
    ensures IncludeItems(values[..k + 1]) == IncludeItems(values[..k]) + [Include(values[k])]
    ensures Include(values[k]) in IncludeItems(values)
  {
    assert IncludeItems(values)[k] == Include(values[k]);
  }

  lemma OneMoreHost(w: World, config: Path, visited: set<Path>, aliases: set<string>, file: Path, alias: string)
    requires Found(w, config, visited, aliases) && file in visited && GivesHost(w, file, alias)
    ensures Found(w, config, visited, aliases + {alias})
  {
    forall a | a in aliases + {alias} ensures exists f :: f in visited && GivesHost(w, f, a) {
      if a == alias { assert GivesHost(w, file, a); }
    }
  }

  lemma OneMoreFile(w: World, config: Path, visited: set<Path>, aliases: set<string>, file: Path)
    requires Found(w, config, visited, aliases) && Reaches(w, config, file)
    ensures Found(w, config, visited + {file}, aliases)
  {
    hide Reaches, GivesHost;
    forall a | a in aliases ensures exists f :: f in visited + {file} && GivesHost(w, f, a) {
      var f :| f in visited && GivesHost(w, f, a);
      assert f in visited + {file};
    }
  }

  lemma SettledLater(w: World, file: Path, visited: set<Path>, aliases: set<string>, visited': set<Path>,
                     aliases': set<string>)
    requires Settled(w, file, visited, aliases) && visited <= visited' && aliases <= aliases'
    ensures Settled(w, file, visited', aliases')
  {
  }

  // What every part of the walk guarantees: it only adds, and files it adds are settled.
  ghost predicate Grown(w: World, v0: set<Path>, a0: set<string>, visited: set<Path>, aliases: set<string>) {
    && v0 <= visited && a0 <= aliases
    && forall f :: f in visited && f !in v0 ==> Settled(w, f, visited, aliases)
  }

  lemma NothingGrown(w: World, v: set<Path>, a: set<string>)
    ensures Grown(w, v, a, v, a)
  {
  }

  lemma MoreAliases(w: World, v: set<Path>, a0: set<string>, a: set<string>)
    requires a0 <= a
    ensures Grown(w, v, a0, v, a)
  {
  }

  lemma GrownTwice(w: World, v0: set<Path>, a0: set<string>, v1: set<Path>, a1: set<string>, v2: set<Path>,
                   a2: set<string>)
    requires Grown(w, v0, a0, v1, a1) && Grown(w, v1, a1, v2, a2)
    ensures Grown(w, v0, a0, v2, a2) && v1 <= v2 && a1 <= a2
  {
    forall f | f in v2 && f !in v0 ensures Settled(w, f, v2, a2) {
      if f in v1 { SettledLater(w, f, v1, a1, v2, a2); }
    }
  }

  lemma GrownByFile(w: World, v0: set<Path>, a0: set<string>, file: Path, visited: set<Path>, aliases: set<string>)
    requires Grown(w, v0 + {file}, a0, visited, aliases) && Settled(w, file, visited, aliases)
    ensures Grown(w, v0, a0, visited, aliases) && file in visited
  {
  }

  lemma UnreadableIsSettled(w: World, file: Path, visited: set<Path>, aliases: set<string>)
    requires w.read(file).None?
    ensures Settled(w, file, visited, aliases)
  {
  }

  lemma OnStackLater(w: World, config: Path, stack: seq<Path>, v0: set<Path>, visited: set<Path>)
    requires OnStack(w, config, stack, v0) && v0 <= visited
    ensures OnStack(w, config, stack, visited)
  {
  }

  lemma PushedOnStack(w: World, config: Path, stack: seq<Path>, visited: set<Path>, file: Path)
    requires OnStack(w, config, stack, visited) && file !in visited && Links(w, config, stack + [file], file)
    ensures OnStack(w, config, stack + [file], visited + {file})
  {
    hide Links;
  }

  lemma OneTooMany(w: World, config: Path, visited: set<Path>, aliases: set<string>)
    requires Found(w, config, visited, aliases) && |visited| > MAX_CONFIG_FILES
    ensures TooMany(w, config)
  {
  }

  ghost predicate EachOnce(visited: set<Path>, processed: seq<Path>) {
    && (forall f :: f in visited <==> f in processed)
    && (forall i, j :: 0 <= i < j < |processed| ==> processed[i] != processed[j])
  }

  lemma OnceMore(visited: set<Path>, processed: seq<Path>, file: Path)
    requires EachOnce(visited, processed) && file !in visited
    ensures EachOnce(visited + {file}, processed + [file])
  {
  }

  class ConfigWalker {
    const w: World
    ghost const config: Path
    var visited: set<Path>
    var aliases: set<string>
    var warnings: seq<Warning>
    // The files in the order they were first visited, each read at that moment and at no other.
    ghost var processed: seq<Path>

    constructor (world: World, ghost root: Path)
      ensures w == world && config == root && visited == {} && aliases == {} && warnings == [] && processed == []
      ensures Valid()
    {
      w, config := world, root;
      visited, aliases, warnings, processed := {}, {}, [], [];
    }

    ghost predicate Valid()
      reads this
    {
      && Found(w, config, visited, aliases)
      && EachOnce(visited, processed)
      && |visited| <= MAX_CONFIG_FILES
    }

    ghost predicate Failed(limit: Limit) {
      match limit
      case IncludeDepth => TooDeep(w, config)
      case FileCount => TooMany(w, config)
    }

    method Visit(path: Path, depth: nat, ghost stack: seq<Path>) returns (r: Result<(), Limit>)
      requires Valid() && |stack| == depth <= MAX_INCLUDE_DEPTH + 1
      requires OnStack(w, config, stack, visited) && Wanted(w, config, stack, path)
      modifies this
      ensures r.Ok? ==> Valid() && Grown(w, old(visited), old(aliases), visited, aliases)
      ensures r.Ok? ==> w.canonicalize(path).Ok? ==> w.canonicalize(path).value in visited
      ensures r.Err? ==> Failed(r.error)
      decreases MAX_INCLUDE_DEPTH + 2 - depth, 0
    {
      hide Found, Grown, Settled, Wanted, Links, Reaches, TooMany, TooDeep, EachOnce;
      ghost var v0, a0 := visited, aliases;
      NothingGrown(w, v0, a0);
      if depth > MAX_INCLUDE_DEPTH {
        StackIsDeep(w, config, stack, path);
        return Err(IncludeDepth);
      }
      var canonical := w.canonicalize(path);
      if canonical.Err? {
        warnings := warnings + [Warning(path, canonical.error)];
        return Ok(());
      }
      var file := canonical.value;
      if file in visited { return Ok(()); }
      ChainExtends(w, config, stack, path, file);
      OneMoreFile(w, config, visited, aliases, file);
      PushedOnStack(w, config, stack, visited, file);
      hide OnStack;
      OnceMore(visited, processed, file);
      visited := visited + {file};
      if |visited| > MAX_CONFIG_FILES {
        OneTooMany(w, config, visited, aliases);
        return Err(FileCount);
      }
      processed := processed + [file];
      var text := w.read(file);
      if text.None? {
        warnings := warnings + [Warning(file, Unreadable)];
        NothingGrown(w, visited, aliases);
        UnreadableIsSettled(w, file, visited, aliases);
        GrownByFile(w, v0, a0, file, visited, aliases);
        return Ok(());
      }
      r := ProcessFile(file, text.value, depth, stack + [file]);
      if r.Ok? { GrownByFile(w, v0, a0, file, visited, aliases); }
    }

    method ProcessFile(file: Path, text: string, depth: nat, ghost stack: seq<Path>) returns (r: Result<(), Limit>)
      requires Valid() && |stack| == depth + 1 <= MAX_INCLUDE_DEPTH + 1
      requires OnStack(w, config, stack, visited) && stack[depth] == file && w.read(file) == Some(text)
      modifies this
      ensures r.Ok? ==> Valid() && Grown(w, old(visited), old(aliases), visited, aliases)
      ensures r.Ok? ==> Settled(w, file, visited, aliases)
      ensures r.Err? ==> Failed(r.error)
      decreases MAX_INCLUDE_DEPTH + 2 - depth - 1, 4
    {
      hide ItemsOf, LineItems, Join, Lines, Found, Grown, Settled, OnStack, ItemsDone, Valid, Failed;
      var lines := LogicalLines(text);
      assert FileItems(w, file) == ItemsOf(lines);
      ghost var v0, a0 := visited, aliases;
      NothingGrown(w, v0, a0);
      NoItems(lines[..0]);
      NothingDone(w, ItemsOf(lines[..0]), v0, a0);
      for i := 0 to |lines|
        invariant Valid() && Grown(w, v0, a0, visited, aliases)
        invariant OnStack(w, config, stack, visited)
        invariant ItemsDone(w, ItemsOf(lines[..i]), visited, aliases)
      {
        ghost var v, a := visited, aliases;
        ItemsExtend(lines, i);
        r := ProcessLine(lines[i], file, depth, stack);
        if r.Err? { return; }
        GrownTwice(w, v0, a0, v, a, visited, aliases);
        OnStackLater(w, config, stack, v, visited);
        StillDone(w, ItemsOf(lines[..i]), v, a, visited, aliases);
        BothDone(w, ItemsOf(lines[..i]), LineItems(lines[i]), visited, aliases);
      }
      assert lines[..|lines|] == lines;
      DoneIsSettled(w, file, visited, aliases);
      r := Ok(());
    }

    method ProcessLine(line: string, file: Path, depth: nat, ghost stack: seq<Path>) returns (r: Result<(), Limit>)
      requires Valid() && |stack| == depth + 1 <= MAX_INCLUDE_DEPTH + 1
      requires OnStack(w, config, stack, visited) && stack[depth] == file
      requires forall item :: item in LineItems(line) ==> item in FileItems(w, file)
      modifies this
      ensures r.Ok? ==> Valid() && Grown(w, old(visited), old(aliases), visited, aliases)
      ensures r.Ok? ==> ItemsDone(w, LineItems(line), visited, aliases)
      ensures r.Err? ==> Failed(r.error)
      decreases MAX_INCLUDE_DEPTH + 2 - depth - 1, 3
    {
      hide Found, Grown, ItemsDone, WordsOf, LowerAscii, FileItems, HostItems, IncludeItems, Failed, Links;
      r := Ok(());
      NothingGrown(w, visited, aliases);
      NothingDone(w, [], visited, aliases);
      var words := SplitWords(line);
      if words == [] { return; }
      var keyword, values := words[0], words[1..];
      if LowerAscii(keyword) == "host" {
        AddHosts(values, file);
      } else if LowerAscii(keyword) == "include" {
        r := FollowIncludes(values, depth, stack);
      }
    }

    method FollowIncludes(values: seq<string>, depth: nat, ghost stack: seq<Path>) returns (r: Result<(), Limit>)
      requires Valid() && |stack| == depth + 1 <= MAX_INCLUDE_DEPTH + 1
      requires OnStack(w, config, stack, visited)
      requires forall item :: item in IncludeItems(values) ==> item in FileItems(w, stack[depth])
      modifies this
      ensures r.Ok? ==> Valid() && Grown(w, old(visited), old(aliases), visited, aliases)
      ensures r.Ok? ==> ItemsDone(w, IncludeItems(values), visited, aliases)
      ensures r.Err? ==> Failed(r.error)
      decreases MAX_INCLUDE_DEPTH + 2 - depth - 1, 2
    {
      hide Found, Grown, ItemsDone, ItemDone, OnStack, FileItems, IncludeItems, Valid, Failed;
      ghost var v0, a0 := visited, aliases;
      NothingGrown(w, v0, a0);
      NoItems(values[..0]);
      NothingDone(w, IncludeItems(values[..0]), v0, a0);
      for k := 0 to |values|
        invariant Valid() && Grown(w, v0, a0, visited, aliases)
        invariant OnStack(w, config, stack, visited)
        invariant ItemsDone(w, IncludeItems(values[..k]), visited, aliases)
      {
        ghost var v, a := visited, aliases;
        IncludesExtend(values, k);
        r := FollowInclude(values[k], depth + 1, stack);
        if r.Err? { return; }
        GrownTwice(w, v0, a0, v, a, visited, aliases);
        OnStackLater(w, config, stack, v, visited);
        StillDone(w, IncludeItems(values[..k]), v, a, visited, aliases);
        OneDone(w, Include(values[k]), visited, aliases);
        BothDone(w, IncludeItems(values[..k]), [Include(values[k])], visited, aliases);
      }
      assert values[..|values|] == values;
      r := Ok(());
    }

    method AddHosts(values: seq<string>, file: Path)
      requires Valid() && file in visited
      requires forall item :: item in HostItems(values) ==> item in FileItems(w, file)
      modifies this`aliases
      ensures Valid() && Grown(w, old(visited), old(aliases), visited, aliases)
      ensures ItemsDone(w, HostItems(values), visited, aliases)
    {
      hide Found, Concrete, HostItems, FileItems;
      NoItems(values[..0]);
      NothingDone(w, HostItems(values[..0]), visited, aliases);
      for k := 0 to |values|
        invariant Valid() && old(aliases) <= aliases
        invariant ItemsDone(w, HostItems(values[..k]), visited, aliases)
      {
        HostsExtend(values, k);
        if Concrete(values[k]) {
          assert Host(values[k]) in HostItem(values[k]);
          assert GivesHost(w, file, values[k]);
          OneMoreHost(w, config, visited, aliases, file, values[k]);
          aliases := aliases + {values[k]};
        }
      }
      assert values[..|values|] == values;
      MoreAliases(w, visited, old(aliases), aliases);
    }

    method FollowInclude(value: string, depth: nat, ghost stack: seq<Path>) returns (r: Result<(), Limit>)
      requires Valid() && 0 < depth == |stack| <= MAX_INCLUDE_DEPTH + 1
      requires OnStack(w, config, stack, visited) && Asks(w, stack, value)
      modifies this
      ensures r.Ok? ==> Valid() && Grown(w, old(visited), old(aliases), visited, aliases)
      ensures r.Ok? ==> ItemDone(w, Include(value), visited, aliases)
      ensures r.Err? ==> Failed(r.error)
      decreases MAX_INCLUDE_DEPTH + 2 - depth, 1
    {
      hide Found, Grown, OnStack, Valid, Failed, Asks, HasPattern;
      ghost var v0, a0 := visited, aliases;
      NothingGrown(w, v0, a0);
      r := Ok(());
      var expanded := w.expand(value);
      var paths := w.glob(expanded);
      if paths.None? {
        NewWarning(Warning(expanded, InvalidIncludePattern));
        return;
      }
      var matched := false;
      for k := 0 to |paths.value|
        invariant Valid() && Grown(w, v0, a0, visited, aliases) && OnStack(w, config, stack, visited)
        invariant matched <==> k > 0
        invariant forall j :: 0 <= j < k && w.canonicalize(paths.value[j]).Ok? ==>
          w.canonicalize(paths.value[j]).value in visited
      {
        ghost var v, a := visited, aliases;
        matched := true;
        assert Wanted(w, config, stack, paths.value[k]);
        r := Visit(paths.value[k], depth, stack);
        if r.Err? { return; }
        GrownTwice(w, v0, a0, v, a, visited, aliases);
        OnStackLater(w, config, stack, v, visited);
      }
      r := Ok(());
      if !matched && !HasPattern(value) {
        ghost var v, a := visited, aliases;
        assert Wanted(w, config, stack, expanded);
        r := Visit(expanded, depth, stack);
        if r.Ok? { GrownTwice(w, v0, a0, v, a, visited, aliases); }
      }
    }

    method NewWarning(warning: Warning)
      requires Valid()
      modifies this`warnings
      ensures Valid() && warnings == old(warnings) + [warning]
    {
      warnings := warnings + [warning];
    }
  }

  lemma NoItems(lines: seq<string>)
    requires lines == []
    ensures ItemsOf(lines) == [] && HostItems(lines) == [] && IncludeItems(lines) == []
  {
  }

  lemma NothingDone(w: World, items: seq<Item>, visited: set<Path>, aliases: set<string>)
    requires items == []
    ensures ItemsDone(w, items, visited, aliases)
  {
  }

  lemma OneDone(w: World, item: Item, visited: set<Path>, aliases: set<string>)
    requires ItemDone(w, item, visited, aliases)
    ensures ItemsDone(w, [item], visited, aliases)
  {
  }

  lemma BothDone(w: World, a: seq<Item>, b: seq<Item>, visited: set<Path>, aliases: set<string>)
    requires ItemsDone(w, a, visited, aliases) && ItemsDone(w, b, visited, aliases)
    ensures ItemsDone(w, a + b, visited, aliases)
  {
  }

  // ----- the order of the result

  predicate Before(a: string, b: string)
    decreases b
  {
    b != "" && (a == "" || a[0] < b[0] || (a[0] == b[0] && Before(a[1..], b[1..])))
  }

  lemma {:induction false} BeforeIsTotal(a: string, b: string)
    ensures a == b || Before(a, b) || Before(b, a)
    ensures !(Before(a, b) && Before(b, a))
    decreases |a| + |b|
  {
    if a != "" && b != "" && a[0] == b[0] {
      BeforeIsTotal(a[1..], b[1..]);
      assert a == [a[0]] + a[1..] && b == [b[0]] + b[1..];
    }
  }

  lemma {:induction false} BeforeIsTransitive(a: string, b: string, c: string)
    requires Before(a, b) && Before(b, c)
    ensures Before(a, c)
    decreases |a|
  {
    if a != "" && a[0] == b[0] == c[0] { BeforeIsTransitive(a[1..], b[1..], c[1..]); }
  }

  predicate Ascending(s: seq<string>) {
    forall i, j :: 0 <= i < j < |s| ==> Before(s[i], s[j])
  }

  // Insertion into an ordered set.
  method Insert(s: seq<string>, a: string) returns (t: seq<string>)
    requires Ascending(s) && a !in s
    ensures Ascending(t) && forall x :: x in t <==> x in s || x == a
  {
    hide Before;
    var i := 0;
    while i < |s| && Before(s[i], a)
      invariant i <= |s|
      invariant forall k :: 0 <= k < i ==> Before(s[k], a)
    {
      i := i + 1;
    }
    forall k | i <= k < |s| ensures Before(a, s[k]) {
      BeforeIsTotal(a, s[i]);
      assert s[i] in s;
      if i < k { BeforeIsTransitive(a, s[i], s[k]); }
    }
    t := s[..i] + [a] + s[i..];
    assert s == s[..i] + s[i..];
  }

  method Sorted(found: set<string>) returns (s: seq<string>)
    ensures Ascending(s) && forall a :: a in s <==> a in found
  {
    hide Before;
    s := [];
    var left := found;
    while left != {}
      invariant left <= found && Ascending(s)
      invariant forall a :: a in s <==> a in found && a !in left
      decreases |left|
    {
      var a :| a in left;
      left := left - {a};
      s := Insert(s, a);
    }
  }

  // ----- main results

  lemma {:induction false} SettledChain(w: World, files: seq<Path>, visited: set<Path>, aliases: set<string>, i: nat)
    requires Chain(w, files) && files[0] in visited && i < |files|
    requires forall f :: f in visited ==> Settled(w, f, visited, aliases)
    ensures files[i] in visited
  {
    if i > 0 {
      SettledChain(w, files, visited, aliases, i - 1);
      assert Edge(w, files[i - 1], files[i - 1 + 1]);
      hide Edge;
    }
  }

  lemma VisitedAreReachable(w: World, config: Path, visited: set<Path>, aliases: set<string>, file: Path)
    requires Found(w, config, visited, aliases) && Grown(w, {}, {}, visited, aliases)
    requires w.canonicalize(config).Ok? ==> w.canonicalize(config).value in visited
    ensures file in visited <==> Reaches(w, config, file)
  {
    hide Edge, Settled;
    if Reaches(w, config, file) {
      var files :| Links(w, config, files, file);
      SettledChain(w, files, visited, aliases, |files| - 1);
    }
  }

  /** The aliases a reachable readable file names, and the order in which files were read. */
  ghost predicate Complete(w: World, config: Path, d: Discovery, processed: seq<Path>) {
    && Ascending(d.aliases)
    && (forall a :: a in d.aliases <==> exists f :: Reaches(w, config, f) && GivesHost(w, f, a))
    && (forall f :: f in processed <==> Reaches(w, config, f))
    && (forall i, j :: 0 <= i < j < |processed| ==> processed[i] != processed[j])
  }

  lemma WalkIsComplete(w: World, config: Path, visited: set<Path>, aliases: set<string>, d: Discovery,
                       processed: seq<Path>)
    requires Found(w, config, visited, aliases) && Grown(w, {}, {}, visited, aliases)
    requires w.canonicalize(config).Ok? ==> w.canonicalize(config).value in visited
    requires Ascending(d.aliases) && forall a :: a in d.aliases <==> a in aliases
    requires EachOnce(visited, processed)
    ensures Complete(w, config, d, processed)
  {
    hide Reaches, Before;
    forall f ensures f in visited <==> Reaches(w, config, f) {
      VisitedAreReachable(w, config, visited, aliases, f);
    }
    forall a | exists f :: Reaches(w, config, f) && GivesHost(w, f, a) ensures a in aliases {
      var f :| Reaches(w, config, f) && GivesHost(w, f, a);
      assert Settled(w, f, visited, aliases);
    }
  }

  /**
   * Discovery ends. If it succeeds, its aliases are the sorted set of acceptable host words of all readable
   * reachable files, each of at most 256 files read once despite cycles; if it fails, more than 256 files
   * are reachable, or 33 files include each other in a row and the last asks for more.
   */
  method DiscoverHosts(w: World, config: Path) returns (r: Result<Discovery, Limit>, ghost processed: seq<Path>)
    ensures r.Ok? ==> Complete(w, config, r.value, processed) && |processed| <= MAX_CONFIG_FILES
    ensures r == Err(FileCount) ==> TooMany(w, config)
    ensures r == Err(IncludeDepth) ==> TooDeep(w, config)
  {
    hide Complete, Grown, Reaches, TooMany, TooDeep, EachOnce;
    var walker := new ConfigWalker(w, config);
    processed := [];
    var done := walker.Visit(config, 0, []);
    if done.Err? { return Err(done.error), []; }
    processed := walker.processed;
    DistinctCount(processed, walker.visited);
    var aliases := Sorted(walker.aliases);
    var d := Discovery(aliases, walker.warnings);
    WalkIsComplete(w, config, walker.visited, walker.aliases, d, processed);
    r := Ok(d);
  }

  lemma {:induction false} DistinctCount(s: seq<Path>, elements: set<Path>)
    requires EachOnce(elements, s)
    ensures |s| == |elements|
    decreases s
  {
    if s != [] {
      var rest := s[1..];
      assert s == [s[0]] + rest;
      assert forall f :: f in elements - {s[0]} <==> f in rest;
      DistinctCount(rest, elements - {s[0]});
    } else {
      assert elements == {};
    }
  }

  // ----- the lines of a file, from the words they are written with

  lemma {:induction false} HostItemsMeans(values: seq<string>, item: Item)
    ensures item in HostItems(values) <==> item.Host? && item.alias in values && Concrete(item.alias)
  {
    hide Concrete;
    if values != [] {
      HostItemsMeans(values[1..], item);
      assert values == [values[0]] + values[1..];
    }
  }

  lemma {:induction false} NothingDropped(words: seq<string>)
    requires forall w :: w in words ==> w != ""
    ensures NonEmpty(words) == words
  {
    if words != [] {
      assert forall w :: w in words[1..] ==> w in words;
      NothingDropped(words[1..]);
      assert words == [words[0]] + words[1..] && words[0] in words;
    }
  }

  /** A `Host` line gives its words that are concrete aliases, an `Include` line all its words, others nothing. */
  lemma WrittenLineGives(keyword: string, values: seq<string>, item: Item)
    requires keyword != "" && forall v :: v in values ==> v != ""
    ensures item in LineItems(Written([keyword] + values)) <==>
            || (item.Host? && LowerAscii(keyword) == "host" && item.alias in values && Concrete(item.alias))
            || (item.Include? && LowerAscii(keyword) == "include" && item.value in values)
  {
    hide Written, Concrete, HostItems, LowerAscii, WordsOf, NonEmpty;
    var words := [keyword] + values;
    WrittenWordsAreRead(words);
    NothingDropped(words);
    assert words[1..] == values;
    HostItemsMeans(values, item);
    assert "host"[0] != "include"[0];
    if item.Include? && item.value in values {
      var i :| 0 <= i < |values| && values[i] == item.value;
      assert IncludeItems(values)[i] == item;
    }
  }

  /** A concrete alias is a valid one that is no negation and no pattern. */
  lemma ConcreteMeans(value: string)
    ensures Concrete(value) <==>
            && AliasError(value).None? && value[..1] != "!"
            && '*' !in value && '?' !in value && '[' !in value
  {
    hide AliasError;
    assert value != "" ==> value[..1] == [value[0]];
    assert "!"[0] == '!';
    assert AliasError("").Some? by { NoAlias(); }
  }

  lemma NoAlias()
    ensures AliasError("").Some?
  {
  }

  /** What an include visits: what its pattern matches, or the very name if that is no pattern. */
  lemma TargetsMean(w: World, value: string, t: Path)
    ensures t in Targets(w, value) <==>
            && w.glob(w.expand(value)).Some?
            && var matches := w.glob(w.expand(value)).value;
               t in matches
               || (matches == [] && t == w.expand(value) && '*' !in value && '?' !in value && '[' !in value)
  {
    hide HasPattern;
    PatternMeans(value);
  }

  lemma PatternMeans(value: string)
    ensures HasPattern(value) <==> '*' in value || '?' in value || '[' in value
  {
  }
}
