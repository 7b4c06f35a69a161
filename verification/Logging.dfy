/** The bounded application log: one-line records, a size limit, and a fixed number of generations. */
module Logging {
  import opened Wrappers

  type byte = n: nat | n < 256

  const TAB: byte := 9
  const NEWLINE: byte := 10
  const RETURN: byte := 13
  const SPACE: byte := 32

  // ----- records

  function SingleLine(value: seq<byte>): (r: seq<byte>)
    ensures |r| == |value|
    ensures forall i :: 0 <= i < |r| ==> r[i] != NEWLINE && r[i] != RETURN && r[i] != TAB
    ensures forall i :: 0 <= i < |r| && r[i] != value[i] ==> r[i] == SPACE
    ensures forall i :: 0 <= i < |r| && value[i] != NEWLINE && value[i] != RETURN && value[i] != TAB ==>
              r[i] == value[i]
  {
    seq(|value|, i requires 0 <= i < |value| =>
      if value[i] == NEWLINE || value[i] == RETURN || value[i] == TAB then SPACE else value[i])
  }

  function Line(level: seq<byte>, message: seq<byte>): seq<byte> {
    SingleLine(level) + [TAB] + SingleLine(message) + [NEWLINE]
  }

  predicate OneLine(line: seq<byte>) {
    line != [] && line[|line| - 1] == NEWLINE && forall i :: 0 <= i < |line| - 1 ==> line[i] != NEWLINE
  }

  lemma LinesAreSingle(level: seq<byte>, message: seq<byte>)
    ensures OneLine(Line(level, message))
  {
  }

  /** The level stands before the only tab of a record, the message behind it. */
  lemma LineReadsBack(level: seq<byte>, message: seq<byte>, i: nat)
    requires i < |Line(level, message)| && Line(level, message)[i] == TAB
    ensures var line := Line(level, message);
      line[..i] == SingleLine(level) && line[i + 1..|line| - 1] == SingleLine(message)
  {
    hide SingleLine;
    var line := Line(level, message);
    assert i == |level|;
  }

  /** What was appended by one write: the whole record, or, when the write failed, a proper part of it. */
  datatype Chunk = Whole(line: seq<byte>) | Torn(part: seq<byte>)

  function Bytes(c: Chunk): seq<byte> {
    match c
    case Whole(line) => line
    case Torn(part) => part
  }

  predicate ChunkOk(c: Chunk) {
    match c
    case Whole(line) => OneLine(line)
    case Torn(part) => NEWLINE !in part
  }

  function Size(chunks: seq<Chunk>): nat {
    if chunks == [] then 0 else Size(chunks[..|chunks| - 1]) + |Bytes(chunks[|chunks| - 1])|
  }

  function Generation(files: map<nat, seq<Chunk>>, g: nat): seq<Chunk> {
    if g in files then files[g] else []
  }

  // The generations from the oldest index down to the active file, in the order they were written.
  function Kept(files: map<nat, seq<Chunk>>, oldest: nat): seq<Chunk> {
    Generation(files, oldest) + if oldest == 0 then [] else Kept(files, oldest - 1)
  }

  predicate IsSuffix(a: seq<Chunk>, b: seq<Chunk>) { |a| <= |b| && b[|b| - |a|..] == a }

  // ----- how the operations change what is kept

  lemma SuffixOfSuffix(a: seq<Chunk>, b: seq<Chunk>, all: seq<Chunk>)
    requires IsSuffix(a + b, all)
    ensures IsSuffix(b, all)
  {
    assert b == (a + b)[|a|..];
  }

  lemma {:induction false} SameBelow(files: map<nat, seq<Chunk>>, files': map<nat, seq<Chunk>>, n: nat)
    requires forall g: nat :: g <= n ==> Generation(files', g) == Generation(files, g)
    ensures Kept(files', n) == Kept(files, n)
  {
    hide Generation;
    if n > 0 { SameBelow(files, files', n - 1); }
  }

  lemma KeptUnfolds(files: map<nat, seq<Chunk>>, n: nat)
    ensures Kept(files, n) == Generation(files, n) + if n == 0 then [] else Kept(files, n - 1)
  {
    hide Generation;
  }

  lemma {:induction false} MovedGenerations(files: map<nat, seq<Chunk>>, files': map<nat, seq<Chunk>>, from: nat,
                                            n: nat)
    requires from < n
    requires Generation(files, from + 1) == [] && Generation(files', from) == []
    requires Generation(files', from + 1) == Generation(files, from)
    requires forall g: nat :: g != from && g != from + 1 ==> Generation(files', g) == Generation(files, g)
    ensures Kept(files', n) == Kept(files, n)
  {
    hide Generation, Kept;
    KeptUnfolds(files, n);
    KeptUnfolds(files', n);
    if n == from + 1 {
      KeptUnfolds(files, from);
      KeptUnfolds(files', from);
      if from > 0 { SameBelow(files, files', from - 1); }
      var below := if from == 0 then [] else Kept(files, from - 1);
      assert [] + (Generation(files, from) + below) == Generation(files, from) + ([] + below);
    } else {
      MovedGenerations(files, files', from, n - 1);
    }
  }

  /** Moving a generation up into a free place changes nothing. */
  lemma MovedUp(files: map<nat, seq<Chunk>>, from: nat, n: nat)
    requires from < n && from in files && from + 1 !in files
    ensures Kept((files - {from})[from + 1 := files[from]], n) == Kept(files, n)
  {
    MovedGenerations(files, (files - {from})[from + 1 := files[from]], from, n);
  }

  lemma RemovedGeneration(files: map<nat, seq<Chunk>>, n: nat, g: nat)
    ensures Generation(files - {n}, g) == if g == n then [] else Generation(files, g)
  {
  }

  lemma RemovedOldest(files: map<nat, seq<Chunk>>, n: nat)
    ensures Kept(files, n) == Generation(files, n) + Kept(files - {n}, n)
  {
    hide Generation, Kept;
    var rest := files - {n};
    KeptUnfolds(files, n);
    KeptUnfolds(rest, n);
    RemovedGeneration(files, n, n);
    if n > 0 {
      forall g: nat | g <= n - 1 ensures Generation(rest, g) == Generation(files, g) {
        RemovedGeneration(files, n, g);
      }
      SameBelow(files, rest, n - 1);
      var below := Kept(files, n - 1);
      assert [] + below == below;
    }
  }

  lemma {:induction false} Appended(files: map<nat, seq<Chunk>>, c: Chunk, n: nat)
    ensures Kept(files[0 := Generation(files, 0) + [c]], n) == Kept(files, n) + [c]
  {
    if n > 0 { Appended(files, c, n - 1); }
  }

  lemma {:induction false} AddedSize(chunks: seq<Chunk>, c: Chunk)
    ensures Size(chunks + [c]) == Size(chunks) + |Bytes(c)|
  {
    assert (chunks + [c])[..|chunks|] == chunks;
  }

  ghost predicate Bounded(files: map<nat, seq<Chunk>>, maxBytes: nat) {
    forall g :: g in files ==> Size(files[g]) <= maxBytes
  }

  // ----- one write, operation by operation

  type Files = map<nat, seq<Chunk>>

  datatype Limits = Limits(maxBytes: nat, backups: nat)

  // The generations on disk, and everything ever appended in order.
  datatype Log = Log(files: Files, history: seq<Chunk>)

  const EMPTY := Log(map[], [])

  // Which operations of a write succeed. `appended` is how much of the line reaches the file.
  datatype Outcomes = Outcomes(
    validated: bool, measured: bool, removed: bool, renamed: nat -> bool, synced: bool, opened_: bool, appended: nat,
    flushed: bool)

  function MovedFile(files: Files, index: nat): Files {
    if index in files then (files - {index})[index + 1 := files[index]] else files
  }

  // Renames the generations from `index` down to the active file, up to the first that fails.
  function MovedFiles(files: Files, index: nat, o: Outcomes): (Files, bool)
    decreases index
  {
    if index in files && !o.renamed(index) then (files, false)
    else if index == 0 then (MovedFile(files, 0), true)
    else MovedFiles(MovedFile(files, index), index - 1, o)
  }

  function Rotated(files: Files, backups: nat, o: Outcomes): (Files, bool) {
    if !o.removed then (files, false)
    else if backups == 0 then (files - {0}, true)
    else
      var (moved, done) := MovedFiles(files - {backups}, backups - 1, o);
      (moved, done && o.synced)
  }

  function ChunkOf(line: seq<byte>, appended: nat): Chunk {
    if appended < |line| then Torn(line[..appended]) else Whole(line)
  }

  function AppendedTo(log: Log, line: seq<byte>, o: Outcomes): Log {
    if !o.opened_ then log
    else
      var chunk := ChunkOf(line, o.appended);
      Log(log.files[0 := Generation(log.files, 0) + [chunk]], log.history + [chunk])
  }

  predicate NeedsRotation(files: Files, maxBytes: nat, line: seq<byte>) {
    0 in files && Size(files[0]) + |line| > maxBytes
  }

  // The generations the line is appended to, if it comes to that.
  function Prepared(lim: Limits, files: Files, line: seq<byte>, o: Outcomes): (Files, bool) {
    if |line| > lim.maxBytes || !o.validated || !o.measured then (files, false)
    else if NeedsRotation(files, lim.maxBytes, line) then Rotated(files, lim.backups, o)
    else (files, true)
  }

  function WriteLine(lim: Limits, log: Log, line: seq<byte>, o: Outcomes): (Log, bool) {
    var (files, ready) := Prepared(lim, log.files, line, o);
    if !ready then (log.(files := files), false)
    else (AppendedTo(log.(files := files), line, o), o.opened_ && o.appended >= |line| && o.flushed)
  }

  /** The log of one daemon; each method is the operation of the same name above. */
  class RotatingLog {
    const lim: Limits
    var files: Files
    ghost var history: seq<Chunk>

    ghost function View(): Log
      reads this
    {
      Log(files, history)
    }

    constructor (limits: Limits, found: Files)
      ensures lim == limits && View() == Log(found, Kept(found, limits.backups))
    {
      lim := limits;
      files, history := found, Kept(found, limits.backups);
    }

    // A rename never has a kept generation as its target.
    method MoveUp(index: nat, ok: bool) returns (done: bool)
      requires index + 1 !in files
      modifies this`files
      ensures done == (index in old(files) ==> ok)
      ensures files == if done then MovedFile(old(files), index) else old(files)
    {
      done := ok || index !in files;
      if ok && index in files {
        files := (files - {index})[index + 1 := files[index]];
      }
    }

    method Rotate(o: Outcomes) returns (done: bool)
      modifies this`files
      ensures (files, done) == Rotated(old(files), lim.backups, o)
    {
      if !o.removed { return false; }
      files := files - {lim.backups};
      if lim.backups == 0 { return true; }
      ghost var want := MovedFiles(files, lim.backups - 1, o);
      var index := lim.backups;
      while index > 1
        invariant 1 <= index <= lim.backups && index !in files
        invariant want == MovedFiles(files, index - 1, o)
      {
        index := index - 1;
        var moved := MoveUp(index, o.renamed(index));
        if !moved { return false; }
      }
      var moved := MoveUp(0, o.renamed(0));
      if !moved { return false; }
      return o.synced;
    }

    // Appends to the active file, which is created if missing.
    method Append(line: seq<byte>, o: Outcomes) returns (written: bool)
      modifies this
      ensures View() == AppendedTo(old(View()), line, o)
      ensures written == (o.opened_ && o.appended >= |line| && o.flushed)
    {
      if !o.opened_ { return false; }
      var chunk := if o.appended < |line| then Torn(line[..o.appended]) else Whole(line);
      files := files[0 := Generation(files, 0) + [chunk]];
      history := history + [chunk];
      written := chunk.Whole? && o.flushed;
    }

    method Write(level: seq<byte>, message: seq<byte>, o: Outcomes) returns (written: bool)
      modifies this
      ensures (View(), written) == WriteLine(lim, old(View()), Line(level, message), o)
    {
      hide Line, Rotated, AppendedTo, Size;
      var line := Line(level, message);
      if |line| > lim.maxBytes { return false; }
      if !o.validated || !o.measured { return false; }
      var shouldRotate := 0 in files && Size(files[0]) + |line| > lim.maxBytes;
      if shouldRotate {
        var rotated := Rotate(o);
        if !rotated { return false; }
      }
      written := Append(line, o);
    }
  }

  // ----- what every write keeps

  predicate InRange(files: Files, backups: nat) { forall g :: g in files ==> g <= backups }

  /** The kept generations are a contiguous end of everything appended. */
  predicate Sound(lim: Limits, log: Log) {
    && InRange(log.files, lim.backups)
    && IsSuffix(Kept(log.files, lim.backups), log.history)
    && forall c :: c in log.history ==> ChunkOk(c)
  }

  /** Moving generations up, even part of them, changes nothing that is kept. */
  lemma {:induction false} MovedFilesKeep(files: Files, index: nat, o: Outcomes, lim: Limits)
    requires index < lim.backups && index + 1 !in files && InRange(files, lim.backups)
    ensures var (moved, done) := MovedFiles(files, index, o);
      && Kept(moved, lim.backups) == Kept(files, lim.backups)
      && InRange(moved, lim.backups)
      && (Bounded(files, lim.maxBytes) ==> Bounded(moved, lim.maxBytes))
      && (done ==> 0 !in moved)
    decreases index
  {
    hide Kept, Size;
    if index !in files || o.renamed(index) {
      var next := MovedFile(files, index);
      if index in files { MovedUp(files, index, lim.backups); }
      assert index !in next && InRange(next, lim.backups);
      assert Bounded(files, lim.maxBytes) ==> Bounded(next, lim.maxBytes);
      if index > 0 { MovedFilesKeep(next, index - 1, o, lim); }
    }
  }

  // Only the oldest generation is lost, and nothing else.
  predicate LosesOnlyOldest(backups: nat, before: Files, after: Files) {
    || Kept(after, backups) == Kept(before, backups)
    || Kept(before, backups) == Generation(before, backups) + Kept(after, backups)
  }

  lemma RotationKeeps(lim: Limits, files: Files, o: Outcomes)
    requires InRange(files, lim.backups)
    ensures var (rotated, done) := Rotated(files, lim.backups, o);
      && LosesOnlyOldest(lim.backups, files, rotated)
      && InRange(rotated, lim.backups)
      && (Bounded(files, lim.maxBytes) ==> Bounded(rotated, lim.maxBytes))
      && (done ==> 0 !in rotated)
  {
    hide Kept, Size, Generation, MovedFiles;
    RemovedOldest(files, lim.backups);
    if lim.backups > 0 {
      MovedFilesKeep(files - {lim.backups}, lim.backups - 1, o, lim);
    }
  }

  lemma PreparationKeeps(lim: Limits, files: Files, line: seq<byte>, o: Outcomes)
    requires InRange(files, lim.backups)
    ensures var (prepared, ready) := Prepared(lim, files, line, o);
      && LosesOnlyOldest(lim.backups, files, prepared)
      && InRange(prepared, lim.backups)
      && (Bounded(files, lim.maxBytes) ==> Bounded(prepared, lim.maxBytes))
      && (ready ==> Size(Generation(prepared, 0)) + |line| <= lim.maxBytes)
  {
    hide Kept, Size, Generation, Rotated;
    RotationKeeps(lim, files, o);
    ActiveSize(files);
    ActiveSize(Rotated(files, lim.backups, o).0);
  }

  lemma ActiveSize(files: Files)
    ensures 0 in files ==> Generation(files, 0) == files[0]
    ensures 0 !in files ==> Generation(files, 0) == [] && Size(Generation(files, 0)) == 0
  {
  }

  lemma SuffixGrows(a: seq<Chunk>, b: seq<Chunk>, c: Chunk)
    requires IsSuffix(a, b)
    ensures IsSuffix(a + [c], b + [c])
  {
    assert (b + [c])[|b| - |a|..] == b[|b| - |a|..] + [c];
  }

  lemma ChunksAreOk(line: seq<byte>, appended: nat)
    requires OneLine(line)
    ensures ChunkOk(ChunkOf(line, appended)) && |Bytes(ChunkOf(line, appended))| <= |line|
  {
  }

  lemma AppendKeeps(lim: Limits, log: Log, line: seq<byte>, o: Outcomes)
    requires Sound(lim, log) && OneLine(line) && Size(Generation(log.files, 0)) + |line| <= lim.maxBytes
    ensures Sound(lim, AppendedTo(log, line, o))
    ensures Bounded(log.files, lim.maxBytes) ==> Bounded(AppendedTo(log, line, o).files, lim.maxBytes)
    ensures Kept(AppendedTo(log, line, o).files, lim.backups) ==
            Kept(log.files, lim.backups) + AppendedTo(log, line, o).history[|log.history|..]
  {
    hide Kept, Size, ChunkOk, IsSuffix, Generation, ChunkOf, OneLine;
    if o.opened_ {
      var chunk := ChunkOf(line, o.appended);
      ChunksAreOk(line, o.appended);
      Appended(log.files, chunk, lim.backups);
      AddedSize(Generation(log.files, 0), chunk);
      SuffixGrows(Kept(log.files, lim.backups), log.history, chunk);
      assert (log.history + [chunk])[|log.history|..] == [chunk];
    } else {
      assert Kept(log.files, lim.backups) + [] == Kept(log.files, lim.backups);
    }
  }

  lemma PreparedIsSound(lim: Limits, log: Log, line: seq<byte>, o: Outcomes)
    requires Sound(lim, log)
    ensures Sound(lim, log.(files := Prepared(lim, log.files, line, o).0))
  {
    hide Kept, ChunkOk, IsSuffix, Generation, Prepared;
    PreparationKeeps(lim, log.files, line, o);
    var after := Prepared(lim, log.files, line, o).0;
    if Kept(after, lim.backups) != Kept(log.files, lim.backups) {
      SuffixOfSuffix(Generation(log.files, lim.backups), Kept(after, lim.backups), log.history);
    }
  }

  /**
   * Whatever fails in a write: the kept generations stay a contiguous end of everything appended, each file
   * stays within the limit, and nothing is lost but the oldest generation.
   */
  lemma WriteKeeps(lim: Limits, log: Log, line: seq<byte>, o: Outcomes)
    requires Sound(lim, log) && OneLine(line)
    ensures var (after, written) := WriteLine(lim, log, line, o);
      && Sound(lim, after)
      && (Bounded(log.files, lim.maxBytes) ==> Bounded(after.files, lim.maxBytes))
      && LosesOnlyOldest(lim.backups, log.files, Prepared(lim, log.files, line, o).0)
      && Kept(after.files, lim.backups) ==
           Kept(Prepared(lim, log.files, line, o).0, lim.backups) + after.history[|log.history|..]
      && (written ==> after.history == log.history + [Whole(line)])
  {
    hide Kept, Sound, Prepared, Generation, Size, Bounded, LosesOnlyOldest, OneLine;
    var (files, ready) := Prepared(lim, log.files, line, o);
    SoundInRange(lim, log);
    PreparationKeeps(lim, log.files, line, o);
    PreparedIsSound(lim, log, line, o);
    if ready {
      AppendKeeps(lim, log.(files := files), line, o);
    } else {
      assert Kept(files, lim.backups) + [] == Kept(files, lim.backups);
    }
  }

  lemma SoundInRange(lim: Limits, log: Log)
    requires Sound(lim, log)
    ensures InRange(log.files, lim.backups)
  {
  }

  // ----- a write without failures

  // The generations from `index` on have moved up by one, which leaves `index` free.
  function Shifted(before: Files, g: nat, index: nat, backups: nat): seq<Chunk> {
    if g < index then Generation(before, g) else if g == index || g > backups then [] else Generation(before, g - 1)
  }

  lemma {:induction false} AllMoveUp(start: Files, files: Files, index: nat, o: Outcomes, backups: nat)
    requires index < backups && forall g :: o.renamed(g)
    requires forall g: nat :: Generation(files, g) == Shifted(start, g, index + 1, backups)
    ensures MovedFiles(files, index, o).1
    ensures forall g: nat :: Generation(MovedFiles(files, index, o).0, g) == Shifted(start, g, 0, backups)
    decreases index
  {
    var next := MovedFile(files, index);
    forall g: nat ensures Generation(next, g) == Shifted(start, g, index, backups) {
      assert Generation(files, g) == Shifted(start, g, index + 1, backups);
      assert Generation(files, index) == Shifted(start, index, index + 1, backups);
    }
    hide Generation, Shifted, MovedFile;
    if index > 0 { AllMoveUp(start, next, index - 1, o, backups); }
  }

  ghost predicate NothingFails(o: Outcomes, line: seq<byte>) {
    && o.validated && o.measured && o.removed && (forall g :: o.renamed(g)) && o.synced && o.opened_
    && o.appended >= |line| && o.flushed
  }

  lemma FullRotation(files: Files, backups: nat, o: Outcomes)
    requires InRange(files, backups) && o.removed && o.synced && forall g :: o.renamed(g)
    ensures Rotated(files, backups, o).1
    ensures forall g: nat :: Generation(Rotated(files, backups, o).0, g) == Shifted(files, g, 0, backups)
  {
    if backups > 0 {
      AllMoveUp(files, files - {backups}, backups - 1, o, backups);
      hide MovedFiles;
    }
  }

  /** Without failures a record that fits is written, and each generation moves up if the active file was full. */
  lemma CleanWrite(lim: Limits, log: Log, line: seq<byte>, o: Outcomes, g: nat)
    requires Sound(lim, log) && NothingFails(o, line) && |line| <= lim.maxBytes
    ensures var (after, written) := WriteLine(lim, log, line, o);
      && written && after.history == log.history + [Whole(line)]
      && Generation(after.files, g) ==
           if NeedsRotation(log.files, lim.maxBytes, line) then
             (if g == 0 then [Whole(line)] else if g > lim.backups then [] else Generation(log.files, g - 1))
           else if g == 0 then Generation(log.files, 0) + [Whole(line)] else Generation(log.files, g)
  {
    SoundInRange(lim, log);
    FullRotation(log.files, lim.backups, o);
    var rotated := Rotated(log.files, lim.backups, o).0;
    assert Generation(rotated, g) == Shifted(log.files, g, 0, lim.backups);
    assert Generation(rotated, 0) == Shifted(log.files, 0, 0, lim.backups);
    hide Rotated, Size, Sound;
  }

  // ----- any series of writes

  datatype Request = Request(level: seq<byte>, message: seq<byte>, outcomes: Outcomes)

  function LineOf(r: Request): seq<byte> { Line(r.level, r.message) }

  function WriteMany(lim: Limits, log: Log, rs: seq<Request>): Log {
    if rs == [] then log
    else
      var n := |rs| - 1;
      WriteLine(lim, WriteMany(lim, log, rs[..n]), LineOf(rs[n]), rs[n].outcomes).0
  }

  // The writes that got as far as opening the active file, in order.
  function Reaching(lim: Limits, log: Log, rs: seq<Request>): seq<Request> {
    if rs == [] then []
    else
      var n := |rs| - 1;
      var before := WriteMany(lim, log, rs[..n]);
      Reaching(lim, log, rs[..n]) +
      if Prepared(lim, before.files, LineOf(rs[n]), rs[n].outcomes).1 && rs[n].outcomes.opened_ then [rs[n]] else []
  }

  function Chunks(rs: seq<Request>): seq<Chunk> {
    seq(|rs|, i requires 0 <= i < |rs| => ChunkOf(LineOf(rs[i]), rs[i].outcomes.appended))
  }

  /** Everything appended in a run is what each write that reached the file appended. */
  lemma {:induction false} HistoryOfRun(lim: Limits, log: Log, rs: seq<Request>)
    ensures WriteMany(lim, log, rs).history == log.history + Chunks(Reaching(lim, log, rs))
  {
    hide LineOf, Prepared, ChunkOf;
    if rs != [] {
      var n := |rs| - 1;
      HistoryOfRun(lim, log, rs[..n]);
      var reached := Reaching(lim, log, rs[..n]);
      assert Chunks(reached + [rs[n]]) == Chunks(reached) + [ChunkOf(LineOf(rs[n]), rs[n].outcomes.appended)];
      assert reached + [] == reached;
    }
  }

  lemma {:induction false} RunKeeps(lim: Limits, log: Log, rs: seq<Request>)
    requires Sound(lim, log) && Bounded(log.files, lim.maxBytes)
    ensures Sound(lim, WriteMany(lim, log, rs)) && Bounded(WriteMany(lim, log, rs).files, lim.maxBytes)
  {
    hide Sound, Bounded, WriteLine, Line;
    if rs != [] {
      var n := |rs| - 1;
      RunKeeps(lim, log, rs[..n]);
      LinesAreSingle(rs[n].level, rs[n].message);
      WriteKeeps(lim, WriteMany(lim, log, rs[..n]), LineOf(rs[n]), rs[n].outcomes);
    }
  }

  lemma EmptyIsSound(lim: Limits)
    ensures Sound(lim, EMPTY) && Bounded(EMPTY.files, lim.maxBytes)
  {
    EmptyKept(EMPTY.files, lim.backups);
  }

  lemma {:induction false} EmptyKept(files: Files, n: nat)
    requires files == map[]
    ensures Kept(files, n) == []
  {
    if n > 0 { EmptyKept(files, n - 1); }
  }

  /** After any series of writes from an empty log, with any failures: the kept text and the file sizes. */
  lemma RunsKeepASuffix(lim: Limits, rs: seq<Request>)
    ensures var end := WriteMany(lim, EMPTY, rs);
      && IsSuffix(Kept(end.files, lim.backups), Chunks(Reaching(lim, EMPTY, rs)))
      && end.history == Chunks(Reaching(lim, EMPTY, rs))
      && forall g :: g in end.files ==> g <= lim.backups && Size(end.files[g]) <= lim.maxBytes
  {
    EmptyIsSound(lim);
    RunKeeps(lim, EMPTY, rs);
    HistoryOfRun(lim, EMPTY, rs);
    assert [] + Chunks(Reaching(lim, EMPTY, rs)) == Chunks(Reaching(lim, EMPTY, rs));
    hide Kept, WriteMany, Reaching, Size, ChunkOk;
  }

  // ----- reading the generations back as records

  function Flatten(chunks: seq<Chunk>): seq<byte> {
    if chunks == [] then [] else Flatten(chunks[..|chunks| - 1]) + Bytes(chunks[|chunks| - 1])
  }

  function Records(chunks: seq<Chunk>): seq<Chunk> {
    if chunks == [] then []
    else Records(chunks[..|chunks| - 1]) + if chunks[|chunks| - 1].Whole? then [chunks[|chunks| - 1]] else []
  }

  predicate NothingTorn(chunks: seq<Chunk>) {
    forall c :: c in chunks ==> c.Torn? ==> c.part == []
  }

  function Newlines(bytes: seq<byte>): nat {
    if bytes == [] then 0 else Newlines(bytes[..|bytes| - 1]) + if bytes[|bytes| - 1] == NEWLINE then 1 else 0
  }

  lemma {:induction false} NewlinesConcat(a: seq<byte>, b: seq<byte>)
    ensures Newlines(a + b) == Newlines(a) + Newlines(b)
    decreases b
  {
    if b == [] {
      assert a + b == a;
    } else {
      var n := |b| - 1;
      assert (a + b)[..|a + b| - 1] == a + b[..n];
      NewlinesConcat(a, b[..n]);
    }
  }

  lemma {:induction false} NoNewlines(bytes: seq<byte>)
    requires NEWLINE !in bytes
    ensures Newlines(bytes) == 0
  {
    if bytes != [] { NoNewlines(bytes[..|bytes| - 1]); }
  }

  lemma OneNewline(line: seq<byte>)
    requires OneLine(line)
    ensures Newlines(line) == 1
  {
    NoNewlines(line[..|line| - 1]);
  }

  lemma {:induction false} NewlinesCountRecords(chunks: seq<Chunk>)
    requires forall c :: c in chunks ==> ChunkOk(c)
    ensures Newlines(Flatten(chunks)) == |Records(chunks)|
  {
    hide OneLine;
    if chunks != [] {
      var n := |chunks| - 1;
      var last := chunks[n];
      NewlinesCountRecords(chunks[..n]);
      NewlinesConcat(Flatten(chunks[..n]), Bytes(last));
      assert ChunkOk(last);
      if last.Whole? { OneNewline(last.line); } else { NoNewlines(last.part); }
    }
  }

  lemma {:induction false} RecordsOfSuffix(a: seq<Chunk>, b: seq<Chunk>)
    requires IsSuffix(a, b)
    ensures IsSuffix(Records(a), Records(b))
    decreases b
  {
    if a != [] {
      var m, n := |a| - 1, |b| - 1;
      assert a[m] == b[n] && b[..n][|b[..n]| - m..] == a[..m];
      RecordsOfSuffix(a[..m], b[..n]);
    }
  }

  lemma {:induction false} RecordsFlatten(chunks: seq<Chunk>)
    ensures |Flatten(Records(chunks))| <= |Flatten(chunks)|
    ensures |Flatten(Records(chunks))| == |Flatten(chunks)| <==> NothingTorn(chunks)
    ensures NothingTorn(chunks) ==> Flatten(Records(chunks)) == Flatten(chunks)
    ensures forall c :: c in Records(chunks) ==> c in chunks
  {
    if chunks != [] {
      var n := |chunks| - 1;
      var front, last := chunks[..n], chunks[n];
      RecordsFlatten(front);
      var records := Records(front);
      assert chunks == front + [last];
      assert NothingTorn(chunks) <==> NothingTorn(front) && (last.Torn? ==> last.part == []);
      if last.Whole? {
        assert (records + [last])[..|records|] == records;
      } else {
        assert records + [] == records;
      }
    }
  }

  // The text in the kept files is exactly that of some of the latest whole records.
  ghost predicate ReadsAsRecords(kept: seq<Chunk>, history: seq<Chunk>) {
    exists latest :: IsSuffix(latest, Records(history)) && Flatten(latest) == Flatten(kept)
  }

  lemma {:induction false} AllRecords(chunks: seq<Chunk>)
    requires forall c :: c in chunks ==> c.Whole?
    ensures Records(chunks) == chunks
  {
    if chunks != [] {
      AllRecords(chunks[..|chunks| - 1]);
    }
  }

  lemma {:induction false} RecordsAreWhole(chunks: seq<Chunk>)
    ensures forall c :: c in Records(chunks) ==> c.Whole? && c in chunks
  {
    if chunks != [] { RecordsAreWhole(chunks[..|chunks| - 1]); }
  }

  lemma SuffixMembers(a: seq<Chunk>, b: seq<Chunk>)
    requires IsSuffix(a, b)
    ensures forall c :: c in a ==> c in b
  {
  }

  lemma SuffixesAlike(a: seq<Chunk>, b: seq<Chunk>, all: seq<Chunk>)
    requires IsSuffix(a, all) && IsSuffix(b, all) && |a| == |b|
    ensures a == b
  {
  }

  /**
   * The kept text is a contiguous suffix of the whole records exactly when no part of a failed write is
   * among what is kept.
   */
  lemma KeptTextIsRecords(kept: seq<Chunk>, history: seq<Chunk>)
    requires IsSuffix(kept, history) && forall c :: c in history ==> ChunkOk(c)
    ensures ReadsAsRecords(kept, history) <==> NothingTorn(kept)
  {
    hide ChunkOk, IsSuffix, Records, Flatten, Newlines, NothingTorn;
    SuffixMembers(kept, history);
    RecordsOfSuffix(kept, history);
    RecordsFlatten(kept);
    if NothingTorn(kept) {
      assert IsSuffix(Records(kept), Records(history)) && Flatten(Records(kept)) == Flatten(kept);
    }
    if ReadsAsRecords(kept, history) {
      var latest :| IsSuffix(latest, Records(history)) && Flatten(latest) == Flatten(kept);
      RecordsAreWhole(history);
      SuffixMembers(latest, Records(history));
      AllRecords(latest);
      NewlinesCountRecords(latest);
      NewlinesCountRecords(kept);
      SuffixesAlike(latest, Records(kept), Records(history));
    }
  }

  // A write that opened the file and appended a part of its line, but not all.
  predicate LeftPart(r: Request) { 0 < r.outcomes.appended < |LineOf(r)| }

  // Some write whose chunk is still kept, the last `kept` of those that reached the file, left a part.
  predicate KeepsPart(reaching: seq<Request>, kept: nat)
    requires kept <= |reaching|
  {
    exists i :: |reaching| - kept <= i < |reaching| && LeftPart(reaching[i])
  }

  lemma PartsAreTorn(reaching: seq<Request>, kept: nat)
    requires kept <= |reaching|
    ensures NothingTorn(Chunks(reaching)[|reaching| - kept..]) <==> !KeepsPart(reaching, kept)
  {
    hide LineOf;
    var m := |reaching| - kept;
    var latest := Chunks(reaching)[m..];
    forall i | m <= i < |reaching|
      ensures latest[i - m] == ChunkOf(LineOf(reaching[i]), reaching[i].outcomes.appended)
    {
    }
    if KeepsPart(reaching, kept) {
      var i :| m <= i < |reaching| && LeftPart(reaching[i]);
      assert latest[i - m] in latest && latest[i - m].Torn? && latest[i - m].part != [];
    } else {
      forall c | c in latest ensures c.Torn? ==> c.part == [] {
        var j :| 0 <= j < |latest| && latest[j] == c;
        assert !LeftPart(reaching[j + m]);
      }
    }
  }

  /**
   * After any series of writes from an empty log, the kept text is a contiguous suffix of the whole records
   * exactly when none of the writes still kept opened the file and appended only a part of its line.
   */
  lemma LogReadsAsRecords(lim: Limits, rs: seq<Request>)
    ensures var end := WriteMany(lim, EMPTY, rs);
      var kept := Kept(end.files, lim.backups);
      var reaching := Reaching(lim, EMPTY, rs);
      && |kept| <= |reaching|
      && (ReadsAsRecords(kept, end.history) <==> !KeepsPart(reaching, |kept|))
  {
    var end := WriteMany(lim, EMPTY, rs);
    var kept := Kept(end.files, lim.backups);
    var reaching := Reaching(lim, EMPTY, rs);
    RunsKeepASuffix(lim, rs);
    EmptyIsSound(lim);
    RunKeeps(lim, EMPTY, rs);
    hide Kept, WriteMany, Reaching, Bounded, KeepsPart, NothingTorn, ReadsAsRecords, ChunkOk;
    KeptTextIsRecords(kept, end.history);
    PartsAreTorn(reaching, |kept|);
  }

  // ----- a torn record spoils the text: two writes that show it

  lemma TwoChunks(first: Chunk, second: Chunk, files: Files, backups: nat)
    requires files == map[0 := [first, second]]
    ensures Kept(files, backups) == [first, second]
    decreases backups
  {
    if backups > 0 { TwoChunks(first, second, files, backups - 1); }
  }

  lemma TornIsNoRecord(first: seq<byte>, second: seq<byte>)
    requires first != [] && NEWLINE !in first && OneLine(second)
    ensures !ReadsAsRecords([Torn(first), Whole(second)], [Torn(first), Whole(second)])
  {
    var history := [Torn(first), Whole(second)];
    assert Torn(first) in history;
    KeptTextIsRecords(history, history);
  }

  lemma FirstWrite(lim: Limits, line: seq<byte>, o: Outcomes)
    requires o.validated && o.measured && o.opened_ && |line| <= lim.maxBytes
    ensures var chunk := ChunkOf(line, o.appended);
      WriteLine(lim, EMPTY, line, o).0 == Log(map[0 := [chunk]], [chunk])
  {
    hide ChunkOf, Rotated;
    var chunk := ChunkOf(line, o.appended);
    assert Generation(map[], 0) + [chunk] == [chunk] && [] + [chunk] == [chunk];
  }

  lemma SecondWrite(lim: Limits, chunk: Chunk, line: seq<byte>, o: Outcomes)
    requires NothingFails(o, line) && |Bytes(chunk)| + |line| <= lim.maxBytes
    ensures WriteLine(lim, Log(map[0 := [chunk]], [chunk]), line, o).0 ==
            Log(map[0 := [chunk, Whole(line)]], [chunk, Whole(line)])
  {
    hide Rotated, Size;
    var log := Log(map[0 := [chunk]], [chunk]);
    AddedSize([], chunk);
    EmptySize();
    assert [] + [chunk] == [chunk] && [chunk] + [Whole(line)] == [chunk, Whole(line)];
    assert log.files[0 := [chunk, Whole(line)]] == map[0 := [chunk, Whole(line)]];
  }

  lemma EmptySize()
    ensures Size([]) == 0
  {
  }

  /**
   * On an empty log, a write that appends only part of its record and then a write that succeeds leave a
   * text that is no run of records, although the file and both records are within the limit.
   */
  method TornWriteSpoils(lim: Limits, failing: Request, next: Request) returns (log: RotatingLog)
    requires failing.outcomes.validated && failing.outcomes.measured && failing.outcomes.opened_ && LeftPart(failing)
    requires NothingFails(next.outcomes, LineOf(next))
    requires |LineOf(failing)| <= lim.maxBytes && failing.outcomes.appended + |LineOf(next)| <= lim.maxBytes
    ensures log.history == [Torn(LineOf(failing)[..failing.outcomes.appended]), Whole(LineOf(next))]
    ensures Kept(log.files, lim.backups) == log.history
    ensures !ReadsAsRecords(Kept(log.files, lim.backups), log.history)
  {
    hide Line, Kept, ReadsAsRecords, WriteLine, NothingFails;
    log := new RotatingLog(lim, map[]);
    EmptyKept(map[], lim.backups);
    LinesAreSingle(failing.level, failing.message);
    LinesAreSingle(next.level, next.message);
    var first := log.Write(failing.level, failing.message, failing.outcomes);
    var part := LineOf(failing)[..failing.outcomes.appended];
    FirstWrite(lim, LineOf(failing), failing.outcomes);
    var second := log.Write(next.level, next.message, next.outcomes);
    SecondWrite(lim, Torn(part), LineOf(next), next.outcomes);
    TwoChunks(Torn(part), Whole(LineOf(next)), log.files, lim.backups);
    TornIsNoRecord(part, LineOf(next));
  }

  // ----- which writes succeed

  // Everything a rotation needs: the oldest generation goes, each kept one is renamed, the directory is synced.
  ghost predicate CanRotate(lim: Limits, files: Files, o: Outcomes) {
    && o.removed
    && (lim.backups > 0 ==> o.synced && forall g :: g in files && g < lim.backups ==> o.renamed(g))
  }

  lemma {:induction false} AllRenamed(files: Files, index: nat, o: Outcomes)
    ensures MovedFiles(files, index, o).1 <==> forall g :: g in files && g <= index ==> o.renamed(g)
    decreases index
  {
    if (index !in files || o.renamed(index)) && index > 0 {
      var next := MovedFile(files, index);
      AllRenamed(next, index - 1, o);
      assert forall g :: g < index ==> (g in next <==> g in files);
    }
  }

  lemma RotatesIfItCan(lim: Limits, files: Files, o: Outcomes)
    ensures Rotated(files, lim.backups, o).1 <==> CanRotate(lim, files, o)
  {
    if lim.backups > 0 { AllRenamed(files - {lim.backups}, lim.backups - 1, o); }
    hide MovedFiles;
  }

  /**
   * A write succeeds exactly if its record fits, every check and every step of a rotation it needs succeeds,
   * and the whole record is appended and flushed. Only a write that gets as far as opening the file appends.
   */
  lemma WriteAnswers(lim: Limits, log: Log, line: seq<byte>, o: Outcomes)
    ensures var (after, written) := WriteLine(lim, log, line, o);
      var allowed := |line| <= lim.maxBytes && o.validated && o.measured;
      var full := 0 in log.files && Size(log.files[0]) + |line| > lim.maxBytes;
      var ready := allowed && (full ==> CanRotate(lim, log.files, o));
      && (written <==> ready && o.opened_ && o.appended >= |line| && o.flushed)
      && after.history == log.history + (if ready && o.opened_ then [ChunkOf(line, o.appended)] else [])
      && (!allowed || (!full && !o.opened_) ==> after == log)
  {
    RotatesIfItCan(lim, log.files, o);
    hide Rotated, Size, CanRotate, ChunkOf;
    assert log.history + [] == log.history;
  }
}
