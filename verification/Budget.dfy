/**
 * The retry budget of the automated review. Each effect of the process on the outside is one step of a
 * history, and the process may die after any of them; the next one starts from what is left.
 */
module Budget {
  import opened Wrappers

  // The durable record: how many remediation attempts were started, and the failure the last one answered.
  datatype Record = Record(attempts: nat, fingerprint: Option<string>)

  // A file being written is damaged until the write is complete.
  datatype StateFile = Absent | Damaged | Holds(record: Record)
  datatype TempFile = NoTemp | Partial | Written(record: Record)

  // A push, the failure it answers, and the attempts that the state file counted when it happened.
  datatype Push = Push(fingerprint: string, attempt: nat)

  // The outside, with what has happened since the state file was created: the failure answered by each
  // record that replaced it, the pushes, the passes that were not pending, and the process runs.
  datatype World = World(
    file: StateFile, temp: TempFile, counted: seq<string>, pushes: seq<Push>, passes: nat, runs: nat)

  const NOTHING := World(Absent, NoTemp, [], [], 0, 0)

  // ----- single effects

  function BeginCreate(w: World): World { w.(file := Damaged) }

  function EndCreate(w: World, record: Record): World { w.(file := Holds(record)) }

  function BeginRun(w: World): World { w.(runs := w.runs + 1) }

  function NotePass(w: World): World { w.(passes := w.passes + 1) }

  function BeginTemp(w: World): World { w.(temp := Partial) }

  function EndTemp(w: World, record: Record): World { w.(temp := Written(record)) }

  // The rename replaces the state file by whatever the temporary file holds.
  function Install(w: World): World {
    match w.temp
    case NoTemp => w
    case Partial => w.(file := Damaged, temp := NoTemp)
    case Written(record) =>
      w.(file := Holds(record), temp := NoTemp,
         counted := w.counted + if record.fingerprint.Some? then [record.fingerprint.value] else [])
  }

  function CountedIn(file: StateFile): nat { if file.Holds? then file.record.attempts else 0 }

  function PushOut(w: World, fingerprint: string): World {
    w.(pushes := w.pushes + [Push(fingerprint, CountedIn(w.file))])
  }

  function Unlink(w: World): World { NOTHING.(temp := w.temp) }

  // ----- the effects of a process, in the order of its code

  function Last(w: World, effects: seq<World>): World {
    if effects == [] then w else effects[|effects| - 1]
  }

  // What one pass of the loop meets.
  datatype Pass =
    | Halts                       // time is up, a gate refuses, or a request or a check fails
    | Pending                     // checks are still running
    | Merges                      // merged; the state file is removed
    | Fails(fingerprint: string)  // a failure, whose remediation succeeds unless the process ends first

  function ReadState(w: World): (seq<World>, Option<Record>) {
    match w.file
    case Holds(record) => ([BeginRun(w)], Some(record))
    case Damaged => ([], None)
    case Absent =>
      var record := Record(0, None);
      var created := EndCreate(BeginCreate(w), record);
      ([BeginCreate(w), created, BeginRun(created)], Some(record))
  }

  function SaveState(w: World, record: Record): seq<World> {
    var written := EndTemp(BeginTemp(w), record);
    [BeginTemp(w), written, Install(written)]
  }

  predicate Refused(limit: nat, durable: Record, fingerprint: string) {
    Some(fingerprint) == durable.fingerprint || durable.attempts >= limit
  }

  // The attempt is saved first and pushed then; the process goes on with the new record.
  function Remediate(w: World, durable: Record, fingerprint: string): (seq<World>, Record) {
    var next := Record(durable.attempts + 1, Some(fingerprint));
    var saved := SaveState(w, next);
    (saved + [PushOut(Last(w, saved), fingerprint)], next)
  }

  function PassEffects(limit: nat, w: World, durable: Record, p: Pass): (seq<World>, Option<Record>) {
    match p
    case Pending => ([], Some(durable))
    case Halts => ([NotePass(w)], None)
    case Merges => ([NotePass(w), Unlink(NotePass(w))], None)
    case Fails(fingerprint) =>
      if Refused(limit, durable, fingerprint) then ([NotePass(w)], None)
      else
        var (effects, next) := Remediate(NotePass(w), durable, fingerprint);
        ([NotePass(w)] + effects, Some(next))
  }

  function LoopEffects(limit: nat, w: World, durable: Record, passes: seq<Pass>): seq<World>
    decreases passes
  {
    if passes == [] then []
    else
      var (effects, next) := PassEffects(limit, w, durable, passes[0]);
      effects + if next.None? then [] else LoopEffects(limit, Last(w, effects), next.value, passes[1..])
  }

  function ProcessEffects(limit: nat, w: World, passes: seq<Pass>): seq<World> {
    var (effects, durable) := ReadState(w);
    effects + if durable.None? then [] else LoopEffects(limit, Last(w, effects), durable.value, passes)
  }

  // A process that dies, by a crash or an error, after some number of its effects.
  datatype Process = Process(passes: seq<Pass>, survived: nat)

  function Cut(effects: seq<World>, n: nat): seq<World> {
    if n < |effects| then effects[..n] else effects
  }

  /** Every state of the outside, from the first process to the last. */
  function History(limit: nat, processes: seq<Process>): (h: seq<World>)
    ensures h != [] && h[0] == NOTHING
  {
    if processes == [] then [NOTHING]
    else
      var n := |processes| - 1;
      var before := History(limit, processes[..n]);
      before + Cut(ProcessEffects(limit, before[|before| - 1], processes[n].passes), processes[n].survived)
  }

  /** The review process; every change of the outside is one step of its history. */
  class Review {
    var w: World
    var history: seq<World>

    ghost predicate Valid()
      reads this
    {
      history != [] && w == history[|history| - 1]
    }

    constructor ()
      ensures Valid() && history == [NOTHING]
    {
      w, history := NOTHING, [NOTHING];
    }

    method Step(next: World)
      modifies this
      ensures Valid() && w == next && history == old(history) + [next]
    {
      w := next;
      history := history + [next];
    }

    method ReadStateFile() returns (durable: Option<Record>)
      requires Valid()
      modifies this
      ensures Valid() && durable == ReadState(old(w)).1
      ensures history == old(history) + ReadState(old(w)).0
    {
      match w.file {
        case Damaged => return None;
        case Holds(record) =>
          Step(BeginRun(w));
          return Some(record);
        case Absent =>
          var record := Record(0, None);
          Step(BeginCreate(w));
          Step(EndCreate(w, record));
          Step(BeginRun(w));
          return Some(record);
      }
    }

    method SaveStateFile(record: Record)
      requires Valid()
      modifies this
      ensures Valid() && history == old(history) + SaveState(old(w), record)
    {
      Step(BeginTemp(w));
      Step(EndTemp(w, record));
      Step(Install(w));
    }

    method OnePass(limit: nat, durable: Record, p: Pass) returns (next: Record, goesOn: bool)
      requires Valid()
      modifies this
      ensures Valid()
      ensures (if goesOn then Some(next) else None) == PassEffects(limit, old(w), durable, p).1
      ensures history == old(history) + PassEffects(limit, old(w), durable, p).0
    {
      next, goesOn := durable, false;
      match p {
        case Pending => goesOn := true;
        case Halts => Step(NotePass(w));
        case Merges =>
          Step(NotePass(w));
          Step(Unlink(w));
        case Fails(fingerprint) =>
          Step(NotePass(w));
          if Some(fingerprint) == durable.fingerprint { return; }
          if durable.attempts >= limit { return; }
          // The attempt is consumed before the push.
          next := next.(attempts := next.attempts + 1);
          next := next.(fingerprint := Some(fingerprint));
          SaveStateFile(next);
          Step(PushOut(w, fingerprint));
          goesOn := true;
      }
    }

    method Run(limit: nat, passes: seq<Pass>)
      requires Valid()
      modifies this
      ensures Valid() && history == old(history) + ProcessEffects(limit, old(w), passes)
    {
      hide PassEffects, ReadState, LoopEffects, Last;
      ghost var start, before := w, history;
      var read := ReadStateFile();
      LastOf(before, ReadState(start).0, start);
      if read.None? {
        assert ReadState(start).0 + [] == ReadState(start).0;
        return;
      }
      var durable := read.value;
      ghost var begun, h := w, history;
      ghost var loop := LoopEffects(limit, begun, durable, passes);
      assert before + (ReadState(start).0 + loop) == h + loop;
      assert passes[0..] == passes;
      var i := 0;
      while i < |passes|
        invariant i <= |passes| && Valid()
        invariant h + loop == history + LoopEffects(limit, w, durable, passes[i..])
      {
        ghost var w0, h0 := w, history;
        ghost var effects := PassEffects(limit, w, durable, passes[i]).0;
        var goesOn;
        LoopUnfolds(limit, w, durable, passes, i);
        durable, goesOn := OnePass(limit, durable, passes[i]);
        LastOf(h0, effects, w0);
        if !goesOn {
          assert h0 + (effects + []) == h0 + effects;
          return;
        }
        assert h0 + (effects + LoopEffects(limit, w, durable, passes[i + 1..])) ==
               (h0 + effects) + LoopEffects(limit, w, durable, passes[i + 1..]);
        i := i + 1;
      }
      NoPasses(limit, w, durable, passes[|passes|..]);
      assert history + [] == history;
    }

    // The process dies: what it had not done yet never happens.
    method Die(start: nat, survived: nat)
      requires Valid() && 0 < start <= |history|
      modifies this
      ensures Valid() && history == old(history)[..start] + Cut(old(history)[start..], survived)
    {
      if start + survived < |history| {
        history := history[..start + survived];
        w := history[|history| - 1];
      }
    }
  }

  lemma LastOf(before: seq<World>, effects: seq<World>, w: World)
    requires before != [] && before[|before| - 1] == w
    ensures (before + effects)[|before + effects| - 1] == Last(w, effects)
  {
  }

  lemma LoopUnfolds(limit: nat, w: World, durable: Record, passes: seq<Pass>, i: nat)
    requires i < |passes|
    ensures var (effects, next) := PassEffects(limit, w, durable, passes[i]);
      LoopEffects(limit, w, durable, passes[i..]) ==
        effects + if next.None? then [] else LoopEffects(limit, Last(w, effects), next.value, passes[i + 1..])
  {
    hide PassEffects;
    assert passes[i..][1..] == passes[i + 1..];
  }

  lemma NoPasses(limit: nat, w: World, durable: Record, passes: seq<Pass>)
    requires passes == []
    ensures LoopEffects(limit, w, durable, passes) == []
  {
  }

  /** Any processes one after another, each dying after some of its effects, leave exactly the history above. */
  method RunProcesses(limit: nat, processes: seq<Process>) returns (review: Review)
    ensures review.history == History(limit, processes)
    ensures forall k :: 0 <= k < |review.history| ==> WithinBudget(limit, review.history[k])
    ensures forall k :: 0 <= k < |review.history| - 1 ==> CountedFirst(review.history[k], review.history[k + 1])
  {
    hide ProcessEffects, WithinBudget, CountedFirst;
    review := new Review();
    for i := 0 to |processes|
      invariant review.Valid() && fresh(review)
      invariant review.history == History(limit, processes[..i])
    {
      assert processes[..i + 1][..i] == processes[..i];
      var start := |review.history|;
      ghost var before := review.history;
      ghost var effects := ProcessEffects(limit, review.w, processes[i].passes);
      review.Run(limit, processes[i].passes);
      assert review.history[..start] == before && review.history[start..] == effects;
      review.Die(start, processes[i].survived);
    }
    assert processes[..|processes|] == processes;
    forall k: nat | k < |review.history| ensures WithinBudget(limit, review.history[k]) {
      BudgetHolds(limit, processes, k);
    }
    forall k: nat | k < |review.history| - 1 ensures CountedFirst(review.history[k], review.history[k + 1]) {
      PushesAreCountedFirst(limit, processes, k);
    }
  }

  // ----- what every effect keeps

  predicate Sound(limit: nat, w: World) {
    && (if w.file.Holds? then
          && w.file.record.attempts == |w.counted| <= limit
          && w.file.record.fingerprint == (if w.counted == [] then None else Some(w.counted[|w.counted| - 1]))
        else w == NOTHING.(file := w.file, temp := w.temp))
    && (forall i :: 0 < i < |w.counted| ==> w.counted[i - 1] != w.counted[i])
    && (forall i, j :: 0 <= i < j < |w.pushes| ==> w.pushes[i].attempt < w.pushes[j].attempt)
    && (forall i :: 0 <= i < |w.pushes| ==>
          0 < w.pushes[i].attempt <= |w.counted| && w.counted[w.pushes[i].attempt - 1] == w.pushes[i].fingerprint)
    && w.passes <= |w.counted| + w.runs
  }

  /**
   * If this step is a push, the state file already counts it: it records the failure the push answers, as
   * an attempt that no earlier push belongs to.
   */
  predicate CountedFirst(w: World, next: World) {
    |next.pushes| > |w.pushes| ==>
      && w.file.Holds? && next.file == w.file
      && next.pushes == w.pushes + [Push(next.pushes[|w.pushes|].fingerprint, w.file.record.attempts)]
      && w.file.record.fingerprint == Some(next.pushes[|w.pushes|].fingerprint)
      && |next.pushes| <= w.file.record.attempts
      && forall i :: 0 <= i < |w.pushes| ==> w.pushes[i].attempt < w.file.record.attempts
  }

  // All effects are sound and every push among them is counted first.
  predicate GoodFrom(limit: nat, w: World, effects: seq<World>)
    decreases effects
  {
    effects == [] ||
    (Sound(limit, effects[0]) && CountedFirst(w, effects[0]) && GoodFrom(limit, effects[0], effects[1..]))
  }

  lemma {:induction false} GoodTogether(limit: nat, w: World, a: seq<World>, b: seq<World>)
    requires GoodFrom(limit, w, a) && GoodFrom(limit, Last(w, a), b)
    ensures GoodFrom(limit, w, a + b)
    decreases a
  {
    hide Sound, CountedFirst;
    if a == [] {
      assert a + b == b;
    } else {
      assert (a + b)[1..] == a[1..] + b;
      GoodTogether(limit, a[0], a[1..], b);
    }
  }

  lemma {:induction false} GoodPrefix(limit: nat, w: World, effects: seq<World>, n: nat)
    requires GoodFrom(limit, w, effects) && n <= |effects|
    ensures GoodFrom(limit, w, effects[..n])
    decreases n
  {
    hide Sound, CountedFirst;
    if n > 0 {
      GoodPrefix(limit, effects[0], effects[1..], n - 1);
      assert effects[..n][1..] == effects[1..][..n - 1];
    }
  }

  lemma {:induction false} GoodAt(limit: nat, w: World, effects: seq<World>, k: nat)
    requires GoodFrom(limit, w, effects) && k < |effects|
    ensures Sound(limit, effects[k]) && CountedFirst(if k == 0 then w else effects[k - 1], effects[k])
    decreases k
  {
    hide Sound, CountedFirst;
    if k > 0 { GoodAt(limit, effects[0], effects[1..], k - 1); }
  }

  lemma GoodOne(limit: nat, w: World, next: World)
    requires Sound(limit, next) && CountedFirst(w, next)
    ensures GoodFrom(limit, w, [next])
  {
    hide Sound, CountedFirst;
    assert [next][1..] == [];
  }

  lemma {:induction false} IncreasingCount(pushes: seq<Push>, bound: nat)
    requires forall i, j :: 0 <= i < j < |pushes| ==> pushes[i].attempt < pushes[j].attempt
    requires forall i :: 0 <= i < |pushes| ==> 0 < pushes[i].attempt <= bound
    ensures |pushes| <= bound
    decreases |pushes|
  {
    if pushes != [] {
      var n := |pushes| - 1;
      assert forall i :: 0 <= i < n ==> pushes[i].attempt < pushes[n].attempt;
      IncreasingCount(pushes[..n], pushes[n].attempt - 1);
    }
  }

  // At the top of the loop: the record in memory is the saved one, its pushes are behind it, and this run
  // has had no pass that counted nothing.
  predicate AtTop(limit: nat, w: World, durable: Record) {
    Sound(limit, w) && w.file == Holds(durable) && w.passes < |w.counted| + w.runs
  }

  // A pass has been noted and its attempt not yet counted.
  predicate InPass(limit: nat, w: World, durable: Record) {
    Sound(limit, w) && w.file == Holds(durable)
  }

  lemma InstalledIsSound(limit: nat, w: World, durable: Record, fingerprint: string)
    requires InPass(limit, w, durable) && !Refused(limit, durable, fingerprint)
    ensures var next := Record(durable.attempts + 1, Some(fingerprint));
      var installed := Install(EndTemp(BeginTemp(w), next));
      && InPass(limit, installed, next) && installed.passes < |installed.counted| + installed.runs
      && installed.pushes == w.pushes && installed.counted == w.counted + [fingerprint]
  {
  }

  lemma SavedIsGood(limit: nat, w: World, durable: Record, fingerprint: string)
    requires InPass(limit, w, durable) && !Refused(limit, durable, fingerprint)
    ensures var next := Record(durable.attempts + 1, Some(fingerprint));
      var saved := SaveState(w, next);
      && GoodFrom(limit, w, saved)
      && InPass(limit, Last(w, saved), next) && Last(w, saved).passes < |Last(w, saved).counted| + Last(w, saved).runs
      && Last(w, saved).pushes == w.pushes && Last(w, saved).counted == w.counted + [fingerprint]
  {
    InstalledIsSound(limit, w, durable, fingerprint);
    var next := Record(durable.attempts + 1, Some(fingerprint));
    var begun, written := BeginTemp(w), EndTemp(BeginTemp(w), next);
    var installed := Install(written);
    assert Sound(limit, begun) && Sound(limit, written);
    assert CountedFirst(w, begun) && CountedFirst(begun, written) && CountedFirst(written, installed);
    hide Sound, CountedFirst, Install;
    assert [begun, written, installed][1..] == [written, installed] && [written, installed][1..] == [installed];
    GoodOne(limit, written, installed);
  }

  lemma PushIsGood(limit: nat, w: World, next: Record, fingerprint: string)
    requires AtTop(limit, w, next) && next.fingerprint == Some(fingerprint)
    requires forall i :: 0 <= i < |w.pushes| ==> w.pushes[i].attempt < |w.counted|
    ensures var pushed := PushOut(w, fingerprint);
      CountedFirst(w, pushed) && AtTop(limit, pushed, next)
  {
    IncreasingCount(w.pushes, |w.counted| - 1);
  }

  lemma RemediationIsGood(limit: nat, w: World, durable: Record, fingerprint: string)
    requires InPass(limit, w, durable) && !Refused(limit, durable, fingerprint)
    ensures var (effects, next) := Remediate(w, durable, fingerprint);
      GoodFrom(limit, w, effects) && AtTop(limit, Last(w, effects), next)
  {
    hide SaveState, PushOut, GoodFrom, CountedFirst, Refused;
    SavedIsGood(limit, w, durable, fingerprint);
    var next := Record(durable.attempts + 1, Some(fingerprint));
    var saved := SaveState(w, next);
    var last := Last(w, saved);
    PushIsGood(limit, last, next, fingerprint);
    GoodOne(limit, last, PushOut(last, fingerprint));
    GoodTogether(limit, w, saved, [PushOut(last, fingerprint)]);
  }

  lemma PassIsGood(limit: nat, w: World, durable: Record, p: Pass)
    requires AtTop(limit, w, durable)
    ensures var (effects, next) := PassEffects(limit, w, durable, p);
      && GoodFrom(limit, w, effects)
      && (next.Some? ==> AtTop(limit, Last(w, effects), next.value))
  {
    var noted := NotePass(w);
    assert InPass(limit, noted, durable) && CountedFirst(w, noted);
    assert Sound(limit, Unlink(noted)) && CountedFirst(noted, Unlink(noted));
    GoodOne(limit, w, noted);
    GoodOne(limit, noted, Unlink(noted));
    hide Sound, CountedFirst, Remediate, Refused, NotePass, Unlink;
    match p {
      case Merges =>
        assert [noted] + [Unlink(noted)] == [noted, Unlink(noted)];
        GoodTogether(limit, w, [noted], [Unlink(noted)]);
      case Fails(fingerprint) =>
        if !Refused(limit, durable, fingerprint) {
          RemediationIsGood(limit, noted, durable, fingerprint);
          GoodTogether(limit, w, [noted], Remediate(noted, durable, fingerprint).0);
        }
      case _ =>
    }
  }

  lemma {:induction false} LoopIsGood(limit: nat, w: World, durable: Record, passes: seq<Pass>)
    requires AtTop(limit, w, durable)
    ensures GoodFrom(limit, w, LoopEffects(limit, w, durable, passes))
    decreases passes
  {
    hide AtTop, PassEffects;
    if passes != [] {
      PassIsGood(limit, w, durable, passes[0]);
      var (effects, next) := PassEffects(limit, w, durable, passes[0]);
      if next.Some? {
        LoopIsGood(limit, Last(w, effects), next.value, passes[1..]);
        GoodTogether(limit, w, effects, LoopEffects(limit, Last(w, effects), next.value, passes[1..]));
      } else {
        assert effects + [] == effects;
      }
    }
  }

  lemma ReadIsGood(limit: nat, w: World)
    requires Sound(limit, w)
    ensures var (effects, durable) := ReadState(w);
      GoodFrom(limit, w, effects) && (durable.Some? ==> AtTop(limit, Last(w, effects), durable.value))
  {
    var (effects, durable) := ReadState(w);
    if w.file.Holds? {
      GoodOne(limit, w, BeginRun(w));
    } else if w.file.Absent? {
      var begun, created := BeginCreate(w), EndCreate(BeginCreate(w), Record(0, None));
      var run := BeginRun(created);
      assert Sound(limit, begun) && Sound(limit, created) && Sound(limit, run);
      assert CountedFirst(w, begun) && CountedFirst(begun, created) && CountedFirst(created, run);
      GoodOne(limit, created, run);
      assert effects == [begun, created, run];
      assert [begun, created, run][1..] == [created, run] && [created, run][1..] == [run];
      hide Sound, CountedFirst;
    }
  }

  lemma ProcessIsGood(limit: nat, w: World, passes: seq<Pass>)
    requires Sound(limit, w)
    ensures GoodFrom(limit, w, ProcessEffects(limit, w, passes))
  {
    hide Sound, ReadState, AtTop, GoodFrom, LoopEffects;
    ReadIsGood(limit, w);
    var (effects, durable) := ReadState(w);
    if durable.Some? {
      LoopIsGood(limit, Last(w, effects), durable.value, passes);
      GoodTogether(limit, w, effects, LoopEffects(limit, Last(w, effects), durable.value, passes));
    } else {
      assert effects + [] == effects;
    }
  }

  lemma LongerIsGood(limit: nat, before: seq<World>, passes: seq<Pass>, survived: nat)
    requires before != [] && before[0] == NOTHING
    requires GoodFrom(limit, NOTHING, before[1..]) && Sound(limit, before[|before| - 1])
    ensures var effects := Cut(ProcessEffects(limit, before[|before| - 1], passes), survived);
      var longer := before + effects;
      GoodFrom(limit, NOTHING, longer[1..]) && Sound(limit, longer[|longer| - 1])
  {
    hide Sound, CountedFirst, ProcessEffects, GoodFrom;
    var w := before[|before| - 1];
    var all := ProcessEffects(limit, w, passes);
    var effects := Cut(all, survived);
    ProcessIsGood(limit, w, passes);
    GoodPrefix(limit, w, all, |effects|);
    assert all[..|effects|] == effects;
    assert Last(NOTHING, before[1..]) == w;
    GoodTogether(limit, NOTHING, before[1..], effects);
    assert (before + effects)[1..] == before[1..] + effects;
    if effects != [] { GoodAt(limit, w, effects, |effects| - 1); }
  }

  lemma NothingIsGood(limit: nat, h: seq<World>)
    requires h == [NOTHING]
    ensures GoodFrom(limit, NOTHING, h[1..]) && Sound(limit, h[|h| - 1])
  {
  }

  lemma {:induction false} HistoryIsGood(limit: nat, processes: seq<Process>)
    ensures GoodFrom(limit, NOTHING, History(limit, processes)[1..])
    ensures Sound(limit, History(limit, processes)[|History(limit, processes)| - 1])
  {
    hide Sound, GoodFrom, ProcessEffects, Cut;
    if processes == [] {
      NothingIsGood(limit, History(limit, processes));
    } else {
      var n := |processes| - 1;
      HistoryIsGood(limit, processes[..n]);
      LongerIsGood(limit, History(limit, processes[..n]), processes[n].passes, processes[n].survived);
    }
  }

  lemma SoundAtEveryPoint(limit: nat, processes: seq<Process>, k: nat)
    requires k < |History(limit, processes)|
    ensures Sound(limit, History(limit, processes)[k])
  {
    HistoryIsGood(limit, processes);
    var h := History(limit, processes);
    hide History;
    if k > 0 { GoodAt(limit, NOTHING, h[1..], k - 1); }
  }

  // ----- main results

  /**
   * In every history, at every step that pushes, the state file already counts the attempt: it records the
   * failure the push answers, and more attempts than there were pushes before.
   */
  lemma PushesAreCountedFirst(limit: nat, processes: seq<Process>, k: nat)
    requires k + 1 < |History(limit, processes)|
    ensures CountedFirst(History(limit, processes)[k], History(limit, processes)[k + 1])
  {
    HistoryIsGood(limit, processes);
    var h := History(limit, processes);
    hide History, CountedFirst, Sound;
    GoodAt(limit, NOTHING, h[1..], k);
  }

  /** What holds of the outside while a state file lives. */
  predicate WithinBudget(limit: nat, w: World) {
    && |w.pushes| <= |w.counted| <= limit
    && (w.file.Holds? ==> w.file.record.attempts == |w.counted|)
    && (forall i, j :: 0 <= i < j < |w.pushes| ==> w.pushes[i].attempt != w.pushes[j].attempt)
    && (forall i :: 0 <= i < |w.pushes| ==> w.pushes[i].attempt <= CountedIn(w.file))
    && (forall i :: 0 < i < |w.counted| ==> w.counted[i - 1] != w.counted[i])
    && w.passes <= limit + w.runs
  }

  /**
   * At every point of every history: pushes never exceed the attempts the state file counts, nor these the
   * limit; no attempt is pushed twice; consecutive counted attempts answer different failures; and the
   * passes that are not pending are at most the limit plus one per process run.
   */
  lemma BudgetHolds(limit: nat, processes: seq<Process>, k: nat)
    requires k < |History(limit, processes)|
    ensures WithinBudget(limit, History(limit, processes)[k])
  {
    SoundAtEveryPoint(limit, processes, k);
    var w := History(limit, processes)[k];
    hide History;
    IncreasingCount(w.pushes, |w.counted|);
  }

  /**
   * A failure is answered by a push exactly if it is a new one and attempts are left; the pass then counts it,
   * and the process goes on only after that or while checks are pending.
   */
  lemma PassAnswers(limit: nat, w: World, durable: Record, p: Pass)
    ensures var (effects, next) := PassEffects(limit, w, durable, p);
      var after := Last(w, effects);
      var answers := p.Fails? && durable.fingerprint != Some(p.fingerprint) && durable.attempts < limit;
      && (next.Some? <==> p.Pending? || answers)
      && (if answers then
            && next == Some(Record(durable.attempts + 1, Some(p.fingerprint)))
            && after.file == Holds(next.value) && after.temp == NoTemp
            && after.pushes == w.pushes + [Push(p.fingerprint, durable.attempts + 1)]
            && after.counted == w.counted + [p.fingerprint]
          else if p.Merges? then after == NOTHING.(temp := w.temp)
          else after == w.(passes := after.passes) && (next.Some? ==> next.value == durable))
      && (!p.Merges? ==> after.passes == w.passes + if p.Pending? then 0 else 1)
  {
  }
}
