/**
 * One directory of a file system that can lose power. File contents survive once they are synced; a
 * name survives as any binding it has had since the directory was last synced, independently of the
 * other names; a rename changes its target's binding at once.
 */
module Disk {
  import opened Wrappers
  import opened Conversion

  datatype Name = ConfigToml | TempFile(id: nat) | Backup(version: nat, id: nat)

  datatype File = File(content: string, synced: bool)

  // `past` holds the earlier bindings of a name since the last directory sync; None is "no such file".
  datatype Volume = Volume(files: map<nat, File>, bound: map<Name, nat>, past: map<Name, set<Option<nat>>>, next: nat)

  function Binding(v: Volume, name: Name): Option<nat> {
    if name in v.bound then Some(v.bound[name]) else None
  }

  function PossibleBindings(v: Volume, name: Name): set<Option<nat>> {
    {Binding(v, name)} + if name in v.past then v.past[name] else {}
  }

  predicate Possible(v: Volume, name: Name, binding: Option<nat>) { binding in PossibleBindings(v, name) }

  function Bind(v: Volume, name: Name, binding: Option<nat>): Volume {
    v.(bound := if binding.Some? then v.bound[name := binding.value] else v.bound - {name},
       past := v.past[name := PossibleBindings(v, name)])
  }

  predicate KnownFile(v: Volume, binding: Option<nat>) {
    binding.Some? ==> binding.value in v.files && binding.value < v.next
  }

  ghost predicate WellFormed(v: Volume) {
    && (forall name, b :: Possible(v, name, b) ==> KnownFile(v, b))
    && (forall i :: i in v.files ==> i < v.next)
  }

  // What a reader finds under a name now.
  function Visible(v: Volume, name: Name): Option<string> {
    match Binding(v, name)
    case None => None
    case Some(i) => if i in v.files then Some(v.files[i].content) else None
  }

  // A crash can leave this binding with this content: contents that were not synced can be anything.
  predicate LeavesContent(v: Volume, binding: Option<nat>, content: Option<string>) {
    match binding
    case None => content.None?
    case Some(i) => content.Some? && i in v.files && (v.files[i].synced ==> v.files[i].content == content.value)
  }

  /** After a crash now, the name can hold this content. */
  ghost predicate Survives(v: Volume, name: Name, content: Option<string>) {
    exists b :: Possible(v, name, b) && LeavesContent(v, b, content)
  }

  /** The name holds exactly this content, now and after any crash. */
  ghost predicate Secured(v: Volume, name: Name, content: string) {
    && Visible(v, name) == Some(content)
    && forall c :: Survives(v, name, c) ==> c == Some(content)
  }

  /** The name holds what it held, and a crash can leave nothing it could not leave before. */
  ghost predicate Kept(before: Volume, after: Volume, name: Name) {
    && Visible(after, name) == Visible(before, name)
    && forall c :: Survives(after, name, c) ==> Survives(before, name, c)
  }

  /** The name holds what it held or the new content, now and after any crash. */
  ghost predicate OldOrNew(before: Volume, after: Volume, name: Name, content: string) {
    && (Visible(after, name) == Visible(before, name) || Visible(after, name) == Some(content))
    && forall c :: Survives(after, name, c) ==> Survives(before, name, c) || c == Some(content)
  }

  // The name is bound as before; a directory sync may have settled it.
  ghost predicate NotTouched(before: Volume, after: Volume, name: Name) {
    && Binding(after, name) == Binding(before, name)
    && forall b :: Possible(after, name, b) ==> Possible(before, name, b)
  }

  // The files there were have not been written to.
  ghost predicate FilesKept(before: Volume, after: Volume) {
    && before.next <= after.next
    && forall i :: i in before.files ==> i in after.files && after.files[i] == before.files[i]
  }

  lemma NotTouchedIsKept(before: Volume, after: Volume, name: Name)
    requires WellFormed(before) && NotTouched(before, after, name) && FilesKept(before, after)
    ensures Kept(before, after, name)
  {
    assert Possible(before, name, Binding(before, name));
    forall c | Survives(after, name, c) ensures Survives(before, name, c) {
      var b :| Possible(after, name, b) && LeavesContent(after, b, c);
      assert KnownFile(before, b);
      assert LeavesContent(before, b, c);
    }
  }

  lemma NotTouchedLater(before: Volume, between: Volume, after: Volume, name: Name)
    requires NotTouched(before, between, name) && NotTouched(between, after, name)
    ensures NotTouched(before, after, name)
  {
  }

  /** The four ways the operations change bindings. */
  lemma SameNames(v: Volume, next: Volume, name: Name)
    requires next.bound == v.bound && (next.past == v.past || next.past == map[])
    ensures NotTouched(v, next, name)
  {
    forall b | Possible(next, name, b) ensures Possible(v, name, b) {
    }
  }

  lemma BoundElsewhere(v: Volume, target: Name, binding: Option<nat>, name: Name)
    requires name != target
    ensures NotTouched(v, Bind(v, target, binding), name)
  {
    forall b | Possible(Bind(v, target, binding), name, b) ensures Possible(v, name, b) {
    }
  }

  lemma BoundHere(v: Volume, target: Name, binding: Option<nat>)
    ensures Binding(Bind(v, target, binding), target) == binding
    ensures forall b :: Possible(Bind(v, target, binding), target, b) <==> b == binding || Possible(v, target, b)
  {
    forall b ensures Possible(Bind(v, target, binding), target, b) <==> b == binding || Possible(v, target, b) {
    }
  }

  // Each name holds one content that could survive, and nothing is pending any more.
  ghost predicate SettledFrom(v: Volume, recovered: Volume, name: Name) {
    && Survives(v, name, Visible(recovered, name))
    && forall c :: Survives(recovered, name, c) ==> c == Visible(recovered, name)
  }

  ghost predicate AfterCrash(v: Volume, recovered: Volume) {
    WellFormed(recovered) && forall name :: SettledFrom(v, recovered, name)
  }

  // Everything written so far happens to survive.
  function Flushed(v: Volume): Volume {
    v.(files := map i | i in v.files :: v.files[i].(synced := true), past := map[])
  }

  lemma SomethingSurvives(v: Volume)
    requires WellFormed(v)
    ensures AfterCrash(v, Flushed(v))
  {
    var kept := Flushed(v);
    forall n, b | Possible(kept, n, b) ensures KnownFile(kept, b) {
      assert Possible(v, n, b);
    }
    forall name ensures SettledFrom(v, kept, name) {
      assert Possible(v, name, Binding(v, name)) && LeavesContent(v, Binding(v, name), Visible(kept, name));
    }
  }

  class Directory {
    var v: Volume
    // Every state the directory has been in, for crashes at any point.
    var trace: seq<Volume>

    ghost predicate Valid()
      reads this
    {
      WellFormed(v) && forall t :: t in trace ==> WellFormed(t)
    }

    constructor (found: Volume)
      requires WellFormed(found)
      ensures Valid() && v == found && trace == [found]
    {
      v := found;
      trace := [found];
    }

    method Step(next: Volume)
      requires Valid() && WellFormed(next)
      modifies this
      ensures Valid() && v == next && trace == old(trace) + [next]
    {
      v := next;
      trace := trace + [next];
    }

    // Power is lost in a state of the trace: what is left is any volume that state can leave.
    method Crash(point: nat, recovered: Volume)
      requires Valid() && point < |trace| && AfterCrash(trace[point], recovered)
      modifies this
      ensures Valid() && v == recovered && trace == old(trace)[..point + 1] + [recovered]
    {
      trace := trace[..point + 1];
      Step(recovered);
    }

    // Each operation may fail; `ok` is the environment's choice.

    method Read(name: Name, ok: bool) returns (r: Result<Option<string>, StoreError>)
      requires Valid()
      ensures r == if ok then Ok(Visible(v, name)) else Err(Io)
    {
      if !ok { return Err(Io); }
      r := Ok(Visible(v, name));
    }

    // Exclusive creation: fails if the name exists.
    method Create(name: Name, ok: bool) returns (r: Option<nat>)
      requires Valid()
      modifies this
      ensures Valid()
      ensures r.Some? <==> ok && name !in old(v.bound)
      ensures r.None? ==> v == old(v) && trace == old(trace)
      ensures r.Some? ==>
        && r.value == old(v.next) && Binding(old(v), name).None?
        && v == Bind(old(v).(files := old(v).files[r.value := File("", false)], next := old(v).next + 1), name, r)
        && trace == old(trace) + [v]
    {
      if !ok || name in v.bound { return None; }
      r := Some(v.next);
      var grown := v.(files := v.files[v.next := File("", false)], next := v.next + 1);
      forall n, b | Possible(Bind(grown, name, r), n, b) ensures KnownFile(Bind(grown, name, r), b) {
        if b != r { assert Possible(v, n, b); }
      }
      Step(Bind(grown, name, r));
    }

    // A write that fails leaves some partial content.
    method Write(i: nat, content: string, ok: bool, partial: string)
      requires Valid() && i in v.files
      modifies this
      ensures Valid() && trace == old(trace) + [v]
      ensures v == old(v).(files := old(v).files[i := File(if ok then content else partial, false)])
    {
      var next := v.(files := v.files[i := File(if ok then content else partial, false)]);
      SameBindings(v, next);
      Step(next);
    }

    method SyncFile(i: nat, ok: bool)
      requires Valid() && i in v.files
      modifies this
      ensures Valid() && trace == old(trace) + [v]
      ensures v == if ok then old(v).(files := old(v).files[i := old(v).files[i].(synced := true)]) else old(v)
    {
      var next := if ok then v.(files := v.files[i := v.files[i].(synced := true)]) else v;
      SameBindings(v, next);
      Step(next);
    }

    method SyncDirectory(ok: bool)
      requires Valid()
      modifies this
      ensures Valid() && trace == old(trace) + [v]
      ensures v == if ok then old(v).(past := map[]) else old(v)
    {
      var next := if ok then v.(past := map[]) else v;
      forall n, b | Possible(next, n, b) ensures KnownFile(next, b) {
        assert Possible(v, n, b);
      }
      Step(next);
    }

    method Rename(source: Name, target: Name, ok: bool) returns (done: bool)
      requires Valid() && source != target && source in v.bound
      modifies this
      ensures Valid() && trace == old(trace) + [v]
      ensures done == ok
      ensures v == if ok then Bind(Bind(old(v), target, Some(old(v).bound[source])), source, None) else old(v)
    {
      done := ok;
      if ok {
        var moved := Bind(v, target, Some(v.bound[source]));
        assert Possible(v, source, Some(v.bound[source]));
        BindKeepsWellFormed(v, target, Some(v.bound[source]));
        BindKeepsWellFormed(moved, source, None);
        Step(Bind(moved, source, None));
      } else {
        Step(v);
      }
    }

    // Removal is attempted and its outcome ignored.
    method Remove(name: Name, ok: bool)
      requires Valid()
      modifies this
      ensures Valid() && trace == old(trace) + [v]
      ensures v == if ok then Bind(old(v), name, None) else old(v)
    {
      BindKeepsWellFormed(v, name, None);
      Step(if ok then Bind(v, name, None) else v);
    }
  }

  lemma SameBindings(v: Volume, next: Volume)
    requires WellFormed(v) && next.bound == v.bound && next.past == v.past && next.next == v.next
    requires next.files.Keys == v.files.Keys
    ensures WellFormed(next)
  {
    forall n, b | Possible(next, n, b) ensures KnownFile(next, b) {
      assert Possible(v, n, b);
    }
  }

  lemma BindKeepsWellFormed(v: Volume, name: Name, binding: Option<nat>)
    requires WellFormed(v) && KnownFile(v, binding)
    ensures WellFormed(Bind(v, name, binding))
  {
    forall n, b | Possible(Bind(v, name, binding), n, b) ensures KnownFile(Bind(v, name, binding), b) {
      if b != binding { assert Possible(v, n, b); }
    }
  }
}
