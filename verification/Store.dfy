/** Saving config.toml by atomic replacement, and migrating an older file after backing it up. */
module Store {
  import opened Wrappers
  import opened Rules
  import opened Conversion
  import opened Disk
  import Sections

  // ----- the text format: parsing may fail, and printing is inverted by parsing

  datatype Format = Format(
    header: string -> Option<nat>, parseV1: string -> Option<ConfigV1>, parseV2: string -> Option<ConfigV2>,
    print_: ConfigV2 -> string)

  ghost predicate Lawful(fmt: Format) {
    forall c :: fmt.parseV2(fmt.print_(c)) == Some(c) && fmt.header(fmt.print_(c)) == Some(c.schemaVersion)
  }

  function Schema(fmt: Format, text: string): Result<nat, StoreError> {
    match fmt.header(text)
    case None => Err(Decode)
    case Some(version) => Ok(version)
  }

  function DecodeText(fmt: Format, text: string): Result<Persisted, StoreError> {
    var version :- Schema(fmt, text);
    if version != SCHEMA_VERSION then Err(UnsupportedSchema(version))
    else
      match fmt.parseV2(text)
      case None => Err(Decode)
      case Some(config) => IntoDomain(config)
  }

  function EncodeText(fmt: Format, p: Persisted): Result<string, StoreError> {
    var config :- FromDomain(p);
    Ok(fmt.print_(config))
  }

  /** What is written is read back as it was. */
  lemma EncodeRoundTrip(fmt: Format, p: Persisted)
    requires Lawful(fmt) && EncodeText(fmt, p).Ok? && AllValid(p.rules)
    ensures DecodeText(fmt, EncodeText(fmt, p).value) == Ok(p)
  {
    ConfigRoundTrip(FromDomain(p).value, p);
  }

  // ----- replacement

  // A volume reached from `v0` before the rename: only the temporary file is new.
  ghost predicate BeforeRename(v0: Volume, v: Volume, temp: Name) {
    FilesKept(v0, v) && forall name :: name != temp ==> NotTouched(v0, v, name)
  }

  // A volume reached after it: config.toml is the synced new file, possibly not yet settled.
  ghost predicate AfterRename(v0: Volume, v: Volume, temp: Name, file: nat, bytes: string) {
    && FilesKept(v0, v)
    && (forall name :: name != temp && name != ConfigToml ==> NotTouched(v0, v, name))
    && Binding(v, ConfigToml) == Some(file) && file in v.files && v.files[file] == File(bytes, true)
    && forall b :: Possible(v, ConfigToml, b) ==> Possible(v0, ConfigToml, b) || b == Some(file)
  }

  /** What holds at every point of a replacement, whatever fails and wherever power is lost. */
  ghost predicate Replacing(v0: Volume, v: Volume, temp: Name, bytes: string) {
    && OldOrNew(v0, v, ConfigToml, bytes)
    && (Visible(v, ConfigToml) == Some(bytes) || Kept(v0, v, ConfigToml))
    && FilesKept(v0, v)
    && forall name :: name != temp && name != ConfigToml ==> NotTouched(v0, v, name)
  }

  lemma EitherSideOfRename(v0: Volume, v: Volume, temp: Name, file: nat, bytes: string)
    requires WellFormed(v0) && temp != ConfigToml
    requires BeforeRename(v0, v, temp) || AfterRename(v0, v, temp, file, bytes)
    ensures Replacing(v0, v, temp, bytes)
  {
    if BeforeRename(v0, v, temp) {
      NotTouchedIsKept(v0, v, ConfigToml);
    } else {
      forall c | Survives(v, ConfigToml, c) ensures Survives(v0, ConfigToml, c) || c == Some(bytes) {
        var b :| Possible(v, ConfigToml, b) && LeavesContent(v, b, c);
        if b != Some(file) { assert LeavesContent(v0, b, c) by { assert KnownFile(v0, b); } }
      }
    }
  }

  lemma SettledRename(v0: Volume, v: Volume, temp: Name, file: nat, bytes: string)
    requires AfterRename(v0, v, temp, file, bytes) && v.past == map[]
    ensures Secured(v, ConfigToml, bytes)
  {
    forall c | Survives(v, ConfigToml, c) ensures c == Some(bytes) {
      var b :| Possible(v, ConfigToml, b) && LeavesContent(v, b, c);
      assert b == Some(file);
    }
  }

  // ----- how each operation moves along

  lemma OtherOperation(v0: Volume, v: Volume, v': Volume, temp: Name)
    requires BeforeRename(v0, v, temp) && FilesKept(v0, v')
    requires v'.bound == v.bound && (v'.past == v.past || v'.past == map[])
    ensures BeforeRename(v0, v', temp)
  {
    forall name | name != temp ensures NotTouched(v0, v', name) {
      SameNames(v, v', name);
      NotTouchedLater(v0, v, v', name);
    }
  }

  lemma TempBound(v0: Volume, v: Volume, temp: Name, binding: Option<nat>)
    requires BeforeRename(v0, v, temp)
    ensures BeforeRename(v0, Bind(v, temp, binding), temp)
  {
    forall name | name != temp ensures NotTouched(v0, Bind(v, temp, binding), name) {
      BoundElsewhere(v, temp, binding, name);
      NotTouchedLater(v0, v, Bind(v, temp, binding), name);
    }
  }

  lemma Renamed(v0: Volume, v: Volume, temp: Name, file: nat, bytes: string)
    requires BeforeRename(v0, v, temp) && temp != ConfigToml
    requires file in v.files && v.files[file] == File(bytes, true)
    ensures AfterRename(v0, Bind(Bind(v, ConfigToml, Some(file)), temp, None), temp, file, bytes)
  {
    var target := Bind(v, ConfigToml, Some(file));
    var v' := Bind(target, temp, None);
    BoundHere(v, ConfigToml, Some(file));
    BoundElsewhere(target, temp, None, ConfigToml);
    assert NotTouched(v0, v, ConfigToml);
    forall name | name != temp && name != ConfigToml ensures NotTouched(v0, v', name) {
      BoundElsewhere(v, ConfigToml, Some(file), name);
      BoundElsewhere(target, temp, None, name);
      NotTouchedLater(v0, v, target, name);
      NotTouchedLater(v0, target, v', name);
    }
  }

  lemma DirectorySynced(v0: Volume, v: Volume, temp: Name, file: nat, bytes: string)
    requires AfterRename(v0, v, temp, file, bytes)
    ensures AfterRename(v0, v.(past := map[]), temp, file, bytes)
  {
    var v' := v.(past := map[]);
    forall name ensures NotTouched(v, v', name) { SameNames(v, v', name); }
    forall name | name != temp && name != ConfigToml ensures NotTouched(v0, v', name) {
      NotTouchedLater(v0, v, v', name);
    }
  }

  // Which operations of a replacement succeed, in their order; what a failing write leaves in the file.
  datatype Outcomes = Outcomes(
    created: bool, written: bool, partial: string, fileSynced: bool, checked: bool, renamed: bool,
    directorySynced: bool, removed: bool)

  predicate Renames(o: Outcomes) { o.written && o.fileSynced && o.checked && o.renamed }

  // Writes, syncs and renames; `keep` says whether the temporary name has been used up.
  method FillAndRename(dir: Directory, temp: Name, file: nat, bytes: string, o: Outcomes, ghost v0: Volume)
    returns (r: Result<(), StoreError>, keep: bool)
    requires dir.Valid() && WellFormed(v0) && temp != ConfigToml
    requires BeforeRename(v0, dir.v, temp)
    requires file >= v0.next && file in dir.v.files && Binding(dir.v, temp) == Some(file)
    modifies dir
    ensures dir.Valid() && old(dir.trace) <= dir.trace
    ensures forall k :: |old(dir.trace)| <= k < |dir.trace| ==> Replacing(v0, dir.trace[k], temp, bytes)
    ensures keep == Renames(o)
    ensures r == if !Renames(o) then Err(Io) else if o.directorySynced then Ok(()) else Err(DurabilityUncertain)
    ensures !keep ==> r == Err(Io) && BeforeRename(v0, dir.v, temp)
    ensures !keep ==> forall k :: |old(dir.trace)| <= k < |dir.trace| ==> BeforeRename(v0, dir.trace[k], temp)
    ensures keep ==> (r.Ok? || r.error.DurabilityUncertain?) && AfterRename(v0, dir.v, temp, file, bytes)
    ensures r.Ok? ==> Secured(dir.v, ConfigToml, bytes)
  {
    hide BeforeRename, AfterRename, Replacing, Secured, Bind;
    ghost var v := dir.v;
    FilesAtStart(v0, v, temp);
    dir.Write(file, bytes, o.written, o.partial);
    OtherOperation(v0, v, dir.v, temp);
    EitherSideOfRename(v0, dir.v, temp, file, bytes);
    if !o.written { return Err(Io), false; }
    v := dir.v;
    dir.SyncFile(file, o.fileSynced);
    OtherOperation(v0, v, dir.v, temp);
    EitherSideOfRename(v0, dir.v, temp, file, bytes);
    if !o.fileSynced { return Err(Io), false; }
    var current := dir.Read(ConfigToml, o.checked);
    if current.Err? { return Err(Io), false; }
    v := dir.v;
    var done := dir.Rename(temp, ConfigToml, o.renamed);
    if !done {
      EitherSideOfRename(v0, dir.v, temp, file, bytes);
      return Err(Io), false;
    }
    Renamed(v0, v, temp, file, bytes);
    EitherSideOfRename(v0, dir.v, temp, file, bytes);
    v := dir.v;
    dir.SyncDirectory(o.directorySynced);
    DirectorySynced(v0, v, temp, file, bytes);
    EitherSideOfRename(v0, dir.v, temp, file, bytes);
    if !o.directorySynced { return Err(DurabilityUncertain), true; }
    SettledRename(v0, dir.v, temp, file, bytes);
    return Ok(()), true;
  }

  lemma FilesAtStart(v0: Volume, v: Volume, temp: Name)
    requires BeforeRename(v0, v, temp)
    ensures FilesKept(v0, v)
  {
  }

  lemma NothingYet(v0: Volume, temp: Name)
    ensures BeforeRename(v0, v0, temp)
  {
  }

  lemma NewFileYet(v0: Volume, temp: Name)
    requires WellFormed(v0)
    ensures var grown := v0.(files := v0.files[v0.next := File("", false)], next := v0.next + 1);
      BeforeRename(v0, Bind(grown, temp, Some(v0.next)), temp)
  {
    var grown := v0.(files := v0.files[v0.next := File("", false)], next := v0.next + 1);
    NothingYet(v0, temp);
    OtherOperation(v0, v0, grown, temp);
    TempBound(v0, grown, temp, Some(v0.next));
  }

  lemma KeptBeforeRename(v0: Volume, v: Volume, temp: Name)
    requires WellFormed(v0) && BeforeRename(v0, v, temp) && temp != ConfigToml
    ensures Kept(v0, v, ConfigToml)
  {
    NotTouchedIsKept(v0, v, ConfigToml);
  }

  lemma SeenAfterRename(v0: Volume, v: Volume, temp: Name, file: nat, bytes: string)
    requires AfterRename(v0, v, temp, file, bytes)
    ensures Visible(v, ConfigToml) == Some(bytes)
  {
  }

  // The result by what succeeds: the temporary name must be free, and only the last sync may fail late.
  function ReplaceResult(v: Volume, id: nat, o: Outcomes): Result<(), StoreError> {
    if !o.created || TempFile(id) in v.bound || !Renames(o) then Err(Io)
    else if o.directorySynced then Ok(())
    else Err(DurabilityUncertain)
  }

  /**
   * Atomic replacement: at every point config.toml is the complete old or the complete new text; success
   * means the new text survives any later crash; only an uncertain-durability error leaves it visible.
   */
  method Replace(dir: Directory, id: nat, bytes: string, o: Outcomes) returns (r: Result<(), StoreError>)
    requires dir.Valid()
    modifies dir
    ensures dir.Valid() && old(dir.trace) <= dir.trace
    ensures forall k :: |old(dir.trace)| <= k < |dir.trace| ==> Replacing(old(dir.v), dir.trace[k], TempFile(id), bytes)
    ensures Replacing(old(dir.v), dir.v, TempFile(id), bytes)
    ensures r == ReplaceResult(old(dir.v), id, o)
    ensures r == Err(Io) ==>
      forall k :: |old(dir.trace)| <= k < |dir.trace| ==> Kept(old(dir.v), dir.trace[k], ConfigToml)
    ensures r.Ok? ==> Secured(dir.v, ConfigToml, bytes)
    ensures r.Err? ==> r.error.Io? || r.error.DurabilityUncertain?
    ensures r.Err? && r.error.DurabilityUncertain? ==> Visible(dir.v, ConfigToml) == Some(bytes)
    ensures r.Err? && r.error.Io? ==> Kept(old(dir.v), dir.v, ConfigToml)
  {
    hide BeforeRename, AfterRename, Replacing, Secured, Kept, Bind;
    ghost var v0, before := dir.v, dir.trace;
    var temp := TempFile(id);
    NothingYet(v0, temp);
    NewFileYet(v0, temp);
    EitherSideOfRename(v0, v0, temp, 0, bytes);
    KeptBeforeRename(v0, v0, temp);
    var created := dir.Create(temp, o.created);
    if created.None? { return Err(Io); }
    var file := created.value;
    EitherSideOfRename(v0, dir.v, temp, file, bytes);
    CreatedIsBound(v0, temp);
    var keep;
    r, keep := FillAndRename(dir, temp, file, bytes, o, v0);
    if keep {
      EitherSideOfRename(v0, dir.v, temp, file, bytes);
      SeenAfterRename(v0, dir.v, temp, file, bytes);
    } else {
      TempBound(v0, dir.v, temp, None);
      dir.Remove(temp, o.removed);
      EitherSideOfRename(v0, dir.v, temp, file, bytes);
      forall k | |before| <= k < |dir.trace| ensures Kept(v0, dir.trace[k], ConfigToml) {
        KeptBeforeRename(v0, dir.trace[k], temp);
      }
      KeptBeforeRename(v0, dir.v, temp);
    }
  }

  lemma CreatedIsBound(v0: Volume, temp: Name)
    ensures var grown := v0.(files := v0.files[v0.next := File("", false)], next := v0.next + 1);
      var v := Bind(grown, temp, Some(v0.next));
      Binding(v, temp) == Some(v0.next) && v0.next in v.files && FilesKept(grown, v)
  {
  }

  // ----- saving a configuration

  // The text found under config.toml is this configuration; no file is no configuration.
  ghost predicate Represents(fmt: Format, text: Option<string>, file: Option<ConfigV2>) {
    && (text.None? <==> file.None?)
    && (text.Some? ==> fmt.parseV2(text.value) == file && fmt.header(text.value) == Some(file.value.schemaVersion))
  }

  predicate Readable(fmt: Format, text: Option<string>) {
    text.Some? ==> DecodeText(fmt, text.value).Ok?
  }

  /** Exactly the texts of version 2 that parse and hold a valid configuration are readable. */
  lemma ReadableMeans(fmt: Format, text: string)
    ensures Readable(fmt, Some(text)) <==>
            fmt.header(text) == Some(2) && fmt.parseV2(text).Some? && IntoDomain(fmt.parseV2(text).value).Ok?
    ensures fmt.header(text).Some? && fmt.header(text).value != 2 ==>
      DecodeText(fmt, text) == Err(UnsupportedSchema(fmt.header(text).value))
    ensures fmt.header(text).None? ==> DecodeText(fmt, text) == Err(Decode)
  {
    hide IntoDomain;
  }

  // The fault of the abstract save that explains a result.
  function FaultOf(r: Result<(), StoreError>): Sections.SaveFault {
    if r.Ok? then Sections.NoFault
    else if r.error.DurabilityUncertain? then Sections.DirectorySyncFails
    else Sections.FailsBeforeRename
  }

  method SaveConfig(dir: Directory, fmt: Format, p: Persisted, id: nat, readable: bool, o: Outcomes)
    returns (r: Result<(), StoreError>)
    requires dir.Valid()
    modifies dir
    ensures dir.Valid() && old(dir.trace) <= dir.trace
    ensures EncodeText(fmt, p).Err? ==>
      r == Err(EncodeText(fmt, p).error) && dir.v == old(dir.v) && dir.trace == old(dir.trace)
    // An unreadable file is never overwritten.
    ensures EncodeText(fmt, p).Ok? && !Readable(fmt, Visible(old(dir.v), ConfigToml)) ==>
      && r == Err(if readable then DecodeText(fmt, Visible(old(dir.v), ConfigToml).value).error else Io)
      && dir.v == old(dir.v) && dir.trace == old(dir.trace)
    ensures var found := Visible(old(dir.v), ConfigToml);
      EncodeText(fmt, p).Ok? && found.Some? && fmt.header(found.value).Some? && fmt.header(found.value).value != 2 ==>
        && r == Err(if readable then UnsupportedSchema(fmt.header(found.value).value) else Io)
        && dir.v == old(dir.v)
    ensures EncodeText(fmt, p).Ok? && Readable(fmt, Visible(old(dir.v), ConfigToml)) ==>
      var bytes := EncodeText(fmt, p).value;
      && r == (if readable then ReplaceResult(old(dir.v), id, o) else Err(Io))
      && (forall k :: |old(dir.trace)| <= k < |dir.trace| ==> Replacing(old(dir.v), dir.trace[k], TempFile(id), bytes))
      && (r.Ok? ==> Secured(dir.v, ConfigToml, bytes))
      && (r.Err? ==> r.error.Io? || r.error.DurabilityUncertain?)
      && (r.Err? && r.error.DurabilityUncertain? ==> Visible(dir.v, ConfigToml) == Some(bytes))
      && (r.Err? && r.error.Io? ==> Kept(old(dir.v), dir.v, ConfigToml))
  {
    hide Replacing, Secured, Kept, DecodeText, EncodeText;
    SameIsKept(dir.v);
    if Visible(dir.v, ConfigToml).Some? { ReadableMeans(fmt, Visible(dir.v, ConfigToml).value); }
    var text := EncodeText(fmt, p);
    if text.Err? { return Err(text.error); }
    var found := dir.Read(ConfigToml, readable);
    if found.Err? { return Err(Io); }
    if found.value.Some? {
      var decoded := DecodeText(fmt, found.value.value);
      if decoded.Err? { return Err(decoded.error); }
    }
    r := Replace(dir, id, text.value, o);
  }

  lemma SameIsKept(v: Volume)
    ensures Kept(v, v, ConfigToml)
  {
  }

  /** What the manager assumes of a save is what the store does, up to the choice of the fault. */
  lemma SaveIsSectionSave(
    fmt: Format, p: Persisted, file: Option<ConfigV2>, before: Option<string>, after: Option<string>,
    r: Result<(), StoreError>)
    requires Lawful(fmt) && Represents(fmt, before, file) && (file.Some? ==> IntoDomain(file.value).Ok?)
    requires EncodeText(fmt, p).Err? ==> r == Err(EncodeText(fmt, p).error) && after == before
    requires EncodeText(fmt, p).Ok? && r.Err? ==> r.error.Io? || r.error.DurabilityUncertain?
    requires EncodeText(fmt, p).Ok? ==>
               after == if Sections.Committed(r) then Some(EncodeText(fmt, p).value) else before
    ensures var (file', saved) := Sections.SaveConfig(file, p, FaultOf(r));
      saved == r && Represents(fmt, after, file')
  {
    hide FromDomain, IntoDomain;
    assert r.Ok? ==> r.value == ();
  }

  /** The store's save is the save of the manager's sections, of the configuration the file holds. */
  method SaveSection(
    dir: Directory, fmt: Format, p: Persisted, ghost file: Option<ConfigV2>, id: nat, readable: bool, o: Outcomes)
    returns (r: Result<(), StoreError>)
    requires dir.Valid() && Lawful(fmt)
    requires Represents(fmt, Visible(dir.v, ConfigToml), file) && (file.Some? ==> IntoDomain(file.value).Ok?)
    modifies dir
    ensures dir.Valid() && old(dir.trace) <= dir.trace
    ensures r == Sections.SaveConfig(file, p, FaultOf(r)).1
    ensures Represents(fmt, Visible(dir.v, ConfigToml), Sections.SaveConfig(file, p, FaultOf(r)).0)
  {
    ghost var before := Visible(dir.v, ConfigToml);
    ReadableConfig(fmt, before, file);
    r := SaveConfig(dir, fmt, p, id, readable, o);
    hide Represents, DecodeText, EncodeText, Survives, Readable, Replacing, Lawful, Sections.SaveConfig;
    SaveIsSectionSave(fmt, p, file, before, Visible(dir.v, ConfigToml), r);
  }

  lemma ReadableConfig(fmt: Format, text: Option<string>, file: Option<ConfigV2>)
    requires Represents(fmt, text, file) && (file.Some? ==> IntoDomain(file.value).Ok?)
    ensures Readable(fmt, text)
    ensures file.Some? ==> DecodeText(fmt, text.value) == IntoDomain(file.value)
  {
  }

  // ----- loading, with migration of an older schema

  datatype Migration = Migration(sourceVersion: nat, migrate: string -> Result<ConfigV2, StoreError>)

  function MigrateV1(fmt: Format, text: string): Result<ConfigV2, StoreError> {
    match fmt.parseV1(text)
    case None => Err(Decode)
    case Some(legacy) =>
      var rules :- V1IntoDomain(legacy);
      FromDomain(Persisted(rules, DEFAULT_SETTINGS))
  }

  function Migrated(m: Migration, text: string): Result<Persisted, StoreError> {
    var config :- m.migrate(text);
    IntoDomain(config)
  }

  function MigratedText(fmt: Format, m: Migration, text: string): Result<string, StoreError> {
    var p :- Migrated(m, text);
    EncodeText(fmt, p)
  }

  // The answer for a text that needs no migration, None if it needs one.
  function DirectAnswer(fmt: Format, m: Migration,
                        text: Option<string>): Option<Result<Option<Persisted>, StoreError>>
  {
    if text.None? then Some(Ok(None))
    else
      match Schema(fmt, text.value)
      case Err(e) => Some(Err(e))
      case Ok(version) =>
        if version == SCHEMA_VERSION then
          match DecodeText(fmt, text.value)
          case Ok(p) => Some(Ok(Some(p)))
          case Err(e) => Some(Err(e))
        else if version >= SCHEMA_VERSION || version != m.sourceVersion then Some(Err(UnsupportedSchema(version)))
        else None
  }

  /**
   * What loading answers, by the text found: nothing only if there is no file; a version 2 text as it reads;
   * a text of any version that is neither current nor the older one to migrate is refused with its version.
   */
  predicate LoadsRight(
    fmt: Format, m: Migration, found: Option<string>, readable: bool, r: Result<Option<Persisted>, StoreError>)
  {
    && (r == Ok(None) <==> readable && found.None?)
    && (!readable ==> r == Err(Io))
    && (readable && found.Some? ==>
          match fmt.header(found.value)
          case None => r == Err(Decode)
          case Some(version) =>
            if version == 2 then
              (match fmt.parseV2(found.value)
               case None => r == Err(Decode)
               case Some(config) =>
                 if IntoDomain(config).Err? then r == Err(IntoDomain(config).error)
                 else r == Ok(Some(IntoDomain(config).value)))
            else if version < 2 && version == m.sourceVersion then
              r.Ok? ==> m.migrate(found.value).Ok? && Ok(r.value.value) == IntoDomain(m.migrate(found.value).value)
            else r == Err(UnsupportedSchema(version)))
  }

  lemma DirectAnswersAreRight(fmt: Format, m: Migration, found: Option<string>)
    requires DirectAnswer(fmt, m, found).Some?
    ensures LoadsRight(fmt, m, found, true, DirectAnswer(fmt, m, found).value)
    ensures LoadsRight(fmt, m, found, false, Err(Io))
  {
    hide IntoDomain;
  }

  lemma MigrationIsRight(fmt: Format, m: Migration, found: Option<string>, readable: bool)
    requires DirectAnswer(fmt, m, found).None?
    ensures forall e: StoreError :: readable || e == Io ==> LoadsRight(fmt, m, found, readable, Err(e))
    ensures readable && Migrated(m, found.value).Ok? ==>
      LoadsRight(fmt, m, found, readable, Ok(Some(Migrated(m, found.value).value)))
  {
    hide IntoDomain;
  }

  /** The original is still what config.toml holds, or it is in a synced backup and config.toml is old or new. */
  ghost predicate OriginalSafe(v0: Volume, v: Volume, fmt: Format, m: Migration, backup: Name, original: string) {
    || Kept(v0, v, ConfigToml)
    || (&& Secured(v, backup, original)
        && MigratedText(fmt, m, original).Ok?
        && OldOrNew(v0, v, ConfigToml, MigratedText(fmt, m, original).value))
  }

  lemma SecuredBackup(v0: Volume, v: Volume, backup: Name, file: nat, text: string)
    requires BeforeRename(v0, v, backup) && Binding(v, backup) == Some(file)
    requires file in v.files && v.files[file] == File(text, true) && v.past == map[]
    ensures Secured(v, backup, text)
  {
    forall c | Survives(v, backup, c) ensures c == Some(text) {
      var b :| Possible(v, backup, b) && LeavesContent(v, b, c);
      assert b == Some(file);
    }
  }

  predicate BacksUp(o: Outcomes) { o.written && o.fileSynced && o.directorySynced }

  /** Creates the backup exclusively, writes it, syncs it and the directory; removes it again on failure. */
  method BackUp(dir: Directory, backup: Name, text: string, o: Outcomes) returns (done: bool)
    requires dir.Valid() && backup != ConfigToml
    modifies dir
    ensures dir.Valid() && old(dir.trace) <= dir.trace
    ensures forall k :: |old(dir.trace)| <= k < |dir.trace| ==> Kept(old(dir.v), dir.trace[k], ConfigToml)
    ensures Kept(old(dir.v), dir.v, ConfigToml)
    ensures done == (o.created && backup !in old(dir.v.bound) && BacksUp(o))
    ensures BeforeRename(old(dir.v), dir.v, backup)
    ensures done ==> Secured(dir.v, backup, text)
  {
    hide BeforeRename, Secured, Kept, Bind;
    ghost var v0 := dir.v;
    SameIsKept(v0);
    NothingYet(v0, backup);
    NewFileYet(v0, backup);
    CreatedIsBound(v0, backup);
    var created := dir.Create(backup, o.created);
    if created.None? { return false; }
    var file := created.value;
    KeptBeforeRename(v0, dir.v, backup);
    done := Fill(dir, backup, file, text, o, v0);
    if !done {
      TempBound(v0, dir.v, backup, None);
      dir.Remove(backup, o.removed);
      KeptBeforeRename(v0, dir.v, backup);
    }
  }

  method Fill(dir: Directory, backup: Name, file: nat, text: string, o: Outcomes, ghost v0: Volume) returns (done: bool)
    requires dir.Valid() && WellFormed(v0) && backup != ConfigToml && BeforeRename(v0, dir.v, backup)
    requires file >= v0.next && file in dir.v.files && Binding(dir.v, backup) == Some(file)
    modifies dir
    ensures dir.Valid() && old(dir.trace) <= dir.trace
    ensures forall k :: |old(dir.trace)| <= k < |dir.trace| ==> Kept(v0, dir.trace[k], ConfigToml)
    ensures BeforeRename(v0, dir.v, backup) && Kept(v0, dir.v, ConfigToml)
    ensures done == BacksUp(o)
    ensures done ==> Secured(dir.v, backup, text)
  {
    hide BeforeRename, Secured, Kept, Bind;
    ghost var v := dir.v;
    FilesAtStart(v0, v, backup);
    dir.Write(file, text, o.written, o.partial);
    OtherOperation(v0, v, dir.v, backup);
    KeptBeforeRename(v0, dir.v, backup);
    if !o.written { return false; }
    v := dir.v;
    dir.SyncFile(file, o.fileSynced);
    OtherOperation(v0, v, dir.v, backup);
    KeptBeforeRename(v0, dir.v, backup);
    if !o.fileSynced { return false; }
    v := dir.v;
    dir.SyncDirectory(o.directorySynced);
    OtherOperation(v0, v, dir.v, backup);
    KeptBeforeRename(v0, dir.v, backup);
    if !o.directorySynced { return false; }
    SecuredBackup(v0, dir.v, backup, file, text);
    done := true;
  }

  lemma BoundAsBefore(v0: Volume, v: Volume, backup: Name, name: Name)
    requires BeforeRename(v0, v, backup) && name != backup
    ensures name in v.bound <==> name in v0.bound
  {
    assert NotTouched(v0, v, name);
  }

  /**
   * Loading: a current file is decoded and nothing is touched; an older one is backed up first, then
   * migrated and replaced, and at every point the original is in config.toml or in the synced backup.
   */
  method LoadWithMigration(
    dir: Directory, fmt: Format, m: Migration, backupId: nat, tempId: nat, readable: bool, forBackup: Outcomes,
    forReplace: Outcomes)
    returns (r: Result<Option<Persisted>, StoreError>)
    requires dir.Valid()
    modifies dir
    ensures dir.Valid() && old(dir.trace) <= dir.trace
    ensures var answer := DirectAnswer(fmt, m, Visible(old(dir.v), ConfigToml));
      answer.Some? ==>
        r == (if readable then answer.value else Err(Io)) && dir.v == old(dir.v) && dir.trace == old(dir.trace)
    ensures var found := Visible(old(dir.v), ConfigToml);
      DirectAnswer(fmt, m, found).None? ==>
        var original := found.value;
        var backup := Backup(m.sourceVersion, backupId);
        && (forall k :: |old(dir.trace)| <= k < |dir.trace| ==>
              OriginalSafe(old(dir.v), dir.trace[k], fmt, m, backup, original))
        && OriginalSafe(old(dir.v), dir.v, fmt, m, backup, original)
        && (r.Ok? ==>
              && Migrated(m, original).Ok? && r.value == Some(Migrated(m, original).value)
              && MigratedText(fmt, m, original).Ok? && Secured(dir.v, ConfigToml, MigratedText(fmt, m, original).value)
              && Secured(dir.v, backup, original))
        && (r.Err? && !r.error.DurabilityUncertain? ==> Kept(old(dir.v), dir.v, ConfigToml))
        && (r.Err? && !r.error.Io? ==> Secured(dir.v, backup, original))
        && r == (if !readable || !forBackup.created || backup in old(dir.v).bound || !BacksUp(forBackup) then Err(Io)
                 else
                   match MigratedText(fmt, m, original)
                   case Err(e) => Err(e)
                   case Ok(_) =>
                     match ReplaceResult(old(dir.v), tempId, forReplace)
                     case Err(e) => Err(e)
                     case Ok(_) => Ok(Some(Migrated(m, original).value)))
    ensures LoadsRight(fmt, m, Visible(old(dir.v), ConfigToml), readable, r)
  {
    hide Secured, Kept, OldOrNew, Replacing, Survives, BeforeRename, DecodeText, EncodeText, IntoDomain, LoadsRight;
    ghost var v0 := dir.v;
    ghost var found := Visible(v0, ConfigToml);
    SameIsKept(v0);
    if DirectAnswer(fmt, m, found).Some? { DirectAnswersAreRight(fmt, m, found); }
    if DirectAnswer(fmt, m, found).None? { MigrationIsRight(fmt, m, found, readable); }
    var read := dir.Read(ConfigToml, readable);
    if read.Err? { return Err(Io); }
    if read.value.None? { return Ok(None); }
    var original := read.value.value;
    var version := Schema(fmt, original);
    if version.Err? { return Err(version.error); }
    if version.value == SCHEMA_VERSION {
      var decoded := DecodeText(fmt, original);
      return if decoded.Ok? then Ok(Some(decoded.value)) else Err(decoded.error);
    }
    if version.value >= SCHEMA_VERSION || version.value != m.sourceVersion {
      return Err(UnsupportedSchema(version.value));
    }
    var backup := Backup(version.value, backupId);
    var done := BackUp(dir, backup, original, forBackup);
    if !done { return Err(Io); }
    ghost var v1 := dir.v;
    BoundAsBefore(v0, v1, backup, TempFile(tempId));
    var migrated := Migrated(m, original);
    if migrated.Err? { return Err(migrated.error); }
    var text := EncodeText(fmt, migrated.value);
    if text.Err? { return Err(text.error); }
    ghost var before := dir.trace;
    var replaced := Replace(dir, tempId, text.value, forReplace);
    forall k | |before| <= k < |dir.trace| ensures OriginalSafe(v0, dir.trace[k], fmt, m, backup, original) {
      StillSecured(v0, v1, dir.trace[k], TempFile(tempId), text.value, backup, original);
    }
    StillSecured(v0, v1, dir.v, TempFile(tempId), text.value, backup, original);
    if replaced.Err? {
      if replaced.error.Io? { KeptTwice(v0, v1, dir.v); }
      return Err(replaced.error);
    }
    return Ok(Some(migrated.value));
  }

  lemma KeptTwice(v0: Volume, v1: Volume, v2: Volume)
    requires Kept(v0, v1, ConfigToml) && Kept(v1, v2, ConfigToml)
    ensures Kept(v0, v2, ConfigToml)
  {
  }

  lemma StillSecured(v0: Volume, v1: Volume, v: Volume, temp: Name, bytes: string, backup: Name, original: string)
    requires WellFormed(v1) && Kept(v0, v1, ConfigToml) && Replacing(v1, v, temp, bytes)
    requires Secured(v1, backup, original) && backup != temp && backup != ConfigToml
    ensures Secured(v, backup, original) && OldOrNew(v0, v, ConfigToml, bytes)
  {
    NotTouchedIsKept(v1, v, backup);
    hide Survives;
  }

  // What loading this text answers when no operation fails.
  function Loaded(fmt: Format, m: Migration, text: string): Result<Option<Persisted>, StoreError> {
    match DirectAnswer(fmt, m, Some(text))
    case Some(answer) => answer
    case None =>
      var p :- Migrated(m, text);
      var _ :- EncodeText(fmt, p);
      Ok(Some(p))
  }

  /**
   * Once a text has been migrated, every later load answers the same, whether it finds the original again
   * or the migrated text; the migrated one needs no migration, so no second backup is made.
   */
  lemma MigrationIsRepeatable(fmt: Format, m: Migration, later: Migration, original: string)
    requires Lawful(fmt) && DirectAnswer(fmt, m, Some(original)).None? && MigratedText(fmt, m, original).Ok?
    ensures var answer := Ok(Some(Migrated(m, original).value));
      var new_ := MigratedText(fmt, m, original).value;
      && Loaded(fmt, m, original) == answer
      && DirectAnswer(fmt, later, Some(new_)) == Some(answer)
      && Loaded(fmt, later, new_) == answer
  {
    var p := Migrated(m, original).value;
    DomainIsValid(m.migrate(original).value);
    EncodeRoundTrip(fmt, p);
    hide DecodeText;
    assert fmt.header(EncodeText(fmt, p).value) == Some(SCHEMA_VERSION);
  }

  /** The shipped migration reads exactly the version 1 files of valid rule sets, with default settings. */
  lemma MigratesV1(fmt: Format, text: string, p: Persisted)
    requires fmt.parseV1(text).Some?
    ensures var legacy := fmt.parseV1(text).value;
      Migrated(Migration(1, t => MigrateV1(fmt, t)), text) == Ok(p) <==>
        && legacy.schemaVersion == 1 && AllToWire(p.rules) == legacy.rules
        && AllValid(p.rules) && PairwiseCompatible(p.rules) && p.settings == DEFAULT_SETTINGS
  {
    var legacy := fmt.parseV1(text).value;
    AllRoundTrip(legacy.rules, p.rules);
    ValidRuleSetIsPairwise(p.rules);
    hide PairwiseCompatible, AllValid;
    if V1IntoDomain(legacy).Ok? {
      var found := V1IntoDomain(legacy).value;
      AllRoundTrip(legacy.rules, found);
      var q := Persisted(found, DEFAULT_SETTINGS);
      ConfigRoundTrip(FromDomain(q).value, q);
    }
  }

  // ----- any series of saves and crashes

  // A save that ended with this result; one cut off by a loss of power, when config.toml already showed its
  // text or when it did not; the volume found when power is back.
  datatype StoreEvent =
    | Saved(text: string, result: Result<(), StoreError>)
    | Interrupted(text: string, shown: bool)
    | PowerBack

  ghost predicate Follows(before: Volume, e: StoreEvent, after: Volume) {
    match e
    case Saved(text, Ok(_)) => Secured(after, ConfigToml, text)
    case Saved(text, Err(DurabilityUncertain)) => OldOrNew(before, after, ConfigToml, text)
    case Saved(_, Err(_)) => Kept(before, after, ConfigToml)
    case Interrupted(text, shown) =>
      if shown then OldOrNew(before, after, ConfigToml, text) else Kept(before, after, ConfigToml)
    case PowerBack => SettledFrom(before, after, ConfigToml)
  }

  ghost predicate Happens(vs: seq<Volume>, events: seq<StoreEvent>) {
    |vs| == |events| + 1 && forall i :: 0 <= i < |events| ==> Follows(vs[i], events[i], vs[i + 1])
  }

  /**
   * What config.toml can hold: the last acknowledged text, or what there was at the start, and each text
   * since whose save got as far as the rename. A save that failed or was cut off before it leaves nothing.
   */
  function Expected(start: set<Option<string>>, events: seq<StoreEvent>): set<Option<string>> {
    if events == [] then start
    else
      var before := Expected(start, events[..|events| - 1]);
      match events[|events| - 1]
      case Saved(text, Ok(_)) => {Some(text)}
      case Saved(text, Err(DurabilityUncertain)) => before + {Some(text)}
      case Saved(_, Err(_)) => before
      case Interrupted(text, shown) => if shown then before + {Some(text)} else before
      case PowerBack => before
  }

  ghost predicate HoldsOneOf(v: Volume, contents: set<Option<string>>) {
    Visible(v, ConfigToml) in contents && forall c :: Survives(v, ConfigToml, c) ==> c in contents
  }

  lemma {:induction false} AcknowledgedSavesSurvive(start: set<Option<string>>, vs: seq<Volume>,
                                                    events: seq<StoreEvent>)
    requires Happens(vs, events) && HoldsOneOf(vs[0], start)
    ensures HoldsOneOf(vs[|events|], Expected(start, events))
    decreases |events|
  {
    hide Survives;
    if events != [] {
      var n := |events| - 1;
      AcknowledgedSavesSurvive(start, vs[..n + 1], events[..n]);
      assert Follows(vs[n], events[n], vs[n + 1]);
    }
  }

  // A loss of power at some point of a save, and the volume it leaves of each state it may strike.
  datatype PowerLoss = PowerLoss(point: nat, recover: Volume -> Volume)

  ghost predicate CanHappen(loss: PowerLoss) {
    forall v :: WellFormed(v) ==> AfterCrash(v, loss.recover(v))
  }

  datatype SaveAttempt = SaveAttempt(text: string, tempId: nat, outcomes: Outcomes, loss: Option<PowerLoss>)

  function TextsOf(events: seq<StoreEvent>): seq<string> {
    if events == [] then []
    else
      var before := TextsOf(events[..|events| - 1]);
      match events[|events| - 1]
      case Saved(text, _) => before + [text]
      case Interrupted(text, _) => before + [text]
      case PowerBack => before
  }

  function TextsTried(attempts: seq<SaveAttempt>): seq<string> {
    seq(|attempts|, i requires 0 <= i < |attempts| => attempts[i].text)
  }

  lemma OneMoreEvent(vs: seq<Volume>, events: seq<StoreEvent>, e: StoreEvent, v: Volume)
    requires Happens(vs, events) && Follows(vs[|events|], e, v)
    ensures Happens(vs + [v], events + [e])
    ensures TextsOf(events + [e]) == TextsOf(events) + if e.PowerBack? then [] else [e.text]
  {
    hide Follows;
    var vs', events' := vs + [v], events + [e];
    assert events'[..|events|] == events;
    forall i | 0 <= i < |events'| ensures Follows(vs'[i], events'[i], vs'[i + 1]) {
      if i < |events| { assert Follows(vs[i], events[i], vs[i + 1]); }
    }
  }

  // One save, with a loss of power at some point of it or after it; the events it makes.
  method SaveOnce(dir: Directory, attempt: SaveAttempt)
    returns (saved: StoreEvent, ghost between: Volume, restarted: bool)
    requires dir.Valid() && (attempt.loss.Some? ==> CanHappen(attempt.loss.value))
    modifies dir
    ensures dir.Valid() && !saved.PowerBack? && saved.text == attempt.text
    ensures Follows(old(dir.v), saved, between)
    ensures if restarted then SettledFrom(between, dir.v, ConfigToml) else between == dir.v
    ensures restarted == attempt.loss.Some?
    ensures attempt.loss.None? ==>
      saved == Saved(attempt.text, ReplaceResult(old(dir.v), attempt.tempId, attempt.outcomes))
  {
    hide OldOrNew, Kept, Secured, SettledFrom, WellFormed;
    var from := |dir.trace|;
    var r := Replace(dir, attempt.tempId, attempt.text, attempt.outcomes);
    if attempt.loss.None? { return Saved(attempt.text, r), dir.v, false; }
    var loss := attempt.loss.value;
    if from + loss.point < |dir.trace| {
      var struck := dir.trace[from + loss.point];
      assert struck in dir.trace;
      RecoversSettled(struck, loss);
      dir.Crash(from + loss.point, loss.recover(struck));
      return Interrupted(attempt.text, Visible(struck, ConfigToml) == Some(attempt.text)), struck, true;
    }
    var done := dir.v;
    RecoversSettled(done, loss);
    var recovered := loss.recover(done);
    dir.Step(done);
    dir.Crash(|dir.trace| - 1, recovered);
    return Saved(attempt.text, r), done, true;
  }

  lemma RecoversSettled(v: Volume, loss: PowerLoss)
    requires WellFormed(v) && CanHappen(loss)
    ensures AfterCrash(v, loss.recover(v)) && SettledFrom(v, loss.recover(v), ConfigToml)
  {
  }

  /**
   * Whatever saves fail, and wherever power is lost during or after them, config.toml is then the complete
   * text of the last acknowledged save or of a later save that got as far as its rename.
   */
  method SaveSeries(dir: Directory, attempts: seq<SaveAttempt>, ghost start: set<Option<string>>)
    returns (events: seq<StoreEvent>)
    requires dir.Valid() && HoldsOneOf(dir.v, start)
    requires forall i :: 0 <= i < |attempts| && attempts[i].loss.Some? ==> CanHappen(attempts[i].loss.value)
    modifies dir
    ensures dir.Valid() && TextsOf(events) == TextsTried(attempts)
    ensures HoldsOneOf(dir.v, Expected(start, events))
  {
    hide Follows, HoldsOneOf, Expected, Happens, CanHappen, SettledFrom, WellFormed;
    events := [];
    ghost var vs := [dir.v];
    NothingHappened(dir.v);
    for i := 0 to |attempts|
      invariant dir.Valid() && Happens(vs, events) && TextsOf(events) == TextsTried(attempts[..i])
      invariant |vs| == |events| + 1 && vs[0] == old(dir.v) && vs[|events|] == dir.v
    {
      var saved, between, restarted := SaveOnce(dir, attempts[i]);
      OneMoreEvent(vs, events, saved, between);
      vs, events := vs + [between], events + [saved];
      if restarted {
        PowerIsBack(between, dir.v);
        OneMoreEvent(vs, events, PowerBack, dir.v);
        vs, events := vs + [dir.v], events + [PowerBack];
      }
      assert TextsTried(attempts[..i + 1]) == TextsTried(attempts[..i]) + [attempts[i].text];
    }
    assert attempts[..|attempts|] == attempts;
    AcknowledgedSavesSurvive(start, vs, events);
  }

  lemma NothingHappened(v: Volume)
    ensures Happens([v], [])
  {
  }

  lemma PowerIsBack(before: Volume, after: Volume)
    requires SettledFrom(before, after, ConfigToml)
    ensures Follows(before, PowerBack, after)
  {
  }
}
