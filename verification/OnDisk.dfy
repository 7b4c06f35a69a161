/** Runs of the manager's protocol whose saves really go through the store, to a directory with failures. */
module OnDisk {
  import opened Wrappers
  import opened Rules
  import opened Conversion
  import opened Sections
  import opened Slots
  import opened Protocol
  import opened Disk
  import opened Store
  import Desired
  import Lifecycle

  // ----- what a step tries to save

  function AddTries(st: State, wire: WireRule): Option<Persisted> {
    match ToDomain(wire)
    case Err(_) => None
    case Ok(rule) =>
      if rule.id in st.editing || (FindRule(st.rules, rule.id).Some? && rule.id in st.running) then None
      else if !ValidRuleSet(Upsert(st.rules, rule)) then None
      else Some(Persisted(Upsert(st.rules, rule), st.settings))
  }

  function ImportTries(st: State, wires: seq<WireRule>): Option<Persisted> {
    if wires == [] then None
    else
      match AllToDomain(wires)
      case Err(_) => None
      case Ok(imported) =>
        if !FreshIds(imported, Ids(st.rules)) || !ValidRuleSet(st.rules + imported) then None
        else Some(Persisted(st.rules + imported, st.settings))
  }

  function RemoveTries(st: State, sel: Selector): Option<Persisted> {
    match Resolve(st, sel)
    case Err(_) => None
    case Ok(id) =>
      if id in st.editing || id in st.running || |WithoutRule(st.rules, id)| == |st.rules| then None
      else Some(Persisted(WithoutRule(st.rules, id), st.settings))
  }

  function EditTries(s: Sys, c: nat): Option<Persisted> {
    if c !in s.calls || !s.calls[c].EditSaving? then None
    else
      var job := s.calls[c].job;
      var next := ReplaceRule(s.st.rules, job.replacement);
      if FindRule(s.st.rules, job.expected.id).None? || RuleSetErrors(next) != [] then None
      else Some(Persisted(next, s.st.settings))
  }

  function Tries(s: Sys, step: Step): Option<Persisted> {
    match step
    case AddRule(wire, _) => AddTries(s.st, wire)
    case ImportRules(wires, _) => ImportTries(s.st, wires)
    case RemoveRule(sel, _) => RemoveTries(s.st, sel)
    case ChangeSettings(settings, _) => Some(Persisted(s.st.rules, settings))
    case EditSaves(c, _) => EditTries(s, c)
    case _ => None
  }

  function WithFault(step: Step, fault: SaveFault): Step {
    match step
    case AddRule(wire, _) => AddRule(wire, fault)
    case ImportRules(wires, _) => ImportRules(wires, fault)
    case RemoveRule(sel, _) => RemoveRule(sel, fault)
    case ChangeSettings(settings, _) => ChangeSettings(settings, fault)
    case EditSaves(c, _) => EditSaves(c, fault)
    case _ => step
  }

  function FileAfter(s: Sys, step: Step, fault: SaveFault): Option<ConfigV2> {
    match Tries(s, step)
    case None => s.st.file
    case Some(p) => Sections.SaveConfig(s.st.file, p, fault).0
  }

  lemma RequestWritesWhatItTries(s: Sys, step: Step, fault: SaveFault)
    requires step.AddRule? || step.ImportRules? || step.RemoveRule? || step.ChangeSettings?
    ensures Apply(s, WithFault(step, fault)).Some?
    ensures Apply(s, WithFault(step, fault)).value.st.file == FileAfter(s, step, fault)
  {
    hide ToDomain, AllToDomain, ValidRuleSet, FindRule, FreshIds, WithoutRule, Upsert, Resolve, FromDomain, IntoDomain;
  }

  lemma EditWritesWhatItTries(s: Sys, c: nat, fault: SaveFault, any: SaveFault)
    requires Apply(s, EditSaves(c, fault)).Some?
    ensures Apply(s, EditSaves(c, fault)).value.st.file == FileAfter(s, EditSaves(c, any), fault)
  {
    hide FindRule, ReplaceRule, RuleSetErrors, FromDomain, IntoDomain;
  }

  /** The file after a step is the file before it, saved over with what the step tries to save. */
  lemma StepWritesWhatItTries(s: Sys, step: Step, fault: SaveFault)
    requires Apply(s, WithFault(step, fault)).Some?
    ensures Apply(s, WithFault(step, fault)).value.st.file == FileAfter(s, step, fault)
  {
    hide Apply, AddTries, ImportTries, RemoveTries, EditTries;
    if step.AddRule? || step.ImportRules? || step.RemoveRule? || step.ChangeSettings? {
      RequestWritesWhatItTries(s, step, fault);
    } else if step.EditSaves? {
      EditWritesWhatItTries(s, step.call, fault, step.fault);
    } else {
      Desired.OtherStepsKeepData(s, step);
    }
  }

  // ----- opening

  // There is no file, or its text lists no rules.
  predicate HoldsNoRules(fmt: Format, found: Option<string>) {
    found.Some? ==>
      || (fmt.header(found.value) == Some(2) && fmt.parseV2(found.value).Some?
          && fmt.parseV2(found.value).value.rules == [])
      || (fmt.header(found.value) == Some(1) && fmt.parseV1(found.value).Some?
          && fmt.parseV1(found.value).value.rules == [])
  }

  function V1Migration(fmt: Format): Migration { Migration(1, text => MigrateV1(fmt, text)) }

  lemma NoWiresNoRules(wires: seq<WireRule>)
    requires AllToDomain(wires).Ok?
    ensures AllToDomain(wires).value == [] <==> wires == []
  {
    AllRoundTrip(wires, AllToDomain(wires).value);
  }

  lemma EmptyMeansNoRules(fmt: Format, found: Option<string>, readable: bool, p: Persisted)
    requires LoadsRight(fmt, V1Migration(fmt), found, readable, Ok(Some(p)))
    ensures p.rules == [] ==> HoldsNoRules(fmt, found)
  {
    var version := fmt.header(found.value);
    if version == Some(2) {
      NoWiresNoRules(fmt.parseV2(found.value).value.rules);
    } else {
      assert version == Some(1);
      var legacy := fmt.parseV1(found.value).value;
      NoWiresNoRules(legacy.rules);
      var migrated := Persisted(V1IntoDomain(legacy).value, DEFAULT_SETTINGS);
      AllRoundTrip(legacy.rules, migrated.rules);
      ConfigRoundTrip(FromDomain(migrated).value, migrated);
    }
    hide IntoDomain, AllToDomain, MigrateV1;
  }

  lemma MigratedRepresents(fmt: Format, m: Migration, text: string)
    requires Lawful(fmt) && MigratedText(fmt, m, text).Ok?
    ensures var p := Migrated(m, text).value;
      var written := MigratedText(fmt, m, text).value;
      && fmt.parseV2(written).Some?
      && Represents(fmt, Some(written), fmt.parseV2(written))
      && IntoDomain(fmt.parseV2(written).value) == Ok(p)
  {
    var p := Migrated(m, text).value;
    DomainIsValid(m.migrate(text).value);
    ConfigRoundTrip(FromDomain(p).value, p);
    hide IntoDomain, FromDomain;
  }

  // The configuration that the text found holds, as memory was decoded from it.
  function FileOf(fmt: Format, text: Option<string>): Option<ConfigV2> {
    if text.None? then None else fmt.parseV2(text.value)
  }

  /**
   * The daemon opens on whatever it finds: memory and config.toml agree, the state is one the protocol
   * starts from, rules are missing only where none were stored, and an unknown version is refused.
   */
  method OpenOnDisk(
    dir: Directory, fmt: Format, backupId: nat, tempId: nat, readable: bool, forBackup: Outcomes, forReplace: Outcomes)
    returns (r: Result<Sys, StoreError>)
    requires dir.Valid() && Lawful(fmt)
    modifies dir
    ensures dir.Valid()
    ensures r.Ok? ==>
      && Represents(fmt, Visible(dir.v, ConfigToml), r.value.st.file)
      && Desired.DecodedFile(r.value.st.file).Ok?
      && r.value == Opened(r.value.st.file, Desired.DecodedFile(r.value.st.file).value)
      && Lifecycle.Reachable(r.value)
    ensures r.Ok? && r.value.st.rules == [] ==> HoldsNoRules(fmt, Visible(old(dir.v), ConfigToml))
    ensures var found := Visible(old(dir.v), ConfigToml);
      readable && found.Some? && fmt.header(found.value).Some? && fmt.header(found.value).value !in {1, 2} ==>
        r == Err(UnsupportedSchema(fmt.header(found.value).value)) && dir.v == old(dir.v)
  {
    hide Lifecycle.Reachable, Lifecycle.Reaches, IntoDomain, FromDomain, Lawful, WellFormed, OldOrNew, Kept, Survives,
      LoadsRight, HoldsNoRules, MigrateV1, DecodeText;
    ghost var found := Visible(dir.v, ConfigToml);
    var m := V1Migration(fmt);
    var loaded := LoadWithMigration(dir, fmt, m, backupId, tempId, readable, forBackup, forReplace);
    OpenedRight(fmt, found, readable, loaded);
    if loaded.Err? { return Err(loaded.error); }
    var persisted := if loaded.value.Some? then loaded.value.value else Persisted([], DEFAULT_SETTINGS);
    var file := FileOf(fmt, Visible(dir.v, ConfigToml));
    if DirectAnswer(fmt, m, found).Some? {
      DirectRepresents(fmt, m, found);
    } else {
      MigratedRepresents(fmt, m, found.value);
    }
    var s := Opened(file, persisted);
    StartIsReached(file);
    ReachedIsReachable(file, [], s);
    return Ok(s);
  }

  lemma OpenedRight(fmt: Format, found: Option<string>, readable: bool, loaded: Result<Option<Persisted>, StoreError>)
    requires LoadsRight(fmt, V1Migration(fmt), found, readable, loaded)
    ensures loaded.Ok? && (loaded.value.Some? ==> loaded.value.value.rules == []) ==> HoldsNoRules(fmt, found)
    ensures readable && found.Some? && fmt.header(found.value).Some? && fmt.header(found.value).value !in {1, 2} ==>
      && loaded == Err(UnsupportedSchema(fmt.header(found.value).value))
      && DirectAnswer(fmt, V1Migration(fmt), found).Some?
  {
    hide IntoDomain, MigrateV1;
    if loaded.Ok? && loaded.value.Some? { EmptyMeansNoRules(fmt, found, readable, loaded.value.value); }
  }

  lemma DirectRepresents(fmt: Format, m: Migration, found: Option<string>)
    requires DirectAnswer(fmt, m, found).Some? && DirectAnswer(fmt, m, found).value.Ok?
    ensures var file := FileOf(fmt, found);
      && Represents(fmt, found, file)
      && Desired.DecodedFile(file) ==
         (match DirectAnswer(fmt, m, found).value.value
          case Some(p) => Ok(p)
          case None => Ok(Persisted([], DEFAULT_SETTINGS)))
  {
  }

  // ----- the run

  // A step, with the name and the outcomes of the operations its save uses if it saves.
  datatype Planned = Planned(step: Step, tempId: nat, readable: bool, outcomes: Outcomes)

  // Memory and config.toml agree: decoding the visible text gives the rules and settings in memory.
  ghost predicate Agrees(fmt: Format, text: Option<string>, st: State) {
    if text.Some? then DecodeText(fmt, text.value) == Ok(Persisted(st.rules, st.settings))
    else st.rules == [] && st.settings == DEFAULT_SETTINGS
  }

  lemma ReachableAgrees(fmt: Format, text: Option<string>, s: Sys)
    requires Lifecycle.Reachable(s) && Represents(fmt, text, s.st.file)
    ensures Agrees(fmt, text, s.st)
    ensures s.st.file.Some? ==> IntoDomain(s.st.file.value).Ok?
  {
    Lifecycle.MemoryIsTheFile(s);
    hide Lifecycle.Reachable, IntoDomain;
    if s.st.file.Some? { ReadableConfig(fmt, text, s.st.file); }
  }

  lemma OneMoreStep(file: Option<ConfigV2>, steps: seq<Step>, s: Sys, step: Step)
    requires Lifecycle.Reaches(file, steps, s) && Apply(s, step).Some?
    ensures Lifecycle.Reaches(file, steps + [step], Apply(s, step).value)
  {
    RunExtends(Opened(file, Desired.DecodedFile(file).value), steps, s, step);
  }

  lemma {:induction false} RunExtends(start: Sys, steps: seq<Step>, s: Sys, step: Step)
    requires Run(start, steps) == Some(s) && Apply(s, step).Some?
    ensures Run(start, steps + [step]) == Apply(s, step)
    decreases steps
  {
    hide Apply;
    if steps == [] {
      assert steps + [step] == [step] && [step][1..] == [];
    } else {
      assert (steps + [step])[1..] == steps[1..] + [step];
      RunExtends(Apply(start, steps[0]).value, steps[1..], s, step);
    }
  }

  lemma ReachedIsReachable(file: Option<ConfigV2>, steps: seq<Step>, s: Sys)
    requires Lifecycle.Reaches(file, steps, s)
    ensures Lifecycle.Reachable(s)
  {
  }

  /**
   * Every run of the manager on a real directory: each step that saves does so through the store, with any
   * failures, and goes on with the store's result. The run is one of the protocol's, and at its end, hence
   * after every step, config.toml as a reader finds it decodes to exactly the rules and settings in memory.
   */
  method RunOnDisk(dir: Directory, fmt: Format, file: Option<ConfigV2>, plan: seq<Planned>) returns (s: Sys)
    requires dir.Valid() && Lawful(fmt)
    requires Represents(fmt, Visible(dir.v, ConfigToml), file) && Desired.DecodedFile(file).Ok?
    modifies dir
    ensures dir.Valid() && Lifecycle.Reachable(s)
    ensures Represents(fmt, Visible(dir.v, ConfigToml), s.st.file)
    ensures Agrees(fmt, Visible(dir.v, ConfigToml), s.st)
  {
    hide Lifecycle.Reachable, Lifecycle.Reaches, Apply, Tries, WithFault, Represents, IntoDomain, FromDomain, Agrees,
      Lawful, Sections.SaveConfig, WellFormed;
    s := Opened(file, Desired.DecodedFile(file).value);
    ghost var steps: seq<Step> := [];
    StartIsReached(file);
    for i := 0 to |plan|
      invariant dir.Valid() && Lifecycle.Reaches(file, steps, s)
      invariant Represents(fmt, Visible(dir.v, ConfigToml), s.st.file)
    {
      var p := plan[i];
      if Apply(s, p.step).None? { continue; }
      ReachedIsReachable(file, steps, s);
      ReachableAgrees(fmt, Visible(dir.v, ConfigToml), s);
      var fault := NoFault;
      var tried := Tries(s, p.step);
      if tried.Some? {
        var r := SaveSection(dir, fmt, tried.value, s.st.file, p.tempId, p.readable, p.outcomes);
        fault := FaultOf(r);
      }
      EnabledAlike(s, p.step, fault);
      StepWritesWhatItTries(s, p.step, fault);
      OneMoreStep(file, steps, s, WithFault(p.step, fault));
      steps := steps + [WithFault(p.step, fault)];
      s := Apply(s, WithFault(p.step, fault)).value;
    }
    ReachedIsReachable(file, steps, s);
    ReachableAgrees(fmt, Visible(dir.v, ConfigToml), s);
  }

  lemma StartIsReached(file: Option<ConfigV2>)
    requires Desired.DecodedFile(file).Ok?
    ensures Lifecycle.Reaches(file, [], Opened(file, Desired.DecodedFile(file).value))
  {
  }

  lemma EnabledAlike(s: Sys, step: Step, fault: SaveFault)
    requires Apply(s, step).Some?
    ensures Apply(s, WithFault(step, fault)).Some?
  {
    hide Add, Import, Remove, UpdateSettings, EditSave;
  }
}
