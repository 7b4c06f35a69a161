/**
 * The critical sections of the daemon manager: what each does to the mutex-held state, as a function
 * of the state it finds. Results of processes, ports, saves and clocks are arguments.
 */
module Sections {
  import opened Wrappers
  import opened Rules
  import opened Conversion
  import opened Reconnect

  type Marker = nat
  type Token = nat

  // A launched process attempt: its own id, the start that launched it, and the rule it was launched from.
  datatype Managed = Managed(token: Token, marker: Marker, rule: Rule)

  datatype Attempt =
    | Starting(marker: Marker)
    | Active(managed: Managed)
    | Reconnecting(due: nat)
    | Failed

  datatype DiagnosticKind = Authentication | HostKey | RemoteRejected | ListenerRefused | Network | Unknown

  predicate Retryable(kind: DiagnosticKind) { kind == Network }

  const U32_MAX: nat := 0xFFFF_FFFF
  type u32 = n: nat | n <= U32_MAX

  datatype RuntimeInfo = RuntimeInfo(
    activeSince: Option<nat>, reconnectCount: u32, retryAttempt: u32, lastError: Option<DiagnosticKind>)

  const NO_INFO := RuntimeInfo(None, 0, 0, None)

  datatype State = State(
    rules: seq<Rule>, settings: Settings, file: Option<ConfigV2>,
    running: map<RuleId, Attempt>, diagnostics: map<RuleId, RuntimeInfo>,
    manuallyStopped: set<RuleId>, editing: set<RuleId>)

  // The cause of an internal error is what its message reports.
  datatype ErrorCode = InvalidRequest | NotFound | Conflict | Unavailable | Internal(cause: StoreError)

  datatype Selector = ById(id: RuleId) | ByName(name: string)

  function FindName(rules: seq<Rule>, name: string): Option<Rule> {
    if rules == [] then None
    else if rules[0].name == name then Some(rules[0])
    else FindName(rules[1..], name)
  }

  // A selector by id is not checked against the rules here.
  function Resolve(st: State, sel: Selector): Result<RuleId, ErrorCode> {
    match sel
    case ById(id) => Ok(id)
    case ByName(name) =>
      match FindName(st.rules, name)
      case Some(rule) => Ok(rule.id)
      case None => Err(NotFound)
  }

  // ----- saving

  datatype SaveFault = NoFault | FailsBeforeRename | DirectorySyncFails

  function SaveConfig(file: Option<ConfigV2>, p: Persisted, fault: SaveFault)
    : (Option<ConfigV2>, Result<(), StoreError>)
  {
    match FromDomain(p)
    case Err(e) => (file, Err(e))
    case Ok(config) =>
      if file.Some? && IntoDomain(file.value).Err? then (file, Err(IntoDomain(file.value).error))
      else
        match fault
        case NoFault => (Some(config), Ok(()))
        case FailsBeforeRename => (file, Err(Io))
        case DirectorySyncFails => (Some(config), Err(DurabilityUncertain))
  }

  // Uncertain durability counts as committed.
  predicate Committed(saved: Result<(), StoreError>) {
    saved.Ok? || saved.error.DurabilityUncertain?
  }

  function SaveState(st: State, p: Persisted, fault: SaveFault): (State, Result<(), StoreError>) {
    var (file, saved) := SaveConfig(st.file, p, fault);
    (if Committed(saved) then st.(rules := p.rules, settings := p.settings, file := file)
     else st.(file := file), saved)
  }

  // ----- configuration requests

  function ReplaceRule(rules: seq<Rule>, rule: Rule): seq<Rule> {
    if rules == [] then []
    else if rules[0].id == rule.id then [rule] + rules[1..]
    else [rules[0]] + ReplaceRule(rules[1..], rule)
  }

  function WithoutRule(rules: seq<Rule>, id: RuleId): seq<Rule> {
    if rules == [] then []
    else (if rules[0].id == id then [] else [rules[0]]) + WithoutRule(rules[1..], id)
  }

  function Upsert(rules: seq<Rule>, rule: Rule): seq<Rule> {
    if FindRule(rules, rule.id).Some? then ReplaceRule(rules, rule) else rules + [rule]
  }

  function Ids(rules: seq<Rule>): set<RuleId> { set r | r in rules :: r.id }

  predicate FreshIds(rules: seq<Rule>, seen: set<RuleId>) {
    rules == [] || (rules[0].id !in seen && FreshIds(rules[1..], seen + {rules[0].id}))
  }

  function Reply<T>(saved: Result<(), StoreError>, value: T): Result<T, ErrorCode> {
    if saved.Ok? then Ok(value) else Err(Internal(saved.error))
  }

  function Add(st: State, wire: WireRule, fault: SaveFault): (State, Result<RuleId, ErrorCode>) {
    match ToDomain(wire)
    case Err(_) => (st, Err(InvalidRequest))
    case Ok(rule) =>
      if rule.id in st.editing then (st, Err(Conflict))
      else if FindRule(st.rules, rule.id).Some? && rule.id in st.running then (st, Err(Conflict))
      else
        var next := Upsert(st.rules, rule);
        if !ValidRuleSet(next) then (st, Err(Conflict))
        else
          var (st', saved) := SaveState(st, Persisted(next, st.settings), fault);
          (st', Reply(saved, rule.id))
  }

  function Import(st: State, wires: seq<WireRule>, fault: SaveFault): (State, Result<seq<RuleId>, ErrorCode>) {
    if wires == [] then (st, Err(InvalidRequest))
    else
      match AllToDomain(wires)
      case Err(_) => (st, Err(InvalidRequest))
      case Ok(imported) =>
        if !FreshIds(imported, Ids(st.rules)) then (st, Err(Conflict))
        else
          var next := st.rules + imported;
          if !ValidRuleSet(next) then (st, Err(Conflict))
          else
            var (st', saved) := SaveState(st, Persisted(next, st.settings), fault);
            (st', Reply(saved, seq(|imported|, i requires 0 <= i < |imported| => imported[i].id)))
  }

  function Remove(st: State, sel: Selector, fault: SaveFault): (State, Result<RuleId, ErrorCode>) {
    match Resolve(st, sel)
    case Err(e) => (st, Err(e))
    case Ok(id) =>
      if id in st.editing || id in st.running then (st, Err(Conflict))
      else
        var next := WithoutRule(st.rules, id);
        if |next| == |st.rules| then (st, Err(NotFound))
        else
          var (st', saved) := SaveState(st, Persisted(next, st.settings), fault);
          (st', Reply(saved, id))
  }

  function UpdateSettings(st: State, settings: Settings, fault: SaveFault): (State, Result<Settings, ErrorCode>) {
    var (st', saved) := SaveState(st, Persisted(st.rules, settings), fault);
    (st', Reply(saved, settings))
  }

  // ----- starting

  datatype StartMode = Explicit | Automatic | ForEdit
  datatype PortCheck = PortFree | PortInUse | PortUncheckable

  datatype StartOutcome =
    | Refused(code: ErrorCode)
    | NoChange(id: RuleId, startRequested: bool)
    | Launch(id: RuleId, rule: Rule)

  // Before the rule is looked up: the selector, the edit reservation and the veto.
  function StartGate(st: State, sel: Selector, mode: StartMode): Result<RuleId, StartOutcome> {
    match Resolve(st, sel)
    case Err(e) => Err(Refused(e))
    case Ok(id) =>
      if id in st.editing && mode != ForEdit then Err(Refused(Conflict))
      else if mode == Automatic && id in st.manuallyStopped then Err(NoChange(id, false))
      else Ok(id)
  }

  function StartBegin(st: State, sel: Selector, mode: StartMode, marker: Marker, port: PortCheck)
    : (State, StartOutcome)
  {
    match StartGate(st, sel, mode)
    case Err(outcome) => (st, outcome)
    case Ok(id) =>
      var st1 := if mode == Explicit then st.(manuallyStopped := st.manuallyStopped - {id}) else st;
      match FindRule(st.rules, id)
      case None => (st1, Refused(NotFound))
      case Some(rule) =>
        var cleared := if id in st.running && st.running[id] == Failed then st.running - {id} else st.running;
        var st2 := st1.(running := cleared);
        if id in cleared then (st2, NoChange(id, true))
        else if LocalListener(rule).Some? && port == PortInUse then (st2, Refused(Conflict))
        else if LocalListener(rule).Some? && port == PortUncheckable then (st2, Refused(Unavailable))
        else (st2.(running := cleared[id := Starting(marker)]), Launch(id, rule))
  }

  predicate HoldsMarker(st: State, id: RuleId, marker: Marker) {
    id in st.running && st.running[id] == Starting(marker)
  }

  function InfoOf(st: State, id: RuleId): RuntimeInfo {
    if id in st.diagnostics then st.diagnostics[id] else NO_INFO
  }

  function StartCommit(st: State, id: RuleId, mode: StartMode, managed: Managed, now: nat): (State, bool) {
    if !HoldsMarker(st, id, managed.marker) then (st, false)
    else
      var info := InfoOf(st, id).(activeSince := Some(now), lastError := None);
      (st.(running := st.running[id := Active(managed)],
           manuallyStopped := if mode == ForEdit then st.manuallyStopped - {id} else st.manuallyStopped,
           diagnostics := st.diagnostics[id := info]), true)
  }

  // The random part of an id, used as entropy.
  function Entropy(id: nat): nat { id % 0x1_0000_0000_0000_0000 }

  function SaturatingIncrement(n: u32): u32 { if n < U32_MAX then n + 1 else n }

  function CountRetry(info: RuntimeInfo): RuntimeInfo {
    info.(retryAttempt := SaturatingIncrement(info.retryAttempt),
          reconnectCount := SaturatingIncrement(info.reconnectCount))
  }

  function StartFail(st: State, id: RuleId, rule: Rule, mode: StartMode, marker: Marker, kind: DiagnosticKind, now: nat)
    : (State, bool)
  {
    if !HoldsMarker(st, id, marker) then (st, false)
    else
      var info := InfoOf(st, id).(activeSince := None, lastError := Some(kind));
      if rule.reconnect && Retryable(kind) && mode != ForEdit then
        var due := now + FullJitter(info.retryAttempt, Entropy(marker));
        (st.(running := st.running[id := Reconnecting(due)],
             diagnostics := st.diagnostics[id := CountRetry(info)]), true)
      else if mode == ForEdit then
        (st.(running := st.running - {id}, diagnostics := st.diagnostics[id := info]), true)
      else
        (st.(running := st.running[id := Failed], diagnostics := st.diagnostics[id := info]), true)
  }

  // ----- stopping

  function Stop(st: State, sel: Selector): (State, Result<(RuleId, Option<Attempt>), ErrorCode>) {
    match Resolve(st, sel)
    case Err(e) => (st, Err(e))
    case Ok(id) =>
      if id in st.editing then (st, Err(Conflict))
      else if FindRule(st.rules, id).None? then (st, Err(NotFound))
      else
        (st.(manuallyStopped := st.manuallyStopped + {id},
             diagnostics := st.diagnostics - {id},
             running := st.running - {id}),
         Ok((id, if id in st.running then Some(st.running[id]) else None)))
  }

  // ----- editing an active rule

  // The rule the client expected to find, and the one that replaces it.
  datatype EditJob = EditJob(expected: Rule, replacement: Rule)

  function EditRequest(expected: WireRule, replacement: WireRule): Result<EditJob, ErrorCode> {
    match ToDomain(expected)
    case Err(_) => Err(InvalidRequest)
    case Ok(before) =>
      match ToDomain(replacement)
      case Err(_) => Err(InvalidRequest)
      case Ok(after) => if after.id != before.id then Err(InvalidRequest) else Ok(EditJob(before, after))
  }

  function EditBegin(st: State, job: EditJob): (State, Result<Managed, ErrorCode>) {
    var id := job.expected.id;
    match FindRule(st.rules, id)
    case None => (st, Err(NotFound))
    case Some(current) =>
      if current != job.expected || id in st.editing then (st, Err(Conflict))
      else if !(id in st.running && st.running[id].Active?) then (st, Err(Conflict))
      else if !ValidRuleSet(ReplaceRule(st.rules, job.replacement)) then (st, Err(Conflict))
      else
        (st.(editing := st.editing + {id},
             manuallyStopped := st.manuallyStopped + {id},
             diagnostics := st.diagnostics - {id},
             running := st.running - {id}),
         Ok(st.running[id].managed))
  }

  function EditMarkFailed(st: State, id: RuleId): State {
    st.(running := st.running[id := Failed],
        diagnostics := st.diagnostics[id := InfoOf(st, id).(lastError := Some(Unknown))])
  }

  // None: the reserved rule is gone.
  function EditSave(st: State, job: EditJob, fault: SaveFault): (State, Option<Result<(), StoreError>>) {
    if FindRule(st.rules, job.expected.id).None? then (st, None)
    else
      var next := ReplaceRule(st.rules, job.replacement);
      var errors := RuleSetErrors(next);
      if errors != [] then (st, Some(Err(InvalidRules(errors))))
      else
        var (st', saved) := SaveState(st, Persisted(next, st.settings), fault);
        (st', Some(saved))
  }

  function EditFinish(st: State, id: RuleId): State { st.(editing := st.editing - {id}) }

  // ----- maintenance: notice ended processes, release due retries

  predicate IsDue(a: Attempt, now: nat) { a.Reconnecting? && a.due <= now }

  predicate Ended(st: State, id: RuleId, gone: set<RuleId>) {
    id in st.running && st.running[id].Active? && id in gone
  }

  predicate ReconnectEnabled(st: State, id: RuleId) {
    var rule := FindRule(st.rules, id);
    rule.Some? && rule.value.reconnect
  }

  function EndedEntry(st: State, id: RuleId, now: nat): Attempt
    requires id in st.running && st.running[id].Active?
  {
    if ReconnectEnabled(st, id)
    then Reconnecting(now + FullJitter(InfoOf(st, id).retryAttempt, Entropy(st.running[id].managed.token)))
    else Failed
  }

  function EndedInfo(st: State, id: RuleId): RuntimeInfo {
    var info := InfoOf(st, id).(activeSince := None, lastError := Some(Unknown));
    if ReconnectEnabled(st, id) then CountRetry(info) else info
  }

  function StableInfo(info: RuntimeInfo, now: nat): RuntimeInfo {
    if info.activeSince.Some? && now >= info.activeSince.value + RESET_AFTER
    then info.(retryAttempt := 0) else info
  }

  function MaintainedInfo(st: State, id: RuleId, gone: set<RuleId>, now: nat): RuntimeInfo {
    if Ended(st, id, gone) then EndedInfo(st, id)
    else if id in st.running && st.running[id].Active? then StableInfo(InfoOf(st, id), now)
    else InfoOf(st, id)
  }

  function EndedIds(st: State, gone: set<RuleId>): set<RuleId> {
    set id | id in st.running && Ended(st, id, gone)
  }

  function DueIds(st: State, now: nat): set<RuleId> {
    set id | id in st.running && IsDue(st.running[id], now)
  }

  // `gone` holds the rules whose process is observed to have ended.
  function Maintain(st: State, gone: set<RuleId>, now: nat): State {
    st.(running := map id | id in st.running && !IsDue(st.running[id], now) ::
          if Ended(st, id, gone) then EndedEntry(st, id, now) else st.running[id],
        diagnostics := map id | id in st.diagnostics.Keys + EndedIds(st, gone) ::
          MaintainedInfo(st, id, gone, now))
  }
}
