/**
 * The manager's mutex-held state as an object, and each critical section as the update in place that
 * runs while the lock is held. Every method is proved to be the section function of the same name.
 */
module Manager {
  import opened Wrappers
  import opened Rules
  import opened Conversion
  import opened Reconnect
  import opened Sections
  import opened Slots

  class LockedState {
    var rules: seq<Rule>
    var settings: Settings
    var file: Option<ConfigV2>
    var running: map<RuleId, Attempt>
    var diagnostics: map<RuleId, RuntimeInfo>
    var manuallyStopped: set<RuleId>
    var editing: set<RuleId>

    ghost function View(): State
      reads this
    {
      State(rules, settings, file, running, diagnostics, manuallyStopped, editing)
    }

    constructor (found: Option<ConfigV2>, persisted: Persisted)
      ensures View() == State(persisted.rules, persisted.settings, found, map[], map[], {}, {})
    {
      rules, settings, file := persisted.rules, persisted.settings, found;
      running, diagnostics, manuallyStopped, editing := map[], map[], {}, {};
    }

    method Save(next: Persisted, fault: SaveFault) returns (saved: Result<(), StoreError>)
      modifies this`file
      ensures (file, saved) == SaveConfig(old(file), next, fault)
    {
      var r := SaveConfig(file, next, fault);
      file := r.0;
      saved := r.1;
    }

    // ----- configuration requests

    method Add(wire: WireRule, fault: SaveFault) returns (reply: Result<RuleId, ErrorCode>)
      modifies this
      ensures (View(), reply) == Sections.Add(old(View()), wire, fault)
    {
      hide ToDomain, AllToDomain, RuleSetErrors, SaveConfig, ReplaceRule, FindRule, FreshIds, WithoutRule;
      var parsed := ToDomain(wire);
      if parsed.Err? { return Err(InvalidRequest); }
      var rule := parsed.value;
      if rule.id in editing { return Err(Conflict); }
      var next, found := Overwrite(rules, rule);
      if found {
        if rule.id in running { return Err(Conflict); }
      } else {
        next := next + [rule];
      }
      var errors := ValidateRuleSet(next);
      if errors != [] { return Err(Conflict); }
      var saved := Save(Persisted(next, settings), fault);
      if !Committed(saved) { return Err(Internal(saved.error)); }
      rules := next;
      reply := Reply(saved, rule.id);
    }

    method Import(wires: seq<WireRule>, fault: SaveFault) returns (reply: Result<seq<RuleId>, ErrorCode>)
      modifies this
      ensures (View(), reply) == Sections.Import(old(View()), wires, fault)
    {
      hide ToDomain, AllToDomain, RuleSetErrors, SaveConfig, ReplaceRule, FindRule, FreshIds, WithoutRule;
      if wires == [] { return Err(InvalidRequest); }
      var parsed := AllToDomain(wires);
      if parsed.Err? { return Err(InvalidRequest); }
      var imported := parsed.value;
      var unseen := AllFresh(imported, Ids(rules));
      if !unseen { return Err(Conflict); }
      var next := rules + imported;
      var errors := ValidateRuleSet(next);
      if errors != [] { return Err(Conflict); }
      var saved := Save(Persisted(next, settings), fault);
      if !Committed(saved) { return Err(Internal(saved.error)); }
      rules := next;
      reply := Reply(saved, seq(|imported|, i requires 0 <= i < |imported| => imported[i].id));
    }

    method Remove(sel: Selector, fault: SaveFault) returns (reply: Result<RuleId, ErrorCode>)
      modifies this
      ensures (View(), reply) == Sections.Remove(old(View()), sel, fault)
    {
      hide ToDomain, AllToDomain, RuleSetErrors, SaveConfig, ReplaceRule, FindRule, FreshIds, WithoutRule;
      var resolved := ResolveId(sel);
      if resolved.Err? { return Err(resolved.error); }
      var id := resolved.value;
      if id in editing || id in running { return Err(Conflict); }
      var before := |rules|;
      var next := WithoutRule(rules, id);
      if |next| == before { return Err(NotFound); }
      var saved := Save(Persisted(next, settings), fault);
      if !Committed(saved) { return Err(Internal(saved.error)); }
      rules := next;
      reply := Reply(saved, id);
    }

    method UpdateSettings(wanted: Settings, fault: SaveFault) returns (reply: Result<Settings, ErrorCode>)
      modifies this
      ensures (View(), reply) == Sections.UpdateSettings(old(View()), wanted, fault)
    {
      var saved := Save(Persisted(rules, wanted), fault);
      if !Committed(saved) { return Err(Internal(saved.error)); }
      settings := wanted;
      reply := Reply(saved, settings);
    }

    method ResolveId(sel: Selector) returns (id: Result<RuleId, ErrorCode>)
      ensures id == Resolve(View(), sel)
    {
      match sel {
        case ById(wanted) => return Ok(wanted);
        case ByName(name) =>
          var i := 0;
          while i < |rules|
            invariant i <= |rules|
            invariant FindName(rules, name) == FindName(rules[i..], name)
          {
            if rules[i].name == name { return Ok(rules[i].id); }
            i := i + 1;
          }
          return Err(NotFound);
      }
    }

    // ----- starting

    method StartBegin(sel: Selector, mode: StartMode, marker: Marker, port: PortCheck) returns (outcome: StartOutcome)
      modifies this`running, this`manuallyStopped
      ensures (View(), outcome) == Sections.StartBegin(old(View()), sel, mode, marker, port)
    {
      var resolved := ResolveId(sel);
      if resolved.Err? { return Refused(resolved.error); }
      var id := resolved.value;
      if id in editing && mode != ForEdit { return Refused(Conflict); }
      if mode == Automatic && id in manuallyStopped { return NoChange(id, false); }
      if mode == Explicit { manuallyStopped := manuallyStopped - {id}; }
      var found := FindRule(rules, id);
      if found.None? { return Refused(NotFound); }
      var rule := found.value;
      if id in running && running[id] == Failed { running := running - {id}; }
      if id in running { return NoChange(id, true); }
      if LocalListener(rule).Some? {
        if port == PortInUse { return Refused(Conflict); }
        if port == PortUncheckable { return Refused(Unavailable); }
      }
      running := running[id := Starting(marker)];
      outcome := Launch(id, rule);
    }

    method StartCommit(id: RuleId, mode: StartMode, managed: Managed, now: nat) returns (done: bool)
      modifies this`running, this`manuallyStopped, this`diagnostics
      ensures (View(), done) == Sections.StartCommit(old(View()), id, mode, managed, now)
    {
      if !(id in running && running[id] == Starting(managed.marker)) { return false; }
      running := running[id := Active(managed)];
      if mode == ForEdit { manuallyStopped := manuallyStopped - {id}; }
      var info := if id in diagnostics then diagnostics[id] else NO_INFO;
      info := info.(activeSince := Some(now));
      info := info.(lastError := None);
      diagnostics := diagnostics[id := info];
      done := true;
    }

    method StartFail(id: RuleId, rule: Rule, mode: StartMode, marker: Marker, kind: DiagnosticKind, now: nat)
      returns (recorded: bool)
      modifies this`running, this`diagnostics
      ensures (View(), recorded) == Sections.StartFail(old(View()), id, rule, mode, marker, kind, now)
    {
      recorded := false;
      if id in running && running[id] == Starting(marker) {
        recorded := true;
        var reconnectEnabled := rule.reconnect && Retryable(kind) && mode != ForEdit;
        var info := if id in diagnostics then diagnostics[id] else NO_INFO;
        info := info.(activeSince := None);
        info := info.(lastError := Some(kind));
        if reconnectEnabled {
          var delay := FullJitter(info.retryAttempt, Entropy(marker));
          info := info.(retryAttempt := SaturatingIncrement(info.retryAttempt));
          info := info.(reconnectCount := SaturatingIncrement(info.reconnectCount));
          running := running[id := Reconnecting(now + delay)];
        } else if mode == ForEdit {
          running := running - {id};
        } else {
          running := running[id := Failed];
        }
        diagnostics := diagnostics[id := info];
      }
    }

    // ----- stopping

    method Stop(sel: Selector) returns (reply: Result<(RuleId, Option<Attempt>), ErrorCode>)
      modifies this`running, this`manuallyStopped, this`diagnostics
      ensures (View(), reply) == Sections.Stop(old(View()), sel)
    {
      var resolved := ResolveId(sel);
      if resolved.Err? { return Err(resolved.error); }
      var id := resolved.value;
      if id in editing { return Err(Conflict); }
      if FindRule(rules, id).None? { return Err(NotFound); }
      manuallyStopped := manuallyStopped + {id};
      diagnostics := diagnostics - {id};
      var removed := if id in running then Some(running[id]) else None;
      running := running - {id};
      reply := Ok((id, removed));
    }

    // ----- editing an active rule

    method EditBegin(job: EditJob) returns (reply: Result<Managed, ErrorCode>)
      requires job.replacement.id == job.expected.id
      modifies this`running, this`manuallyStopped, this`diagnostics, this`editing
      ensures (View(), reply) == Sections.EditBegin(old(View()), job)
    {
      hide RuleSetErrors, SaveConfig, ReplaceRule, FindRule;
      var id := job.expected.id;
      var current := FindRule(rules, id);
      if current.None? { return Err(NotFound); }
      if current.value != job.expected || id in editing { return Err(Conflict); }
      if !(id in running && running[id].Active?) { return Err(Conflict); }
      var next, found := Overwrite(rules, job.replacement);
      if !found { return Err(NotFound); }
      var errors := ValidateRuleSet(next);
      if errors != [] { return Err(Conflict); }
      editing := editing + {id};
      manuallyStopped := manuallyStopped + {id};
      diagnostics := diagnostics - {id};
      reply := Ok(running[id].managed);
      running := running - {id};
    }

    method EditMarkFailed(id: RuleId)
      modifies this`running, this`diagnostics
      ensures View() == Sections.EditMarkFailed(old(View()), id)
    {
      running := running[id := Failed];
      var info := if id in diagnostics then diagnostics[id] else NO_INFO;
      diagnostics := diagnostics[id := info.(lastError := Some(Unknown))];
    }

    method EditSave(job: EditJob, fault: SaveFault) returns (reply: Option<Result<(), StoreError>>)
      requires job.replacement.id == job.expected.id
      modifies this`rules, this`file
      ensures (View(), reply) == Sections.EditSave(old(View()), job, fault)
    {
      hide RuleSetErrors, SaveConfig, ReplaceRule, FindRule;
      var next, found := Overwrite(rules, job.replacement);
      if !found { return None; }
      var errors := ValidateRuleSet(next);
      if errors != [] { return Some(Err(InvalidRules(errors))); }
      var saved := Save(Persisted(next, settings), fault);
      if Committed(saved) { rules := next; }
      reply := Some(saved);
    }

    method EditFinish(id: RuleId)
      modifies this`editing
      ensures View() == Sections.EditFinish(old(View()), id)
    {
      editing := editing - {id};
    }

    // ----- maintenance

    // The entries of `running` in the order the hash map yields them: any order.
    method Classify(gone: set<RuleId>, now: nat)
      returns (exited: seq<RuleId>, reset: seq<RuleId>, retry: seq<RuleId>)
      ensures Distinct(exited)
      ensures forall id :: id in exited <==> Ended(View(), id, gone)
      ensures forall id :: id in reset <==> id in running && running[id].Active? && id !in gone
      ensures forall id :: id in retry <==> id in running && IsDue(running[id], now)
    {
      exited, reset, retry := [], [], [];
      var todo := running.Keys;
      while todo != {}
        invariant todo <= running.Keys
        invariant Distinct(exited)
        invariant forall id :: id in exited <==> id !in todo && Ended(View(), id, gone)
        invariant forall id :: id in reset <==> id !in todo && id in running && running[id].Active? && id !in gone
        invariant forall id :: id in retry <==> id !in todo && id in running && IsDue(running[id], now)
        decreases |todo|
      {
        var id :| id in todo;
        todo := todo - {id};
        match running[id] {
          case Active(_) => if id in gone { exited := exited + [id]; } else { reset := reset + [id]; }
          case Reconnecting(due) => if due <= now { retry := retry + [id]; }
          case _ =>
        }
      }
    }

    method ResetStable(reset: seq<RuleId>, now: nat)
      modifies this`diagnostics
      ensures diagnostics.Keys == old(diagnostics.Keys)
      ensures forall id :: id in diagnostics ==>
        diagnostics[id] == if id in reset then StableInfo(old(diagnostics)[id], now) else old(diagnostics)[id]
    {
      for k := 0 to |reset|
        invariant diagnostics.Keys == old(diagnostics.Keys)
        invariant forall id :: id in diagnostics ==>
          diagnostics[id] == if id in reset[..k] then StableInfo(old(diagnostics)[id], now) else old(diagnostics)[id]
      {
        var id := reset[k];
        assert forall j :: j in reset[..k + 1] <==> j in reset[..k] || j == id;
        if id in diagnostics {
          var info := diagnostics[id];
          if info.activeSince.Some? && now >= info.activeSince.value + RESET_AFTER {
            diagnostics := diagnostics[id := info.(retryAttempt := 0)];
          }
        }
      }
    }

    method RecordExit(id: RuleId, now: nat)
      requires id in running && running[id].Active?
      modifies this`running, this`diagnostics
      ensures running == old(running)[id := EndedEntry(old(View()), id, now)]
      ensures diagnostics == old(diagnostics)[id := EndedInfo(old(View()), id)]
    {
      hide FullJitter, Entropy, SaturatingIncrement;
      var rule := FindRule(rules, id);
      var reconnectEnabled := rule.Some? && rule.value.reconnect;
      var info := if id in diagnostics then diagnostics[id] else NO_INFO;
      info := info.(activeSince := None);
      info := info.(lastError := Some(Unknown));
      if reconnectEnabled {
        var delay := FullJitter(info.retryAttempt, Entropy(running[id].managed.token));
        info := info.(retryAttempt := SaturatingIncrement(info.retryAttempt));
        info := info.(reconnectCount := SaturatingIncrement(info.reconnectCount));
        running := running[id := Reconnecting(now + delay)];
      } else {
        running := running[id := Failed];
      }
      diagnostics := diagnostics[id := info];
    }

    method RecordExits(exited: seq<RuleId>, now: nat)
      requires Distinct(exited) && forall id :: id in exited ==> id in running && running[id].Active?
      modifies this`running, this`diagnostics
      ensures running.Keys == old(running.Keys)
      ensures forall id :: id in running ==>
        running[id] == if id in exited then EndedEntry(old(View()), id, now) else old(running)[id]
      ensures forall id :: id in diagnostics <==> id in old(diagnostics) || id in exited
      ensures forall id :: id in diagnostics ==>
        diagnostics[id] == if id in exited then EndedInfo(old(View()), id) else old(diagnostics)[id]
    {
      hide EndedEntry, EndedInfo, Distinct;
      for k := 0 to |exited|
        invariant running.Keys == old(running.Keys)
        invariant forall id :: id in running ==>
          running[id] == if id in exited[..k] then EndedEntry(old(View()), id, now) else old(running)[id]
        invariant forall id :: id in diagnostics <==> id in old(diagnostics) || id in exited[..k]
        invariant forall id :: id in diagnostics ==>
          diagnostics[id] == if id in exited[..k] then EndedInfo(old(View()), id) else old(diagnostics)[id]
      {
        var id := exited[k];
        NotYet(exited, k);
        SameEnd(old(View()), View(), id, now);
        RecordExit(id, now);
      }
    }

    method RemoveDue(retry: seq<RuleId>)
      modifies this`running
      ensures forall id :: id in running <==> id in old(running) && id !in retry
      ensures forall id :: id in running ==> running[id] == old(running)[id]
    {
      for k := 0 to |retry|
        invariant forall id :: id in running <==> id in old(running) && id !in retry[..k]
        invariant forall id :: id in running ==> running[id] == old(running)[id]
      {
        assert forall j :: j in retry[..k + 1] <==> j in retry[..k] || j == retry[k];
        running := running - {retry[k]};
      }
    }

    method Maintain(gone: set<RuleId>, now: nat) returns (retry: seq<RuleId>)
      modifies this`running, this`diagnostics
      ensures View() == Sections.Maintain(old(View()), gone, now)
      ensures forall id :: id in retry <==> id in DueIds(old(View()), now)
    {
      hide EndedEntry, EndedInfo, StableInfo;
      var exited, reset;
      exited, reset, retry := Classify(gone, now);
      ResetStable(reset, now);
      ghost var resetView := View();
      forall id | id in exited
        ensures EndedInfo(resetView, id) == EndedInfo(old(View()), id)
        ensures EndedEntry(resetView, id, now) == EndedEntry(old(View()), id, now)
      {
        SameEnd(old(View()), resetView, id, now);
      }
      RecordExits(exited, now);
      RemoveDue(retry);
      MaintainedView(old(View()), gone, now, View(), exited, reset, retry);
    }
  }

  lemma NotYet(ids: seq<RuleId>, k: nat)
    requires Distinct(ids) && k < |ids|
    ensures ids[k] !in ids[..k]
    ensures forall id :: id in ids[..k + 1] <==> id in ids[..k] || id == ids[k]
  {
  }

  lemma SameEnd(st: State, st': State, id: RuleId, now: nat)
    requires st'.rules == st.rules && InfoOf(st', id) == InfoOf(st, id)
    requires id in st.running && st.running[id].Active? && id in st'.running && st'.running[id] == st.running[id]
    ensures EndedInfo(st', id) == EndedInfo(st, id)
    ensures EndedEntry(st', id, now) == EndedEntry(st, id, now)
  {
  }

  /** The four loops together are the maintenance section. */
  lemma MaintainedView(st: State, gone: set<RuleId>, now: nat, st': State,
                       exited: seq<RuleId>, reset: seq<RuleId>, retry: seq<RuleId>)
    requires forall id :: id in exited <==> Ended(st, id, gone)
    requires forall id :: id in reset <==> id in st.running && st.running[id].Active? && id !in gone
    requires forall id :: id in retry <==> id in st.running && IsDue(st.running[id], now)
    requires forall id :: id in st'.running <==> id in st.running && id !in retry
    requires forall id :: id in st'.running ==>
               st'.running[id] == if Ended(st, id, gone) then EndedEntry(st, id, now) else st.running[id]
    requires forall id :: id in st'.diagnostics <==> id in st.diagnostics || id in exited
    requires forall id :: id in st'.diagnostics ==>
               st'.diagnostics[id] == if Ended(st, id, gone) then EndedInfo(st, id)
                                      else if id in reset then StableInfo(InfoOf(st, id), now)
                                      else InfoOf(st, id)
    requires st' == st.(running := st'.running, diagnostics := st'.diagnostics)
    ensures st' == Maintain(st, gone, now)
  {
    hide EndedEntry, EndedInfo, StableInfo;
    var want := Maintain(st, gone, now);
    assert st'.running == want.running;
    assert st'.diagnostics == want.diagnostics;
  }

  predicate Distinct(s: seq<RuleId>) {
    forall i, j :: 0 <= i < j < |s| ==> s[i] != s[j]
  }

  /** `iter_mut().find(..)` and assignment through it: the first rule with this id is overwritten. */
  method Overwrite(rules: seq<Rule>, rule: Rule) returns (next: seq<Rule>, found: bool)
    ensures next == ReplaceRule(rules, rule)
    ensures found <==> FindRule(rules, rule.id).Some?
    ensures !found ==> next == rules
  {
    hide ReplaceRule, FindRule;
    next, found := rules, false;
    var i := 0;
    while i < |rules|
      invariant i <= |rules| && next == rules && !found
      invariant forall k :: 0 <= k < i ==> rules[k].id != rule.id
    {
      if rules[i].id == rule.id {
        next := next[i := rule];
        found := true;
        ReplacedFirst(rules, rule, i);
        return;
      }
      i := i + 1;
    }
    ReplacedFirst(rules, rule, i);
  }

  /** Each id in turn is put into the set of ids seen; false at the first that was already there. */
  method AllFresh(rules: seq<Rule>, existing: set<RuleId>) returns (unseen: bool)
    ensures unseen <==> FreshIds(rules, existing)
  {
    var seen := existing;
    for i := 0 to |rules|
      invariant FreshIds(rules, existing) == FreshIds(rules[i..], seen)
    {
      if rules[i].id in seen { return false; }
      seen := seen + {rules[i].id};
      assert rules[i..][1..] == rules[i + 1..];
    }
    unseen := true;
  }
}
