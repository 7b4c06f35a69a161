/** What the daemon state says about one rule, and how each critical section changes it. */
module Slots {
  import opened Wrappers
  import opened Rules
  import opened Conversion
  import opened Reconnect
  import opened Sections

  datatype Slot = Slot(
    stored: Option<Rule>, entry: Option<Attempt>, editing: bool, vetoed: bool, info: RuntimeInfo)

  function EntryOf(st: State, id: RuleId): Option<Attempt> {
    if id in st.running then Some(st.running[id]) else None
  }

  function SlotOf(st: State, id: RuleId): Slot {
    Slot(FindRule(st.rules, id), EntryOf(st, id), id in st.editing, id in st.manuallyStopped, InfoOf(st, id))
  }

  ghost predicate SameElsewhere(st: State, st': State, id: RuleId) {
    forall j :: j != id ==> SlotOf(st', j) == SlotOf(st, j)
  }

  /** The status shown for a rule is consistent, and an active attempt runs the stored rule. */
  predicate SlotOk(slot: Slot) {
    && (slot.entry.Some? ==> slot.stored.Some?)
    && (slot.editing ==> slot.stored.Some?)
    && (slot.info.activeSince.Some? <==> slot.entry.Some? && slot.entry.value.Active?)
    && (slot.entry.Some? ==>
          match slot.entry.value
          case Starting(_) => true
          case Active(m) => slot.stored == Some(m.rule) && slot.info.lastError.None?
          case Reconnecting(_) => slot.info.lastError.Some?
          case Failed => slot.info.lastError.Some?)
  }

  // One more failure is counted, and the next try is due within the bound for those counted before.
  predicate RetryScheduled(before: RuntimeInfo, after: Slot, now: nat) {
    && after.info.retryAttempt == Min(before.retryAttempt + 1, U32_MAX)
    && after.info.reconnectCount == Min(before.reconnectCount + 1, U32_MAX)
    && after.entry.Some? && after.entry.value.Reconnecting?
    && now <= after.entry.value.due <= now + Min(Shl1(before.retryAttempt) * 1000, MAX_DELAY)
  }

  predicate SameCounters(before: RuntimeInfo, after: RuntimeInfo) {
    after.retryAttempt == before.retryAttempt && after.reconnectCount == before.reconnectCount
  }

  // ----- how list operations change lookup

  lemma {:induction false} FindReplaced(rules: seq<Rule>, rule: Rule, id: RuleId)
    ensures FindRule(ReplaceRule(rules, rule), id) ==
            if id == rule.id && FindRule(rules, id).Some? then Some(rule) else FindRule(rules, id)
  {
    if rules != [] && rules[0].id != rule.id {
      FindReplaced(rules[1..], rule, id);
    }
  }

  lemma {:induction false} ReplacedFirst(rules: seq<Rule>, rule: Rule, i: nat)
    requires i <= |rules| && forall k :: 0 <= k < i ==> rules[k].id != rule.id
    requires i < |rules| ==> rules[i].id == rule.id
    ensures ReplaceRule(rules, rule) == if i < |rules| then rules[i := rule] else rules
    decreases i
  {
    if i > 0 {
      ReplacedFirst(rules[1..], rule, i - 1);
      assert rules == [rules[0]] + rules[1..];
    }
  }

  lemma {:induction false} FindAppended(rules: seq<Rule>, more: seq<Rule>, id: RuleId)
    ensures FindRule(rules + more, id) ==
            if FindRule(rules, id).Some? then FindRule(rules, id) else FindRule(more, id)
  {
    if rules == [] {
      assert rules + more == more;
    } else {
      assert (rules + more)[1..] == rules[1..] + more;
      FindAppended(rules[1..], more, id);
    }
  }

  lemma {:induction false} FindWithout(rules: seq<Rule>, gone: RuleId, id: RuleId)
    ensures FindRule(WithoutRule(rules, gone), id) == if id == gone then None else FindRule(rules, id)
  {
    if rules != [] {
      FindWithout(rules[1..], gone, id);
      var rest := WithoutRule(rules[1..], gone);
      if rules[0].id == gone {
        assert [] + rest == rest;
      } else {
        assert ([rules[0]] + rest)[1..] == rest;
      }
    }
  }

  lemma FindUpserted(rules: seq<Rule>, rule: Rule, id: RuleId)
    ensures FindRule(Upsert(rules, rule), id) == if id == rule.id then Some(rule) else FindRule(rules, id)
  {
    FindReplaced(rules, rule, id);
    FindAppended(rules, [rule], id);
    assert FindRule([rule], id) == if id == rule.id then Some(rule) else FindRule([], id);
  }

  lemma {:induction false} FreshIdsFound(rules: seq<Rule>, seen: set<RuleId>, id: RuleId)
    requires FreshIds(rules, seen) && id in seen
    ensures FindRule(rules, id).None?
  {
    if rules != [] {
      FreshIdsFound(rules[1..], seen + {rules[0].id}, id);
    }
  }

  lemma UniqueRest(rules: seq<Rule>)
    requires UniqueIds(rules) && rules != []
    ensures UniqueIds(rules[1..])
    ensures forall r :: r in rules[1..] ==> r.id != rules[0].id
  {
    var rest := rules[1..];
    assert forall i :: 0 <= i < |rest| ==> rest[i] == rules[i + 1];
  }

  lemma UniqueWithFirst(first: Rule, rest: seq<Rule>)
    requires UniqueIds(rest) && forall r :: r in rest ==> r.id != first.id
    ensures UniqueIds([first] + rest)
  {
    assert forall i :: 0 <= i < |rest| ==> rest[i] in rest;
  }

  // ----- configuration requests

  lemma SavedFields(st: State, p: Persisted, fault: SaveFault)
    ensures var st' := SaveState(st, p, fault).0;
      && st'.running == st.running && st'.diagnostics == st.diagnostics
      && st'.editing == st.editing && st'.manuallyStopped == st.manuallyStopped
      && (st'.rules == st.rules || st'.rules == p.rules)
  {
    hide ValidRuleSet, SaveConfig;
  }

  lemma AddSlots(st: State, wire: WireRule, fault: SaveFault)
    ensures var st' := Add(st, wire, fault).0;
      && (forall j :: EntryOf(st', j) == EntryOf(st, j) && InfoOf(st', j) == InfoOf(st, j))
      && st'.editing == st.editing && st'.manuallyStopped == st.manuallyStopped
    ensures var st' := Add(st, wire, fault).0;
      st'.rules == st.rules ||
      (&& ToDomain(wire).Ok?
       && var rule := ToDomain(wire).value;
          && !SlotOf(st, rule.id).editing
          && (SlotOf(st, rule.id).stored.Some? ==> SlotOf(st, rule.id).entry.None?)
          && FindRule(st'.rules, rule.id) == Some(rule)
          && forall j :: j != rule.id ==> FindRule(st'.rules, j) == FindRule(st.rules, j))
  {
    hide ToDomain, ValidRuleSet, SaveConfig;
    if ToDomain(wire).Ok? {
      forall j ensures FindRule(Upsert(st.rules, ToDomain(wire).value), j) ==
        if j == ToDomain(wire).value.id then Some(ToDomain(wire).value) else FindRule(st.rules, j)
      {
        FindUpserted(st.rules, ToDomain(wire).value, j);
      }
    }
  }

  lemma ImportSlots(st: State, wires: seq<WireRule>, fault: SaveFault)
    ensures var st' := Import(st, wires, fault).0;
      && (forall j :: EntryOf(st', j) == EntryOf(st, j) && InfoOf(st', j) == InfoOf(st, j))
      && st'.editing == st.editing && st'.manuallyStopped == st.manuallyStopped
      && forall j :: FindRule(st.rules, j).Some? ==> FindRule(st'.rules, j) == FindRule(st.rules, j)
  {
    hide AllToDomain, ValidRuleSet, SaveConfig;
    if wires != [] && AllToDomain(wires).Ok? {
      var imported := AllToDomain(wires).value;
      forall j ensures FindRule(st.rules + imported, j) ==
        if FindRule(st.rules, j).Some? then FindRule(st.rules, j) else FindRule(imported, j)
      {
        FindAppended(st.rules, imported, j);
      }
    }
  }

  lemma RemoveSlots(st: State, sel: Selector, fault: SaveFault)
    ensures var st' := Remove(st, sel, fault).0;
      && (forall j :: EntryOf(st', j) == EntryOf(st, j) && InfoOf(st', j) == InfoOf(st, j))
      && st'.editing == st.editing && st'.manuallyStopped == st.manuallyStopped
    ensures var st' := Remove(st, sel, fault).0;
      st'.rules == st.rules ||
      (&& Resolve(st, sel).Ok?
       && var id := Resolve(st, sel).value;
          && !SlotOf(st, id).editing && SlotOf(st, id).entry.None?
          && forall j :: j != id ==> FindRule(st'.rules, j) == FindRule(st.rules, j))
  {
    hide FindRule, WithoutRule, Resolve, SaveState;
    if Resolve(st, sel).Ok? {
      var id := Resolve(st, sel).value;
      forall j ensures FindRule(WithoutRule(st.rules, id), j) == if j == id then None else FindRule(st.rules, j) {
        FindWithout(st.rules, id, j);
      }
      SavedFields(st, Persisted(WithoutRule(st.rules, id), st.settings), fault);
    }
  }

  // ----- starting and stopping

  lemma StartBeginElsewhere(st: State, sel: Selector, mode: StartMode, marker: Marker, port: PortCheck)
    requires Resolve(st, sel).Ok?
    ensures SameElsewhere(st, StartBegin(st, sel, mode, marker, port).0, Resolve(st, sel).value)
  {
    hide FindRule, Resolve, LocalListener;
  }

  lemma StartBeginSlots(st: State, sel: Selector, mode: StartMode, marker: Marker, port: PortCheck)
    ensures var (st', out) := StartBegin(st, sel, mode, marker, port);
      && st'.rules == st.rules && st'.settings == st.settings && st'.file == st.file
      && (Resolve(st, sel).Ok? ==> SameElsewhere(st, st', Resolve(st, sel).value))
      && (Resolve(st, sel).Err? ==> st' == st)
    ensures var (st', out) := StartBegin(st, sel, mode, marker, port);
      out.Launch? ==>
        var before, after := SlotOf(st, out.id), SlotOf(st', out.id);
        && Resolve(st, sel) == Ok(out.id)
        && before.stored == Some(out.rule)
        && (before.entry == None || before.entry == Some(Failed))
        && (before.editing ==> mode == ForEdit)
        && (mode == Automatic ==> !before.vetoed)
        && after == before.(entry := Some(Starting(marker)), vetoed := before.vetoed && mode != Explicit)
    ensures var (st', out) := StartBegin(st, sel, mode, marker, port);
      !out.Launch? && Resolve(st, sel).Ok? ==>
        var id := Resolve(st, sel).value;
        var before, after := SlotOf(st, id), SlotOf(st', id);
        && (after.entry == before.entry || (before.entry == Some(Failed) && after.entry == None))
        && (before.editing && mode != ForEdit ==> after == before)
        && (out.NoChange? ==> if out.startRequested then before.entry.Some? && after.entry == before.entry
                              else mode == Automatic && before.vetoed)
        && (after.vetoed == before.vetoed || mode == Explicit)
        && after == before.(entry := after.entry, vetoed := after.vetoed)
  {
    hide FindRule, Resolve, LocalListener, SameElsewhere;
    if Resolve(st, sel).Ok? { StartBeginElsewhere(st, sel, mode, marker, port); }
  }

  lemma StartCommitSlots(st: State, id: RuleId, mode: StartMode, managed: Managed, now: nat)
    ensures var (st', done) := StartCommit(st, id, mode, managed, now);
      var before, after := SlotOf(st, id), SlotOf(st', id);
      && st'.rules == st.rules && st'.settings == st.settings && st'.file == st.file
      && SameElsewhere(st, st', id)
      && (done <==> before.entry == Some(Starting(managed.marker)))
      && (!done ==> st' == st)
      && (done ==> after == before.(entry := Some(Active(managed)),
                                    vetoed := before.vetoed && mode != ForEdit,
                                    info := before.info.(activeSince := Some(now), lastError := None)))
  {
  }

  lemma StartFailSlots(
    st: State, id: RuleId, rule: Rule, mode: StartMode, marker: Marker, kind: DiagnosticKind, now: nat)
    ensures var (st', done) := StartFail(st, id, rule, mode, marker, kind, now);
      var before, after := SlotOf(st, id), SlotOf(st', id);
      && st'.rules == st.rules && st'.settings == st.settings && st'.file == st.file
      && SameElsewhere(st, st', id)
      && (done <==> before.entry == Some(Starting(marker)))
      && (!done ==> st' == st)
      && (done ==>
            && after == before.(entry := after.entry, info := after.info)
            && after.info.activeSince == None && after.info.lastError == Some(kind)
            && (if rule.reconnect && kind.Network? && mode != ForEdit then RetryScheduled(before.info, after, now)
                else SameCounters(before.info, after.info)
                     && after.entry == if mode == ForEdit then None else Some(Failed)))
  {
    CapIsExponential(InfoOf(st, id).retryAttempt);
    hide CapMillis, Shl1;
  }

  lemma StopSlots(st: State, sel: Selector)
    ensures var (st', out) := Stop(st, sel);
      && st'.rules == st.rules && st'.settings == st.settings && st'.file == st.file
      && (out.Err? ==> st' == st)
      && (out.Ok? ==>
            var id := out.value.0;
            var before, after := SlotOf(st, id), SlotOf(st', id);
            && Resolve(st, sel) == Ok(id)
            && SameElsewhere(st, st', id)
            && !before.editing && before.stored.Some?
            && out.value.1 == before.entry
            && after == before.(entry := None, vetoed := true, info := NO_INFO))
  {
  }

  // ----- editing

  lemma EditBeginSlots(st: State, job: EditJob)
    ensures var (st', out) := EditBegin(st, job);
      var id := job.expected.id;
      var before, after := SlotOf(st, id), SlotOf(st', id);
      && st'.rules == st.rules && st'.settings == st.settings && st'.file == st.file
      && (out.Err? ==> st' == st)
      && (out.Ok? ==>
            && SameElsewhere(st, st', id)
            && !before.editing && before.stored == Some(job.expected)
            && before.entry == Some(Active(out.value))
            && after == before.(entry := None, editing := true, vetoed := true, info := NO_INFO))
  {
    hide ValidRuleSet;
  }

  lemma EditMarkSlots(st: State, id: RuleId)
    ensures var st' := EditMarkFailed(st, id);
      && st'.rules == st.rules && st'.settings == st.settings && st'.file == st.file
      && SameElsewhere(st, st', id)
      && SlotOf(st', id) == SlotOf(st, id).(entry := Some(Failed),
                                            info := SlotOf(st, id).info.(lastError := Some(Unknown)))
  {
  }

  lemma EditSaveSlots(st: State, job: EditJob, fault: SaveFault)
    requires job.expected.id == job.replacement.id
    ensures var (st', saved) := EditSave(st, job, fault);
      var id := job.expected.id;
      && SameElsewhere(st, st', id)
      && st'.settings == st.settings
      && (saved.None? <==> SlotOf(st, id).stored.None?)
      && (saved.None? ==> st' == st)
      && (saved.Some? ==>
            && SlotOf(st', id) ==
               SlotOf(st, id).(stored := if Committed(saved.value) then Some(job.replacement)
                                         else SlotOf(st, id).stored)
            && (!Committed(saved.value) ==> st'.rules == st.rules && st'.file == st.file))
  {
    hide RuleSetErrors, FromDomain, IntoDomain, ReplaceRule, FindRule;
    forall j ensures FindRule(ReplaceRule(st.rules, job.replacement), j) ==
      if j == job.replacement.id && FindRule(st.rules, j).Some? then Some(job.replacement) else FindRule(st.rules, j)
    {
      FindReplaced(st.rules, job.replacement, j);
    }
  }

  lemma EditFinishSlots(st: State, id: RuleId)
    ensures var st' := EditFinish(st, id);
      && st'.rules == st.rules && st'.settings == st.settings && st'.file == st.file
      && SameElsewhere(st, st', id)
      && SlotOf(st', id) == SlotOf(st, id).(editing := false)
  {
  }

  // ----- maintenance

  lemma MaintainSlots(st: State, gone: set<RuleId>, now: nat, id: RuleId)
    ensures var st' := Maintain(st, gone, now);
      var before, after := SlotOf(st, id), SlotOf(st', id);
      && st'.rules == st.rules && st'.settings == st.settings && st'.file == st.file
      && st'.editing == st.editing && st'.manuallyStopped == st.manuallyStopped
      && after.stored == before.stored
      && after.editing == before.editing && after.vetoed == before.vetoed
      && match before.entry
         case Some(Active(m)) =>
           if id in gone then
             && after.info.activeSince == None && after.info.lastError == Some(Unknown)
             && (if before.stored.Some? && before.stored.value.reconnect then RetryScheduled(before.info, after, now)
                 else SameCounters(before.info, after.info) && after.entry == Some(Failed))
           else
             var stable := before.info.activeSince.Some? && now >= before.info.activeSince.value + 60_000;
             after == before.(info := if stable then before.info.(retryAttempt := 0) else before.info)
         case Some(Reconnecting(due)) =>
           if due <= now then after == before.(entry := None) else after == before
         case _ => after == before
  {
    CapIsExponential(InfoOf(st, id).retryAttempt);
    hide CapMillis, Shl1;
  }
}
