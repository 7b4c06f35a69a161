# TunnelDeck: a verified model

TunnelDeck keeps SSH port forwardings alive. A daemon owns the rules, starts and stops `ssh` processes,
saves the configuration, answers clients over a socket, and logs. This project states what that daemon and
the tools around it promise, and proves it of a model of their code.

`dafny verify dfyconfig.toml` checks everything.

## What is modelled

**The manager's protocol.** `Sections` gives each critical section of the daemon manager as a function of the
locked state; `Manager.LockedState` is the same state as an object whose methods update it in place, each
proved equal to its section. `Protocol` is the transition system: one step per critical section and one per
end of a slow operation (launching or stopping a process), with every suspended call kept as a value. The
environment chooses the results of launches, stops, port checks, saves and clocks; markers and attempt ids
are fresh numbers. Automatic starts, which are the supervisor's restores and due retries, may happen at any
time for any rule. `Coordination` states the inductive invariant, `Preservation` proves it for all nineteen
steps, and `Lifecycle`, `Commitment`, `Desired`, `Attempts`, `Refinement` and `Orphans` draw the results from it:
what holds in every reachable state and over every run. `Slots` says what each section does to one rule, and
`Answers` when it does so and what it answers; `Admission` and `Retries` lift that to runs: what was true when a
start or an edit was let in, and how failures are counted and delayed.

**Configuration.** `Rules`, `Conversion`, `Net` and `Text` are the domain rules, their validators down to the
text of IP addresses, the validation of a rule set and the conversion to and from the saved form. `Disk` is a
directory that can lose power: file contents survive once synced, names survive as any binding since the last
directory sync, and some volume can always be left (`Disk.SomethingSurvives`). `Store` runs the atomic
replacement and the backup-first migration on it, and `OnDisk` runs the manager's protocol with its saves going
through the store.

**Import and hosts.** `Endpoints`, `Import`, `Selection` and `Reimport` are the preview of forwardings in an
SSH configuration and the saving of a selection; `EffectiveConfig` spells out the lines `ssh -G` prints and what
they are shown as; `Arguments` is the argument passed to `ssh`; `Words` and `Hosts` are the tokenizer and the walk
over included files.

**Around the daemon.** `Ipc` is the framing and the connection loop, `Events` the fan-out of events,
`Logging` the rotating log, `Reconnect` the retry delays, `Status` the abstract runtime machine, and
`Manifest` and `Budget` the automated review's dependency check and its retry budget, whose process may die after
any single effect.

## Where the code is followed against the expectation

- Two local listeners on `0.0.0.0`, or two on `::`, with one port are accepted: the overlap relation is false
  for these two pairs (`Rules.EqualWildcardsDoNotOverlap`), and exactly for them differs from sharing an address.
- Rule ids are not checked for uniqueness on load, so `Lifecycle.IdsStayUnique` starts from unique ids.
- A port that cannot be used when a retry is due leaves the rule with no entry, as any refused start does.
- After an edit whose old process could not be stopped the rule is marked failed, which is no transition of the
  abstract machine (`Refinement.MarkIsNoEvent`); every other change is. Histories keep it as an explicit jump.
- A Subscribe request with an unsupported protocol version is answered with a failure and still ends the
  request loop in the event stream.
- A record whose write failed part-way stays in the log and is read together with the next one; the kept text
  is a run of whole records exactly when no such part is kept (`Logging.LogReadsAsRecords`; `Logging.TornWriteSpoils`
  makes two such writes).
- A destination host that starts with `[` is accepted by the validator and printed in a form that is not read
  back, nor by `ssh` (`Arguments.DestinationRoundTrip` and `Arguments.ArgumentIsRead` give the exact condition).

## Model

| member | source | states |
|---|---|---|
| Lifecycle.OpenedIsSound | src/daemon/manager.rs:67-89 | a manager opened on a readable file, or none, satisfies every invariant |
| Lifecycle.MemoryIsTheFile | src/daemon/manager.rs:163-325 | in every reachable state config.toml decodes to exactly the rules and settings in memory, the rules are valid and pairwise compatible, and every running or reserved id names a stored rule |
| Lifecycle.IdsStayUnique | src/daemon/manager.rs:215-300 | rule ids stay unique over every run that starts with unique ids |
| Lifecycle.AcknowledgedWritesAreTheState | src/daemon/manager.rs:177-325 | whatever is interleaved, the configuration after a run is the replay of the acknowledged writes in order; an edit adds one write of its own rule, so nothing changed meanwhile is lost |
| Lifecycle.ActiveRunsTheStoredRule | src/daemon/manager.rs:497-517 | an attempt shown active was launched from exactly the rule stored now, in every reachable state |
| Commitment.AtMostOneCanStillCommit | src/daemon/manager.rs:411-517 | of all starts in flight for one rule, launching or launched, at most one can still register its attempt in some continuation |
| Commitment.CanStillCommitNow | src/daemon/manager.rs:497-517 | a start in flight can still register its attempt exactly when its marker is in place and its launch has not failed |
| Commitment.LostStartNeverCommits | src/daemon/manager.rs:497-503 | a start that has lost its marker registers its attempt in no continuation of the run |
| Lifecycle.LiveAttemptsAreHeldOnce | src/daemon/manager.rs:497-555 | an attempt launched and not ended is held in exactly one place: its start, the running map, or one call that will end it |
| Lifecycle.HeldAttemptsAreLive | src/daemon/process.rs:158-203 | nothing holds an attempt before its launch or after its end |
| Lifecycle.ManualStopWins | src/daemon/manager.rs:530-561 | after an accepted stop the rule has no entry until a client starts it, whatever starts, retries, restores and edits run |
| Lifecycle.EditsReportTheTruth | src/daemon/manager.rs:563-704 | in every interleaving an edit's outcome is true when it is made, in memory and on disk: new or old rule stored, active from that rule or no entry, failed with the old rule if the stop failed, never a vanished rule |
| Lifecycle.RunsFollowTheMachine | src/domain/status.rs:98-169 | over every run the history of a rule is a walk of the abstract machine, whose only jumps are the failed-stop marks, and ends in a state that agrees with its entry |
| Lifecycle.HistoriesAreMachineWalks | src/domain/status.rs:86-169 | from the opening of the daemon each rule's history is a walk from Stopped: words of the machine between explicit jumps to Failed, one for each failed-stop mark |
| Lifecycle.ShownStatusIsConsistent | src/daemon/manager.rs:326-359 | active exactly when there is an uptime; active means no error; failed or reconnecting means an error is shown |
| Orphans.NothingIsLeftBehind | src/daemon/manager.rs:411-667 | a rule shown starting has a start in flight with its marker, and a reserved rule has its edit in flight |
| Preservation.StepKeeps | src/daemon/manager.rs:163-823 | every step of the protocol keeps the coordination invariant |
| Attempts.StepConserves | src/daemon/manager.rs:372-823 | every step keeps live attempts held in exactly one place |
| Desired.StepKeepsData | src/daemon/manager.rs:177-325 | every step keeps memory equal to the decoded file and the rules valid |
| Desired.StepReplays | src/daemon/manager.rs:177-325 | one step changes the configuration by exactly the write it acknowledges |
| Refinement.StepFollowsMachine | src/domain/status.rs:98-169 | each step's change of a rule's entry is matched by machine events, except the failed-stop mark |
| Refinement.MarkIsNoEvent | src/daemon/manager.rs:622-630 | the edit's failed-stop mark takes a stopped rule to failed, which no event does |
| Manager.LockedState.Add | src/daemon/manager.rs:177-214 | adds or replaces a rule in place, exactly as the section function |
| Manager.LockedState.Import | src/daemon/manager.rs:215-269 | adds imported rules with unseen ids, exactly as the section function |
| Manager.LockedState.Remove | src/daemon/manager.rs:270-300 | removes a rule that is neither running nor being edited |
| Manager.LockedState.UpdateSettings | src/daemon/manager.rs:311-325 | saves settings and keeps the rules |
| Manager.LockedState.ResolveId | src/daemon/manager.rs:899-934 | an id is taken as given; a name is the first rule of that name |
| Manager.LockedState.StartBegin | src/daemon/manager.rs:379-417 | exactly the section function, whose every answer Answers.StartAnswers gives |
| Manager.LockedState.StartCommit | src/daemon/manager.rs:497-523 | registers the attempt if the marker is still in place |
| Manager.LockedState.StartFail | src/daemon/manager.rs:428-464 | exactly the section function, whose counters and delays module Retries gives |
| Manager.LockedState.Stop | src/daemon/manager.rs:530-547 | removes the entry, sets the veto and hands out the attempt |
| Manager.LockedState.EditBegin | src/daemon/manager.rs:581-617 | exactly the section function, whose every answer Answers.EditAnswers gives |
| Manager.LockedState.EditMarkFailed | src/daemon/manager.rs:622-630 | marks the rule failed after a failed stop |
| Manager.LockedState.EditSave | src/daemon/manager.rs:644-667 | validates and saves the replacement; memory changes when the save committed |
| Manager.LockedState.EditFinish | src/daemon/manager.rs:706-710 | ends the reservation |
| Manager.LockedState.Maintain | src/daemon/manager.rs:722-791 | the classification, reset, exit and retry loops together are the maintenance section |
| Manager.Overwrite | src/daemon/manager.rs:187-200 | the first rule with the id is replaced in place |
| Manager.AllFresh | src/daemon/manager.rs:238-251 | true exactly when no id was seen before |
| Answers.SelectorAnswers | src/daemon/manager.rs:899-934 | an id is taken as given, a name means the first rule of that name, an unknown name is not found |
| Answers.StartAnswers | src/daemon/manager.rs:379-417 | a start launches exactly if its rule is stored, not reserved (unless for the edit), not vetoed (if automatic), without entry or failed, and its port is free if it listens locally; the code of every other answer |
| Answers.StopAnswers | src/daemon/manager.rs:530-547 | a stop hands out the entry of any stored rule that is not being edited, running or not; the code of every refusal |
| Answers.AddAnswers | src/daemon/manager.rs:177-214 | a valid rule is put in exactly if it is not reserved, not running and fits the others; otherwise Conflict, and the answer of the save |
| Answers.UnreadableIsInvalid | src/daemon/manager.rs:178-181 | what is the wire form of no valid rule is an invalid request |
| Answers.ImportAnswers | src/daemon/manager.rs:215-269 | valid rules are appended exactly if their ids are new and different and all rules fit together |
| Answers.UnreadableImport | src/daemon/manager.rs:222-235 | an import of nothing, or of what is the wire form of no valid rules, is an invalid request |
| Answers.RemoveAnswers | src/daemon/manager.rs:270-300 | a rule is removed exactly if it is stored, not reserved and without entry; the others stay, in order |
| Answers.SettingsAnswers | src/daemon/manager.rs:311-325 | settings are saved with the rules as they are |
| Answers.EditAnswers | src/daemon/manager.rs:581-617 | an edit is accepted exactly if the stored rule is the expected one, active, not reserved, and the rules fit together with the replacement in its place; refused, it changes nothing |
| Answers.EditSaveAnswers | src/daemon/manager.rs:644-667 | the save of an edit stores the replacement exactly if the rules then fit together and the file could be written |
| Admission.AttemptsBeganOnFreePorts | src/daemon/manager.rs:379-417 | over every run, every start in flight and every active attempt began at a step that found its rule stored and its local port, if it has one, free |
| Admission.EditRequestsAreDecided | src/daemon/manager.rs:570-617 | an edit request takes the active attempt to stop it exactly if it fits, and otherwise changes nothing |
| Admission.EditsBeganFitting | src/daemon/manager.rs:581-617 | over every run, every edit under way was accepted in a state in which it fitted |
| Admission.EditsStopFirst | src/daemon/manager.rs:618-667 | over every run, an edit saves, restarts or reports success only after its process was stopped, and reports a failed stop only after one |
| Retries.CountersFollowTheRun | src/daemon/manager.rs:437-457 | over every run both counters of a rule are what its retryable failures, stops, accepted edits and minutes of uptime make them |
| Retries.FailuresAddUp | src/daemon/manager.rs:737-779 | failures with no stop, edit or minute of uptime between them are all counted, up to 2^32 - 1 |
| Retries.BackoffOfARun | src/daemon/reconnect.rs:8-14 | after k failures in a row the next retry is due within min(2^k, 60) seconds |
| Retries.BoundDoubles | src/daemon/reconnect.rs:8-14 | the bound starts at one second and each further failure doubles it, up to 60 |
| Status.RuntimeStateMachine.Apply | src/domain/status.rs:98-169 | the transition, or an error that leaves the state unchanged |
| Status.NextAllConcat | src/domain/status.rs:98-169 | accepting two words in a row is accepting their concatenation |
| Status.ActiveWasStarted | src/domain/status.rs:98-169 | in every accepted history an attempt becomes active by being accepted just after its own start or retry |
| Status.StopAlwaysWorks | src/domain/status.rs:98-169 | from every state a stop and the end of its cleanup lead to Stopped |
| Status.AcceptedExactly | src/domain/status.rs:98-169 | the events each state accepts |
| Status.StaleNewsIsRejected | src/domain/status.rs:98-169 | news of another attempt than the current one is rejected, naming both |
| Reconnect.JitterRange | src/daemon/reconnect.rs:8-14 | a delay can occur exactly when it is within the capped exponential bound |
| Reconnect.CapIsExponential | src/daemon/reconnect.rs:8-14 | the bound is the smaller of 60 seconds and two to the attempt seconds |
| Rules.ValidateRuleSet | src/domain/validation.rs:42-76 | the errors in order; none exactly when all rules have different names and no clashing listeners |
| Rules.ValidRuleSetIsPairwise | src/domain/validation.rs:42-76 | the one-pass check is the pairwise condition |
| Rules.ErrorsAreReported | src/domain/validation.rs:42-76 | the errors reported are exactly the repeated names and the local listeners already taken |
| Rules.ClashMeans | src/domain/validation.rs:42-76 | two rules clash exactly if both listen locally on one port at overlapping addresses |
| Rules.OverlapSymmetric | src/domain/validation.rs:78-96 | the overlap relation is symmetric |
| Rules.OverlapIsIntersection | src/domain/validation.rs:78-96 | two bindings overlap exactly when some address is answered by both, except the two equal wildcards |
| Rules.EqualWildcardsDoNotOverlap | src/domain/validation.rs:81-95 | 0.0.0.0 against itself does not overlap |
| Net.IpCharacters | src/domain/rule.rs:86-93 | an accepted address has only address characters, and a colon exactly when it is IPv6 |
| Net.V4Exactly | src/domain/rule.rs:86-93 | an IPv4 address is exactly four decimal octets joined by dots |
| Net.FullV6IsParsed | src/domain/rule.rs:86-93 | eight hexadecimal groups joined by colons are read as that address |
| Net.GappedV6IsParsed | src/domain/rule.rs:86-93 | groups around one gap are read with zeros in the gap, exactly if it stands for at least one group |
| Rules.NameMeans | src/domain/rule.rs:44-50 | a name is one to 128 printed characters with spaces only inside |
| Rules.AliasMeans | src/domain/host.rs:9-40 | an alias is one to 255 printed characters without spaces that does not start with a dash |
| Rules.DestinationMeans | src/domain/rule.rs:113-122 | a destination host is one to 253 printed characters without spaces, an address if it has a colon |
| Conversion.RuleRoundTrip | src/config/conversion.rs:7-113 | a wire rule converts to a rule exactly when the rule is valid and says the same in kind and every field, and converts back to it |
| Conversion.AllRoundTrip | src/config/conversion.rs:119-158 | the same for whole lists, in order |
| Conversion.ConfigRoundTrip | src/config/conversion.rs:134-158 | a configuration is readable exactly when saving some valid rule set would write it |
| Conversion.DomainIsValid | src/config/conversion.rs:134-146 | whatever is loaded is a valid rule set of valid rules |
| Store.Replace | src/config/store.rs:144-171 | at every point of every failure config.toml is the whole old or whole new text, now and after a crash; the result by what succeeded; success survives later crashes; only uncertain durability leaves the new text visible |
| Store.SaveConfig | src/config/store.rs:82-87 | encodes first, never overwrites an unreadable file, then replaces |
| Store.ReadableMeans | src/config/store.rs:204-218 | a text is readable exactly if it is of version 2, parses and holds a valid configuration; another version is named in the refusal |
| Store.SaveIsSectionSave | src/config/store.rs:82-87 | the store's save is the save the manager's sections assume, with the fault explained |
| Store.SaveSection | src/config/store.rs:82-87 | a save through the store leaves config.toml and its result as the manager's sections assume |
| Store.EncodeRoundTrip | src/config/store.rs:211-218 | a saved configuration is loaded as it was |
| Store.BackUp | src/config/store.rs:121-128 | the backup is secured by syncing file and directory before anything else, or taken back |
| Store.LoadWithMigration | src/config/store.rs:106-131 | nothing is answered only if there is no file, a version 2 text is answered as it reads, an unsupported version is refused by its number, all untouched; an older text is migrated, and at every point the exact original is in config.toml or in the synced backup |
| Store.MigrationIsRepeatable | src/config/store.rs:106-131 | after a migration every later load answers the same, whichever of the two texts it finds, and the migrated one needs no second migration |
| Store.MigratesV1 | src/config/store.rs:89-104 | exactly the version 1 texts of valid rule sets are migrated, to the same rules with default settings |
| Store.AcknowledgedSavesSurvive | src/config/store.rs:144-171 | over any series of saves, failures and crashes config.toml is the last acknowledged text or one whose later save got as far as the rename |
| Store.SaveSeries | src/config/store.rs:144-171 | the same of real calls of the replacement on a directory, with power lost at any point during or after any of them |
| OnDisk.StepWritesWhatItTries | src/daemon/manager.rs:177-325 | the file after any step of the protocol is the file before it saved over with what the step tries to save |
| OnDisk.OpenOnDisk | src/daemon/manager.rs:67-89 | opening on whatever is found gives a state the protocol starts from that agrees with config.toml; rules are missing only where none were stored, and an unknown version is refused |
| OnDisk.RunOnDisk | src/daemon/manager.rs:177-325 | a run of the manager whose saves really go through the store, with any failures, is a run of the protocol, and config.toml decodes to the rules and settings in memory |
| Arguments.ArgumentIsUnambiguous | src/daemon/process.rs:304-335 | two valid forwardings with the same option and argument are the same forwarding |
| Arguments.ArgumentIsRead | src/daemon/process.rs:304-335 | ssh reads option and argument back as the forwarding, -L for a local, -R for a remote, -D for a dynamic one, exactly if its destination host does not start with a bracket |
| Arguments.ListenerRoundTrip | src/daemon/process.rs:337-343 | every printed listener is read back by the endpoint parser |
| Arguments.DestinationRoundTrip | src/application/import.rs:366-384 | a printed destination is read back exactly when its host does not start with an opening bracket |
| Endpoints.ParseForward | src/application/import.rs:300-384 | whatever is accepted is of the directive's kind and satisfies the daemon's validators |
| EffectiveConfig.SpelledForwardIsRead | src/application/import.rs:300-384 | a value that spells a valid forwarding, hosts bare or in brackets, is read as exactly that forwarding, or as a socket exactly if its host has a slash |
| EffectiveConfig.BarePortIsBound | src/application/import.rs:349-357 | a listener that is only a port is bound to the default address, a remote one to localhost |
| EffectiveConfig.PrintedForwardIsRead | src/application/import.rs:300-384 | a printed forwarding is read back exactly if its destination host has no slash and does not start with a bracket |
| EffectiveConfig.RemoteProxyIsUnsupported | src/application/import.rs:330-333 | a remote forwarding without destination is reported as unsupported |
| EffectiveConfig.BadHostIsReported | src/application/import.rs:349-364 | a bind address or destination host that is none is reported as such |
| EffectiveConfig.BadPortIsReported | src/application/import.rs:386-392 | a port that is no number from 1 to 65535 is reported as such |
| EffectiveConfig.BadPartIsReported | src/application/import.rs:310-329 | an error in a part is the error of the directive, the listener first |
| EffectiveConfig.SharedByGatewayPorts | src/application/import.rs:287-298 | a line "gatewayports yes" makes the default address "*" |
| EffectiveConfig.LocalWithoutGatewayPorts | src/application/import.rs:287-298 | without such a line it is localhost |
| EffectiveConfig.AskedIsShown | src/application/import.rs:199-238 | a line that asks for a forwarding, in any case of its keyword, is shown as a candidate of its kind with that forwarding, at its place |
| EffectiveConfig.OtherLineIsIgnored | src/application/import.rs:199-209 | a line with another keyword is no directive |
| EffectiveConfig.WholeOutputIsShown | src/application/import.rs:187-243 | an output that asks for forwardings, one a line, is shown as exactly these, in order |
| Import.Preview | src/application/import.rs:187-243 | the loop over lines computes the one-pass classification |
| Import.ShownFaithfully | src/application/import.rs:245-285 | a candidate is Supported exactly when its directive parses, is the first of its kind, is no rule yet, and clashes with no earlier supported one and no rule |
| Import.ShownRightly | src/application/import.rs:245-285 | the classification of every directive: the first equal directive, the first rule that is the same, an importable directive or the first rule it clashes with, in this order, or Supported |
| Import.RuleConflictMeans | src/application/import.rs:435-475 | a forwarding clashes with a rule exactly if both would listen on one port at overlapping addresses, here or at the same server |
| Import.SavedConflictsAlike | src/application/import.rs:435-475 | a saved directive conflicts exactly as it did before it was saved |
| Selection.ImportRuleName | src/application/import.rs:166-185 | the search for a free name ends with the first free name |
| Selection.RuleNameIsValid | src/application/import.rs:166-185 | the found name satisfies the rule-name validator, its length included |
| Selection.SelectedRules | src/application/import.rs:90-164 | builds the selected candidates in order, or fails with the first error |
| Selection.IdsAreGiven | src/application/import.rs:105-164 | each built rule has the id made for its candidate |
| Selection.SelectionAnswers | src/application/import.rs:97-122 | a selection that cannot be saved is answered by what is wrong with it first |
| Reimport.SavesExactlySupported | src/application/import.rs:90-164 | a selection builds exactly when it is non-empty and all selected candidates are Supported |
| Reimport.SavedRulesAreValid | src/domain/validation.rs:42-76 | existing rules and the built ones pass the daemon's validation together |
| Reimport.PreviewAgain | src/application/import.rs:187-285 | previewing again after saving a selection shows as Supported exactly the unselected supported ones, at the same places |
| Words.LogicalLines | src/application/hosts.rs:362-377 | the loop joins continued lines |
| Words.ContinuedLine | src/application/hosts.rs:362-377 | a line broken up with continuation marks is read as the one line it was |
| Words.UnfinishedLine | src/application/hosts.rs:373-376 | what the last lines break off is one line, if it is anything |
| Words.SplitWords | src/application/hosts.rs:379-411 | the loop is the character-by-character reader |
| Words.WrittenWordsAreRead | src/application/hosts.rs:379-411 | any non-empty words, written quoted and escaped, are read back exactly |
| Words.SpelledWordsAreRead | src/application/hosts.rs:379-411 | words written bare or in either quotes, with any separators, are read back; nothing is read after a comment mark |
| Words.LastWordIsRead | src/application/hosts.rs:404-410 | the last word of a line needs no separator |
| Hosts.WrittenLineGives | src/application/hosts.rs:288-309 | a Host line gives exactly its words that are concrete aliases, an Include line all its words, other lines nothing |
| Hosts.ConcreteMeans | src/application/hosts.rs:295-301 | a concrete alias is a valid one that is no negation and no pattern |
| Hosts.TargetsMean | src/application/hosts.rs:313-359 | an include visits what its pattern matches, or the very name if that is no pattern |
| Hosts.ConfigWalker.Visit | src/application/hosts.rs:248-311 | a visit adds only reachable files and settles every file it adds, or a limit is really exceeded |
| Hosts.ConfigWalker.FollowInclude | src/application/hosts.rs:313-359 | all targets of an include are visited |
| Hosts.DiscoverHosts | src/application/hosts.rs:226-239 | discovery ends; success gives the sorted acceptable host words of all readable reachable files, each read once; failure means over 256 reachable files or 33 in a row |
| Logging.LinesAreSingle | src/logging/mod.rs:133-144 | a record is one line whatever its level and message contain |
| Logging.LineReadsBack | src/logging/mod.rs:59 | the level stands before the only tab of a record and the message behind it |
| Logging.MovedFilesKeep | src/logging/mod.rs:98-115 | renaming generations up, all of them or only some, loses nothing, and ends with no active file when all succeed |
| Logging.RotatingLog.Rotate | src/logging/mod.rs:84-117 | the loop leaves exactly the generations, and gives the result, that the operations which succeed determine |
| Logging.RotationKeeps | src/logging/mod.rs:84-117 | only the oldest generation is lost, even when rotation stops part-way |
| Logging.RotatingLog.Write | src/logging/mod.rs:58-82 | a write leaves exactly the files, history and result that the outcomes of its operations determine: the whole record, the appended part of it, or nothing |
| Logging.WriteKeeps | src/logging/mod.rs:58-82 | whatever fails, the kept generations stay a contiguous end of everything appended and sizes stay bounded |
| Logging.CleanWrite | src/logging/mod.rs:58-117 | without failures exactly the record is added, and each generation moves up by one if the active file was full |
| Logging.WriteAnswers | src/logging/mod.rs:58-117 | a write succeeds exactly if its record fits and every operation it needs succeeds; only one that gets to open the file appends |
| Logging.RunsKeepASuffix | src/logging/mod.rs:58-117 | after any series of writes the kept generations are the latest of what the writes appended, each file within its limit |
| Logging.KeptTextIsRecords | src/logging/mod.rs:58-82 | the kept text is a suffix of the whole records exactly when no part of a failed write is kept |
| Logging.LogReadsAsRecords | src/logging/mod.rs:58-82 | after any series of writes with any failures the kept text is a suffix of the whole records exactly when no write still kept opened the file and appended only a part of its line |
| Logging.TornWriteSpoils | src/logging/mod.rs:79-81 | two calls, the first failing part-way and the second succeeding, leave a text that is no run of records |
| Ipc.FrameRoundTrip | src/ipc/mod.rs:126-151 | a written frame is read back and no later byte is consumed |
| Ipc.FramesRoundTrip | src/ipc/mod.rs:126-151 | a concatenation of written frames is read as the same messages |
| Ipc.ServeConnection | src/daemon/lifecycle.rs:159-216 | what is sent is a beginning of the expected replies, ending only at a reply that cannot be written |
| Ipc.AnswersEachRequestOnce | src/daemon/lifecycle.rs:159-216 | on any bytes the leading well-formed lines are answered once each, in order, with their own ids, up to a bad line, which gets one reply with the nil id, or a Subscribe |
| Ipc.Answer | src/daemon/manager.rs:825-839 | every answer carries the id of its request and the current version |
| Events.EventHub.AddSubscriber | src/ipc/mod.rs:234-242 | a new subscriber starts with an empty queue after the events so far; the others are as they were |
| Events.EventHub.PublishEvent | src/ipc/mod.rs:243-259 | numbers the event and keeps exactly the subscribers that took it |
| Events.DeliveryHasNoGaps | src/ipc/mod.rs:224-260 | a subscriber's delivered and waiting events are a gap-free run from just after its subscription; its queue never exceeds 64 |
| Events.PublishedIsTold | src/ipc/mod.rs:243-259 | every publishing call is one event with its own name and payload and the next number |
| Events.DroppedGetsNothingMore | src/ipc/mod.rs:255-257 | a dropped subscriber never receives a later event |
| Events.FailedSendDrops | src/ipc/mod.rs:255-257 | a subscriber is dropped exactly when it is gone or its queue is full |
| Manifest.ManifestDependencyAdditions | scripts/symphony/review.py:343-369 | the greedy loop computes the accepted additions |
| Manifest.AcceptsExactlyInsertions | scripts/symphony/review.py:343-369 | additions are returned exactly when the new file is the old one with one or more declarations of distinct names inserted under dependency tables; every such reading inserts the same declarations |
| Manifest.DeclarationIsSpelling | scripts/symphony/review.py:350-353 | a line is a declaration exactly when it has the declared spelling |
| Manifest.TableIsSpelling | scripts/symphony/review.py:350-351 | a header opens a dependency table exactly if it has one of the six spellings |
| Budget.Review.Run | scripts/symphony/review.py:600-675 | a process run makes exactly the effects of its passes on the outside, one after another in the order of the code |
| Budget.RunProcesses | scripts/symphony/review.py:600-675 | any processes one after another, each dying after any of its effects, leave the specified history; at every point it is within budget and every push in it is counted first |
| Budget.BudgetHolds | scripts/symphony/review.py:600-675 | at every point of every history, with processes dying after any effect, pushes never exceed counted attempts nor these the limit, no attempt is pushed twice, consecutive counted failures differ, and the non-pending passes are bounded |
| Budget.PassAnswers | scripts/symphony/review.py:646-675 | a failure is counted and pushed exactly if it is not the last one again and attempts are left; otherwise the process ends |
| Budget.PushesAreCountedFirst | scripts/symphony/review.py:666-673 | at every step of every history that pushes, the state file already records the failure the push answers and counts more attempts than there were pushes before |

## Left out

- Process control: forking, signals, descriptors, guardians and timeouts; a launch or a stop is a result the environment chooses.
- The mode of the manager without process settings, which only its tests use.
- The order of the retries in one maintenance pass: automatic starts may happen in any order at any time.
- Two attempt starts drawing the same id; ids are fresh. The entropy of a delay is the id modulo 2^64.
- Read-only requests (listing, settings, status), apart from the status fields related to an entry; the text of messages and logs, and how diagnostic texts are classified.
- A poisoned state lock.
- The TOML and JSON libraries: printing and parsing are an inverse pair, and compact JSON holds no raw newline (section 7 of RFC 8259); printing TOML does not fail.
- File ownership, modes, links and the daemon lock; `discard_abandoned_save`; the removal of a temporary file is attempted and may fail.
- Crash durability of the log and of its rotation; the log model loses nothing but by rotation.
- Globs, canonical paths and home expansion are functions of the world the walk finds; warnings are recorded but nothing is claimed of them.
- The effective settings of a host and the connection test.
- Wall-clock time is a number; the review's time limit is one of the ways a pass may halt.
- The lock-file graph and the other gates of the review, git and GitHub calls, and the publication of its report.
- The terminal interface, the command line, release and licence scripts.
- Lifecycle.IdsStayUnique: unique ids are assumed of the initial file, because loading does not check them.
- Reimport.SavesExactlySupported: the numbers of candidates and rules are below 2^64, as a machine word holds them.
- Events.DeliveryHasNoGaps: a receiver takes its events one at a time in order; what waits when it goes away is lost with it.
