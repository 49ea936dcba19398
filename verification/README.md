# RelayAPI: configuration recovery, turn accounting, admission and metering

A Dafny model of the parts of RelayAPI whose correctness depends on more than one function, with proofs of what
they promise. `dafny verify dfyconfig.toml` checks the whole project.

What is modelled, by file:

- `ConfigTree`, `NamedProviders`, `ClientRestore`, `CredentialGroups`: a client configuration as a tree of tables,
  lists and scalars; the three-way restore that takes rai's settings out again, its atomic blocks, the name-indexed
  provider list of Hermes, and the credential groups of Claude and Hermes.
- `ConfigDiff`: the edits between two documents and their replay.
- `ClientJournal`: the multi-file save and restore with journals, rollback, and a stop between any two writes.
- `CodexRestore`, `CodexJournal`: the Codex restore with its provider authentication group, and the permanent and
  temporary journals as a state machine over whole command runs.
- `WebSocketTurns`: the accounting record of a WebSocket session, refined against a ledger of started and settled turns.
- `CircuitBreaker`, `Admission`: the breaker under its mutex, and the admission controller as atomic steps of any
  number of interleaved callers.
- `RateLimit`, `RollingCapture`, `FirstToken`: the sliding-window limiter, the log ring and the server-sent-events
  scanner, each against a specification over the full history or stream.
- `Pricing`, `Billing`, `Heatmap`: saturating cost, the usage fold, and the daily token report.
- `Wrappers`, `Int64`: an optional value, and capped sums.

Specifications are functions and relations on values; the loops and the objects of the source are methods and classes
proved against them. Where the source walks a Go map, the loop takes its keys in an arbitrary order, so the result is
proved for every order. `--warn-contradictory-assumptions` and a resource limit of two million are part of the intended
command line.

## Where the code does less than it says

Each of these is a lemma with the exact condition or a concrete run.

- A Hermes configuration whose `model` is a bare string comes back from the tree restore as a table
  (`ConfiguredUndoesInstall`); only the byte-for-byte shortcut of the journal hides it.
- If a Hermes `custom_providers` list names the installed provider twice, the tree restore leaves the installed entry
  in place (`InstallEntryUndone`).
- Saving with nothing to install into a missing file creates an empty file that recovery leaves behind, exactly then
  (`FileRecovers`, condition `LeftEmpty`; over whole runs `RunThenRestore`, condition `EverCreates`).
- A file that a first save had only journaled comes back exactly if its install is `Recognisable` (`FileRecovers`); what
  the installers build always is (`InstallIsRecognisable`).
- A repeated save that stops between its two writes cannot always be undone (`RepeatedSaveStoppedLoses`); it can exactly
  when it installs the same again, or the first install agrees key by key with the original or with the second
  (`RepeatedSaveRecovers`). The run theorem `RunThenRestore` excludes exactly the stops after which a restore does not
  give the original tree (`StopRecoversExactly`).
- An unedited credential group can go back in part (`GroupGoesBackInPart`); it goes back as a whole exactly when its
  members below `env` or `model` do (`GroupGoesBackExactly`), and after what the installers write, always
  (`GroupNeverMixes`).
- If the user deletes a Codex header table that the install had only stripped of its Authorization, the rest of the
  authentication group goes back and that header does not (`DeletedHeadersLoseAuthorization`); the exact condition is
  `UneditedAuthGroupGoesBack`.
- The Codex authentication group is protected only for provider names without a dot (`GroupProtectedExactly`); below a
  quoted, dotted name the fields are restored one by one.
- A second Codex configure that stops between its two writes cannot always be undone (`RepeatedInterruptLoses`); it can
  exactly when the first install agrees key by key with the original or with the second (`RepeatedInterruptRecovers`).
- A replayed terminal event still renames the active turn (`ReplayRenames`), exactly when it names another model
  (`ReplayOnlyRenames`).
- Any recorded outcome clears the probe flag, so two probes can be in flight (`TwoProbesInFlight`). There is at most one
  in every run in which no outcome is recorded beside a probe (`AtMostOneProbe`), and one such outcome is always enough
  for some continuation to have two (`OvertakingAllowsTwo`).
- The rate limiter reads the clock before it takes its lock. A request that enters after a later reading can be granted
  or refused against its own window (`LateRequestWronglyGranted`, `LateRequestWronglyRefused`), and once granted it can
  make a later request that is on time be refused (`LateGrantRefusesOnTime`). `LateRequest` says exactly when, for every
  request of every run; `OnTimeRequest` that a request on time is never wrongly granted and when it is wrongly refused.
- A row dated on a day that does not exist, but sorting inside the window, is in the heatmap's models and on none of
  its days (`ReportConserves`).

## Model

| member | source | states |
|---|---|---|
| ConfigTree.ConfigValue | internal/rai/client_config_restore.go:65-75 | the walk finds the value at a path, and nothing when a table on the way is missing |
| ConfigTree.SetSucceeds | internal/rai/client_config_file.go:63-79 | setting a path fails exactly when something other than a table is on the way |
| ConfigTree.SetThenGet | internal/rai/client_config_file.go:63-79 | a set value is read back and no unrelated path changes |
| ConfigTree.DeleteRemoves | internal/rai/client_config_file.go:81-90 | a deleted path and everything below it is absent |
| ConfigTree.DeleteKeeps | internal/rai/client_config_file.go:81-90 | a delete leaves every path it does not cover, and creates nothing in its place |
| ConfigDiff.VisitConfigChanges | internal/rai/client_config_file.go:128-159 | replaying the visited edits on before never fails and yields after; every edit is a real difference carrying the new value; no visited path is a prefix of another; for every key order |
| NamedProviders.Index | internal/rai/client_config_file.go:320-331 | the name index holds the last entry of each name |
| NamedProviders.RestoreNamedProviders | internal/rai/client_config_file.go:311-354 | the search loops give the one-pass restore of the list, whatever the order of the names |
| NamedProviders.HandleName | internal/rai/client_config_file.go:332-348 | handling one more name replaces the first entry equal to the installed one, independent of the names handled before |
| NamedProviders.UserEntriesSurvive | internal/rai/client_config_file.go:311-354 | entries that are neither installed nor original stay, in order |
| NamedProviders.RestoreNamedTwice | internal/rai/client_config_file.go:311-354 | a second restore of the list changes nothing exactly when no installed entry stood in it twice |
| NamedProviders.InstallEntryUndone | internal/rai/agent_config_plan.go:138-157 | the list a Hermes install writes is undone exactly when the name occurred at most once or nothing was rewritten |
| NamedProviders.InstallEntryInert | internal/rai/agent_config_plan.go:138-157 | restoring the original list against a Hermes install changes nothing |
| ClientRestore.RestoreClientConfig | internal/rai/client_config_file.go:259-309 | the key loop equals the recursive three-way restore for every key order |
| ClientRestore.RestoreOneKey | internal/rai/client_config_file.go:268-307 | one round of the loop, case by case |
| ClientRestore.RestoreUndoesInstall | internal/rai/client_config_file.go:259-309 | for every two documents, restoring the installed one gives exactly the original, if and only if the named list is undone |
| ClientRestore.UserEditsSurvive | internal/rai/client_config_file.go:257-309 | every value the user changed, added or deleted since the install is left as it is |
| ClientRestore.UneditedGoesBack | internal/rai/client_config_file.go:257-309 | every value still as installed that the walk reaches goes back to the original, or away |
| ClientRestore.UnmentionedUntouched | internal/rai/client_config_file.go:259-309 | a path that neither snapshot mentions is never touched |
| ClientRestore.AtomicBlockIndivisible | internal/rai/client_config_file.go:268-307 | in the restored document each entry of providers, provider, model and env is entirely the current one or entirely the original one, whatever became of its table; the current one if anything in it was edited |
| ClientRestore.OtherFieldsMerge | internal/rai/client_config_file.go:281-307 | a field of any other table, at any depth, goes back if unedited and stays if edited, whatever was edited beside it |
| ClientRestore.InstalledProviderComesOut | internal/rai/client_config_file.go:311-354 | the named entry an install appended comes out again wherever it stands, and every other entry stays |
| ClientRestore.UndoIsExact | internal/rai/client_config_file.go:259-309 | undo is exact in documents without a list of named providers |
| ClientRestore.RestoringOriginalIsIdentity | internal/rai/client_config_file.go:259-309 | restoring the original document changes nothing, if and only if the named list is left alone |
| ClientRestore.RestoreIsIdempotent | internal/rai/client_config_file.go:259-309 | restoring twice is restoring once, if and only if no installed provider entry was there twice |
| ClientRestore.RestoreRecoversExactly | internal/rai/client_config_file.go:259-309 | restoring any document gives exactly the original, if and only if at every key the walk decides it agrees with the original or the installed one, and the named list is undone |
| ClientRestore.InstalledListLaws | internal/rai/agent_config_plan.go:138-157 | for installed lists those conditions reduce to how often the name occurred in the original |
| CredentialGroups.RestoreConfiguredClient | internal/rai/client_config_restore.go:30-63 | the group comparison and masking loops give the grouped restore |
| CredentialGroups.MaskAt | internal/rai/client_config_restore.go:55-60 | masking removes the members and nothing else |
| CredentialGroups.EditedGroupUntouched | internal/rai/client_config_restore.go:45-61 | one edited member freezes the whole credential group |
| CredentialGroups.ClaudeCredentialsStay | internal/rai/client_config_restore.go:32-38 | Claude: once the address, a token, the helper or a provider switch is edited, every one of them stays |
| CredentialGroups.HermesCredentialsStay | internal/rai/client_config_restore.go:39-44 | Hermes: once provider, address, key or protocol is edited, every one of them stays |
| CredentialGroups.OtherEntriesMerge | internal/rai/client_config_restore.go:45-62 | every other entry of those tables is restored by itself, whatever was edited |
| CredentialGroups.OtherAgentsHaveNone | internal/rai/client_config_restore.go:30-45 | no other agent has a credential group |
| CredentialGroups.UndoIsExactWithGroups | internal/rai/client_config_restore.go:30-63 | undo is exact for every agent in documents without a list of named providers or a bare Hermes model |
| CredentialGroups.BareModelBecomesDefault | internal/rai/client_config_restore.go:40-42 | a bare Hermes model comes back as the default of a model table |
| CredentialGroups.GroupGoesBackExactly | internal/rai/client_config_restore.go:45-61 | an edited group stays; an unedited one goes back as a whole if and only if its members below env or model do, each table being walked, as installed, or already original |
| CredentialGroups.GroupGoesBackInPart | internal/rai/client_config_restore.go:45-61 | the input on which an unedited group goes back only in part; no installer writes it |
| CredentialGroups.GroupNeverMixes | internal/rai/client_config_restore.go:45-61 | after an install that sets a member below each table of the group, and whatever the user edited or deleted, the restored group is entirely the original one or entirely the current one |
| CredentialGroups.ConfiguredUndoesInstall | internal/rai/client_config_restore.go:30-63 | undo with groups, exact unless Hermes named its model by a bare string or the named list is not undone |
| CredentialGroups.ConfiguredEditsSurvive | internal/rai/client_config_restore.go:30-63 | user edits survive inside and outside the groups |
| CredentialGroups.ConfiguredKeepsOriginal | internal/rai/client_config_restore.go:30-63 | restoring the original changes nothing, with the exact exceptions |
| CredentialGroups.ConfiguredIsIdempotent | internal/rai/client_config_restore.go:30-63 | restoring twice with groups is restoring once, if and only if no installed provider entry was there twice |
| CredentialGroups.ConfiguredRecoversExactly | internal/rai/client_config_restore.go:30-63 | restoring any document with groups gives exactly the original, if and only if it agrees key by key with one of the snapshots, the credential group being one key |
| ClientJournal.ClientDisk.Plans | internal/rai/client_config_restore.go:105-144 | all journals and contents are computed before the first write, from the current journals; none exactly when some file cannot be planned |
| ClientJournal.ClientDisk.SaveClientConfig | internal/rai/client_config_restore.go:100-175 | refused exactly when a file cannot be planned or changed since it was loaded; fails only because of a failed write and then, all undoing writes going through, leaves every configuration and journal as at entry; success installs all, keeping a backup of each file before its first install; a stop leaves each file in one of three states |
| ClientJournal.ClientDisk.Rollback | internal/rai/client_config_restore.go:154-160 | undoing the first n files restores the entry state, and every state on the way is recoverable |
| ClientJournal.ClientDisk.RestorePlans | internal/rai/client_config_restore.go:182-215 | a plan per journal, or refusal exactly when a record is unreadable, of another profile, or does not decode |
| ClientJournal.ForeignIsRefused | internal/rai/client_config_restore.go:19-28 | a journal that is unreadable, of another version or agent, or of another profile than the one asked for is refused |
| ClientJournal.PlanInstalls | internal/rai/client_config_restore.go:105-144 | a planned save records both states and renders the document, unchanged bytes for an unchanged one |
| ClientJournal.UneditedPlan | internal/rai/client_config_restore.go:211-214 | an unedited file is planned back to the bytes its journal kept |
| ClientJournal.ClientDisk.RestoreAgentConfig | internal/rai/client_config_restore.go:177-239 | refused exactly when a journal cannot be planned or its file changed since it was loaded, a journal of another profile included; an unedited file gets the bytes its journal kept; journals go only after every configuration is restored; a clean failure changes nothing |
| ClientJournal.ClientDisk.PutBack | internal/rai/client_config_restore.go:225-232 | a failed restore puts the files already written back |
| ClientJournal.ClientDisk.ReplaceConfig | internal/rai/client_config_restore.go:85-94 | putting a file back removes it when it was absent |
| ClientJournal.RecoveryPlan | internal/rai/client_config_restore.go:183-215 | for a file an interrupted or finished first save left behind recovery always plans a write, of the original bytes or absence except exactly when the install was only journaled and is unrecognisable, or the file was created empty |
| ClientJournal.InstallIsRecognisable | internal/rai/agent_config_plan.go:99-175 | what an installer builds is recognisable: it leaves the provider list alone or writes its entry, and never leaves a bare Hermes model |
| ClientJournal.FirstSaveIsTaken | internal/rai/client_config_restore.go:105-153 | a first save of freshly loaded files is never refused |
| ClientJournal.FileRecovers | internal/rai/client_config_restore.go:98-239 | one file: the restore is not refused and, completed, gives the original bytes back, except exactly when the file had only been journaled with an unrecognisable install or was created empty, and then it stays empty |
| ClientJournal.InterruptedSaveRecovers | internal/rai/client_config_restore.go:98-239 | all files: wherever a first save stopped, restoring the freshly loaded files is not refused and, completed, leaves no journal and every original file, with exactly those two exceptions |
| ClientJournal.RecoveryStaysRecoverable | internal/rai/client_config_restore.go:216-238 | a recovery of a recognisable install that stops, fails or keeps a journal leaves the file recoverable |
| ClientJournal.RepeatedSaveKeepsBaseline | internal/rai/client_config_restore.go:115-138 | saving again over a file, however edited, and restoring gives exactly what restoring the edited file would have given |
| ClientJournal.EditsSurviveSaves | internal/rai/client_config_restore.go:119-137 | so what the user edited in the first install survives the second one and its restore |
| ClientJournal.SaveMoves | internal/rai/client_config_restore.go:154-175 | each file a save passes, finished, failed or stopped, is unmoved, journaled or installed |
| ClientJournal.RestoreMoves | internal/rai/client_config_restore.go:216-238 | each file a restore passes is unmoved, put back, or put back and without its journal |
| ClientJournal.RunThenRestore | internal/rai/client_config_restore.go:98-239 | after any run of saves, repeated saves and restores, safe stops included, one more restore leaves no journal and the original bytes, an empty file exactly if one was ever created; or at least the original tree, if the stops are only safe for trees |
| ClientJournal.StopRecoversExactly | internal/rai/client_config_restore.go:154-239 | after any stop in a legal run a restore gives the original tree, if and only if the stop was safe |
| ClientJournal.RepeatedSaveRecovers | internal/rai/client_config_restore.go:115-172 | save, a second save stopped between its writes, restore give the original tree, if and only if both install the same, or the first agrees key by key with the original or the second |
| ClientJournal.RepeatedSaveStoppedLoses | internal/rai/client_config_restore.go:167-172 | the run in which it does not |
| CodexRestore.RestoreCodexFieldsAt | internal/rai/codex_restore.go:73-143 | group handling and key loop equal the recursive restore |
| CodexRestore.RestoreCodexKeys | internal/rai/codex_restore.go:95-142 | the key loop, for every key order |
| CodexRestore.MaskAuthAt | internal/rai/codex_restore.go:153-162 | masking a provider removes exactly its authentication group |
| CodexRestore.CodexUndoesInstall | internal/rai/codex_restore.go:73-143 | for every two configurations, restoring the installed one gives exactly the original |
| CodexRestore.CodexUserEditsSurvive | internal/rai/codex_restore.go:46-143 | every value the user changed, added or deleted is left as it is |
| CodexRestore.CodexUnmentionedUntouched | internal/rai/codex_restore.go:73-143 | a path that neither snapshot mentions is never touched |
| CodexRestore.CodexKeepsOriginal | internal/rai/codex_restore.go:73-143 | restoring the original configuration changes nothing |
| CodexRestore.CodexIsIdempotent | internal/rai/codex_restore.go:73-143 | restoring twice is restoring once, for every three configurations |
| CodexRestore.EditedAuthGroupUntouched | internal/rai/codex_restore.go:52-94 | if any member of a provider's authentication group was edited, no member changes |
| CodexRestore.EditedAddressKeepsCredentials | internal/rai/codex_restore.go:46-94 | once the address of a provider is edited, each of its authentication fields and each Authorization header, in any case, stays |
| CodexRestore.OtherProviderFieldsMerge | internal/rai/codex_restore.go:95-142 | every other setting of a provider is restored by itself, whatever was edited |
| CodexRestore.OtherHeadersMerge | internal/rai/codex_restore.go:95-142 | and so is every other header |
| CodexRestore.OtherFieldsMerge | internal/rai/codex_restore.go:95-142 | outside the providers every setting is restored by itself, at any depth |
| CodexRestore.UneditedAuthGroupGoesBack | internal/rai/codex_restore.go:86-93 | an unedited group goes back to the original one as a whole, if and only if each header table is walked, as installed, or already holds the original Authorization |
| CodexRestore.DeletedHeadersLoseAuthorization | internal/rai/codex_restore.go:110-112 | the input on which it does not: the user deleted a header table that the install had stripped of its Authorization |
| CodexRestore.RestoreRecoversExactly | internal/rai/codex_restore.go:73-143 | restoring any configuration gives exactly the original, if and only if it agrees key by key with the original or the installed one, each authentication group being one key |
| CodexRestore.DottedProviderMixes | internal/rai/codex_restore.go:74-74 | the run in which a dotted provider name pairs an old key with an edited address |
| CodexRestore.GroupProtectedExactly | internal/rai/codex_restore.go:73-94 | the group is protected for exactly the provider names without a dot |
| CodexJournal.CodexFiles.SaveCodexManaged | internal/rai/codex_restore.go:164-214 | refused while a temporary configuration is pending; intent before configuration, and both states in the journal; a failed write puts the previous journal back |
| CodexJournal.CodexFiles.UnconfigureCodex | internal/rai/codex_restore.go:216-282 | the temporary journal comes off before the permanent one, over an unedited file with the bytes it kept; the journal goes last |
| CodexJournal.UndoneIsBefore | internal/rai/codex_restore.go:234-242 | taking a journal out of what it was applied to gives what was there before |
| CodexJournal.StepKeepsInv | internal/rai/codex_configure.go:159-163 | every command keeps the nesting of the two journals |
| CodexJournal.OneJournalLess | internal/rai/codex_restore.go:256-282 | each unconfigure removes exactly one journal, the temporary one first |
| CodexJournal.UnconfigureRestoresOriginal | internal/rai/codex_restore.go:164-282 | after any run in which no interrupted repeated configure loses the original, unconfiguring until no journal remains gives the original bytes back; the original tree if commands were interrupted |
| CodexJournal.ConfigureKeepsBaseline | internal/rai/codex_restore.go:164-214 | a second configure over an edited install, then unconfigure, leaves exactly what unconfiguring the edited file would have left |
| CodexJournal.FirstConfigureUndone | internal/rai/codex_restore.go:164-282 | a first configure of its kind, a temporary switch over an edited install included, is taken back without a trace |
| CodexJournal.InterruptedRepeatRecovers | internal/rai/codex_restore.go:201-205 | from every state a run reaches, a repeated configure that stops between its writes can be undone, if and only if the original is recoverable from what is installed |
| CodexJournal.RepeatedInterruptRecovers | internal/rai/codex_restore.go:201-205 | configure, interrupted configure, unconfigure give the original tree, if and only if the first install agrees key by key with the original or the second |
| CodexJournal.RepeatedInterruptLoses | internal/rai/codex_restore.go:201-205 | the run in which it does not |
| WebSocketTurns.SessionInOrder | internal/app/native_websocket.go:407-537 | in every reachable state, settled turns, the active one and the pending ones are the log of starts, and no key settles twice |
| WebSocketTurns.SettledForGood | internal/app/native_websocket.go:407-537 | settled turns are never changed or dropped |
| WebSocketTurns.ReplayOnlyRenames | internal/app/native_websocket.go:462-491 | a terminal whose key has settled, at any later point, can only rename the active turn, and changes nothing exactly when it names no other model |
| WebSocketTurns.ReplayRenames | internal/app/native_websocket.go:464-468 | the run in which a replayed terminal renames the next turn |
| WebSocketTurns.SettledCost | internal/app/native_websocket.go:933-938 | saturating accrual is the capped exact sum of the turn costs |
| WebSocketTurns.SettledUsage | internal/app/native_websocket.go:914-931 | merging results gives the capped exact sum of every usage field |
| WebSocketTurns.SettleTotals | internal/app/native_websocket.go:499-540 | settling a turn loses no request, forwarded or response byte and counts none twice |
| WebSocketTurns.ResponseBytesAccounted | internal/app/native_websocket.go:499-500 | response bytes are those of the settled turns plus the active one |
| WebSocketTurns.TalliedSettle | internal/app/native_websocket.go:174-178 | cost, completeness, usage and keys of the record follow the settled turns |
| WebSocketTurns.Accounting.constructor | internal/app/native_websocket.go:344-380 | the first frame begins the first turn |
| WebSocketTurns.SessionPendingFresh | internal/app/native_websocket.go:73-81 | in every reachable state the waiting turns have received nothing and nothing is noted of them |
| WebSocketTurns.NextTurnStartsFresh | internal/app/native_websocket.go:529-537 | a turn that becomes active keeps nothing of the one before it: no bytes, model or times |
| WebSocketTurns.Accounting.DownstreamFrame | internal/app/native_websocket.go:407-442 | a client frame begins a turn, queues one, or adds to the active one, with every counter; the record stays what the ledger says |
| WebSocketTurns.Accounting.UpstreamFrame | internal/app/native_websocket.go:445-548 | an upstream frame is counted, and a terminal settles the active turn, and goes on downstream, only once its charge is durable; the accrued cost grows by the assessed cost of a billable terminal that did not fail, and every counter, the reply and the model name are stated after every frame |
| WebSocketTurns.FrameCost | internal/app/native_websocket.go:158-178 | a frame adds a charge exactly when it settles a turn: the assessed cost if the session is billable and persisted and the terminal did not fail; completeness branch by branch |
| WebSocketTurns.SessionCost | internal/app/native_websocket.go:158-178 | over every session the charges are the assessed costs of its settling, billable, non-failed terminals |
| WebSocketTurns.FailedTurnIsFree | internal/app/native_websocket.go:165-170 | a failed terminal leaves the accrued cost and its completeness as they were |
| WebSocketTurns.NothingChargedUnbillable | internal/app/native_websocket.go:158-170 | a session that is not billable never accrues a cost |
| WebSocketTurns.Accounting.SettleActive | internal/app/native_websocket.go:505-539 | the turn is recorded and the next pending one becomes active |
| CircuitBreaker.BreakerState.Allow | internal/gateway/admission.go:161-178 | the verdict and the new probe flag |
| CircuitBreaker.BreakerState.CancelProbe | internal/gateway/admission.go:180-187 | only a probe clears the flag |
| CircuitBreaker.BreakerState.RecordOutcome | internal/gateway/admission.go:189-205 | a success closes, a failure counts and may open |
| CircuitBreaker.BreakerStaysConsistent | internal/gateway/admission.go:161-205 | failures reach the threshold exactly when a deadline is set; a probe exists only beside one |
| CircuitBreaker.StatusPredictsAdmission | internal/gateway/admission.go:207-222 | the reported circuit is what the next caller meets |
| CircuitBreaker.OpensAtThreshold | internal/gateway/admission.go:161-205 | after any outcomes it is open exactly while the last threshold ones failed and the duration since the last has not passed; then it lets one caller probe, and one success closes it |
| CircuitBreaker.OneProbeAtATime | internal/gateway/admission.go:161-187 | everybody else meets an open breaker until the probe ends |
| Admission.OperationMoves | internal/gateway/admission.go:75-147 | every operation of acquire and release takes or gives back exactly what it says |
| Admission.EndingMoves | internal/gateway/admission.go:103-159 | cancelled waits and releases, repeated ones included, keep the books |
| Admission.RunConserves | internal/gateway/admission.go:75-159 | under every interleaving slots, waiters and body budget equal what the callers hold, within their limits |
| Admission.WeightsAreSizes | internal/gateway/admission.go:120-126 | in every run each caller holds the size of its own request, at least one byte and at most the whole budget |
| Admission.TooLargeTogether | internal/gateway/admission.go:120-145 | two requests that together exceed the body budget never hold leases at once |
| Admission.WithinLimits | internal/gateway/admission.go:75-147 | in every run leases, leased bytes and waiting callers stay within their limits |
| Admission.TokenUntilReturn | internal/gateway/admission.go:95-101 | a waiter token is held until acquire returns, the wait for body budget included |
| Admission.LeasedAtOnce | internal/gateway/admission.go:75-147 | with a free slot and enough budget a caller gets its lease, holding exactly one slot and its bytes |
| Admission.ReleasedInFull | internal/gateway/admission.go:149-159 | a release gives everything back and ends the probe; repeated, it does nothing |
| Admission.TurnedAwayWithoutQueue | internal/gateway/admission.go:86-119 | with all slots taken and no queue the caller is turned away and nothing changes |
| Admission.TurnedAwayByFullQueue | internal/gateway/admission.go:94-104 | and so it is when the queue is full |
| Admission.WaitsInQueue | internal/gateway/admission.go:94-114 | with room in the queue it waits with a token until a slot is free, or leaves without a trace |
| Admission.TooLittleBudget | internal/gateway/admission.go:127-143 | with too little budget it is turned away or waits with its slot, and giving up returns the slot |
| Admission.WaiterGetsBudget | internal/gateway/admission.go:127-143 | a caller waiting for budget takes it as soon as there is enough, up to the last byte |
| Admission.TurnedAwayByBreaker | internal/gateway/admission.go:75-80 | an open breaker turns callers away before they take anything |
| Admission.QuiescentMeansEmpty | internal/gateway/admission.go:75-159 | once all acquires have returned and all leases are released, everything is zero |
| Admission.BreakerOverRuns | internal/gateway/admission.go:161-205 | over whole runs an active probe has a live grantee, and two grants are separated by an outcome or a probe end |
| Admission.NoStuckProbe | internal/gateway/admission.go:149-187 | once every caller is finished no probe is active |
| Admission.AtMostOneProbe | internal/gateway/admission.go:161-205 | in every run in which no outcome is recorded beside a probe, at most one probe is in flight and the flag says whether one is |
| Admission.OvertakingAllowsTwo | internal/gateway/admission.go:189-205 | from every reachable state with a probe in flight, one recorded outcome is enough for some continuation to have two |
| Admission.TwoProbesInFlight | internal/gateway/admission.go:189-205 | such a run from the start |
| Admission.DisabledOverRuns | internal/gateway/admission.go:164-194 | without a positive threshold no run opens the breaker, grants a probe or logs an outcome, and every caller is let in to try for a slot |
| RateLimit.RateState.AllowRate | internal/app/rate.go:14-49 | sweep, scan and append compute the served state and decision, for every clock reading |
| RateLimit.ServeFollowsHistory | internal/app/rate.go:14-49 | in clock order the decision is the one the full grant history gives, and neither pruning nor the sweep changes any later one |
| RateLimit.DecisionsFollowHistory | internal/app/rate.go:14-49 | so it is over every run in clock order, from the start |
| RateLimit.Sweep | internal/app/rate.go:22-35 | the sweep keeps the live part of every list and drops the empty ones, in any key order |
| RateLimit.Prune | internal/app/rate.go:36-41 | the scan keeps exactly the timestamps from the cutoff on |
| RateLimit.LiveIsWindow | internal/app/rate.go:37-42 | the live part of an ordered history is as long as the closed window from the cutoff to now |
| RateLimit.NoWindowOverrun | internal/app/rate.go:14-49 | with a fixed limit no closed 60 second interval holds more than limit grants |
| RateLimit.ExactlyAMinute | internal/app/rate.go:18-49 | with a limit of one a second request passes exactly when the first is more than 60 seconds old |
| RateLimit.BurstIsCut | internal/app/rate.go:42-49 | of a burst at one moment exactly limit requests pass |
| RateLimit.OtherKeysDoNotCount | internal/app/rate.go:36-49 | the grants of other keys make no difference |
| RateLimit.NoLimitAlwaysPasses | internal/app/rate.go:15-17 | without a positive limit every request passes and leaves no trace |
| RateLimit.RunLogs | internal/app/rate.go:18-47 | in every run, whatever the order of the clock readings, each kept list is the end of the log of grants, and what was dropped is a minute older than the latest reading |
| RateLimit.LateRequest | internal/app/rate.go:18-47 | any request of any run is granted or refused against its own window exactly when the forgotten grants, the stuck ones and those ahead of it make up the difference |
| RateLimit.OnTimeRequest | internal/app/rate.go:18-47 | a request on time is never granted against its window, in any run, and refused against it exactly when stuck grants make up the difference |
| RateLimit.RunThenOnTime | internal/app/rate.go:14-49 | and so it is from the start, after any requests in any order of their readings |
| RateLimit.AfterOneLateGrant | internal/app/rate.go:36-45 | after one late grant that is when it has left the window, a grant before it has not, and the window is one short of the limit |
| RateLimit.LateGrantRefusesOnTime | internal/app/rate.go:36-45 | the run in which a late grant makes a request on time be refused |
| RateLimit.LateRequestWronglyGranted | internal/app/rate.go:18-35 | the run in which a sweep at a later reading lets a second grant through |
| RateLimit.LateRequestWronglyRefused | internal/app/rate.go:18-44 | the run in which a later grant refuses an earlier request |
| RollingCapture.Capture.Write | internal/app/inference.go:24-65 | after any sequence of writes the ring holds the last bytes and detail the first ones |
| RollingCapture.Capture.WriteRing | internal/app/inference.go:37-63 | every branch of the ring write keeps the last max bytes |
| RollingCapture.OverwriteSlides | internal/app/inference.go:60-63 | the two wrapping copies drop the oldest bytes and append the new ones |
| RollingCapture.LastOfConcat | internal/app/inference.go:37-47 | what a write needs of the past is the last max bytes |
| RollingCapture.Capture.Bytes | internal/app/inference.go:66-74 | exactly the last min(total, max) bytes |
| RollingCapture.Capture.Info | internal/app/inference.go:75-77 | the first 32 KiB, a correct truncation flag and the total |
| FirstToken.AnySplitFindsExactly | internal/app/first_token.go:61-100 | however the stream is cut, the scan ends in the state its lines determine, has found content exactly when an event of the stream carries it, and holds at most 1 MiB |
| FirstToken.BytesAreLines | internal/app/first_token.go:66-99 | the byte scanner is the line scanner |
| FirstToken.FoundExactly | internal/app/first_token.go:61-100 | content is found exactly when some complete, non-oversized event's joined data satisfies the predicate |
| FirstToken.OneDataLine | internal/app/first_token.go:66-99 | the delta of a data line is its text, without the optional space and with either line end, up to 1 MiB |
| FirstToken.TwoDataLines | internal/app/first_token.go:91-95 | two data lines are joined by a newline |
| FirstToken.OtherLinesAreIgnored | internal/app/first_token.go:91-95 | a line of any other field contributes nothing |
| FirstToken.Observer.Write | internal/app/first_token.go:61-100 | the timestamp is set once, by the write that completes the first such event |
| FirstToken.Observer.WriteByte | internal/app/first_token.go:66-99 | line and data together never exceed 1 MiB |
| Pricing.CostNanoUSD | internal/pricing/cost.go:13-43 | for all word-sized inputs the cost is the exact sum of the eight buckets at their own rates, capped |
| Pricing.MultiplyIsCapped | internal/pricing/cost.go:52-60 | saturating multiplication is the capped product |
| Pricing.AddIsCapped | internal/pricing/cost.go:62-67 | saturating addition of capped amounts is the capped sum |
| Pricing.InputPartition | internal/pricing/cost.go:14-20 | the four input buckets partition the prompt, and no more than the cached tokens get the cached rates |
| Pricing.InputBuckets | internal/pricing/cost.go:14-20 | the four input buckets from the counters alone; without images the cached text is the cached part of the prompt |
| Pricing.OutputBuckets | internal/pricing/cost.go:22-50 | the output buckets, the cache writes, and when reasoning is taken out of the completion |
| Pricing.OutputCovers | internal/pricing/cost.go:22-27 | output buckets never charge fewer tokens than completed, and exactly those when reasoning is among them |
| Pricing.CostFallsWithCaching | internal/pricing/cost.go:13-43 | more cached tokens never cost more when cached rates do not exceed uncached ones |
| Billing.ParseResponse | internal/billing/usage.go:27-96 | every counter is the maximum over the events, and the total is lifted |
| Billing.ProviderNamesAgree | internal/billing/usage.go:98-147 | each of the nine counters is the largest of its provider names; with explicit cache fields the prompt covers the cached part; image output falls back on the output tokens |
| Billing.OrderAndRepetitionDoNotMatter | internal/billing/usage.go:77-94 | reordering, replaying or reading events twice gives the same usage |
| Billing.ExtraEventsNeverLower | internal/billing/usage.go:98-147 | more events never lower a counter |
| Billing.TotalCovers | internal/billing/usage.go:89-94 | the total is exactly the larger of the reported totals and of prompt, cache writes and completion, saturating |
| Billing.CountersAreLargest | internal/billing/usage.go:98-147 | every other counter is the largest that any event contributed |
| Heatmap.Build | internal/heatmap/heatmap.go:53-130 | the loops produce a report that meets its specification, with levels that are quartiles of the active days |
| Heatmap.Aggregate | internal/heatmap/heatmap.go:56-70 | the maps hold the totals by model and by day and model |
| Heatmap.RankModels | internal/heatmap/heatmap.go:71-79 | models ranked by tokens and name, whatever the map order |
| Heatmap.SummarizeDay | internal/heatmap/heatmap.go:96-105 | a day's total and favourite, whatever the map order |
| Heatmap.SetLevels | internal/heatmap/heatmap.go:117-128 | the level loop counts the boundaries reached |
| Heatmap.SortedSorts | internal/heatmap/heatmap.go:117-117 | the values the boundaries are taken from are those of the active days, in ascending order |
| Heatmap.LevelsRankDays | internal/heatmap/heatmap.go:117-128 | an active day is above level q exactly when more than q quarters of the active days, one aside, have no more tokens than it |
| Heatmap.ReportIsOrderFree | internal/heatmap/heatmap.go:53-130 | permuted rows give the same report |
| Heatmap.ReportConserves | internal/heatmap/heatmap.go:53-116 | the listed models add up to the kept rows; the days do exactly when every kept row is dated on an existing day |
| Heatmap.DaysAreSums | internal/heatmap/heatmap.go:56-110 | every day of the window, first and last included, is listed with the tokens of its positive rows |
| Heatmap.FiguresAreThoseOfDays | internal/heatmap/heatmap.go:106-115 | total, active days and peak are those of the listed days |
| Heatmap.ModelsAreSums | internal/heatmap/heatmap.go:60-92 | each listed model has the tokens of its rows in the window, unnamed ones under Unknown, ranked by tokens and name, with its colour |
| Heatmap.AllModelsListed | internal/heatmap/heatmap.go:80-95 | a seventh line for all other models, and no model is missing |
| Heatmap.FavoriteIsLargest | internal/heatmap/heatmap.go:97-109 | the favourite is ahead of every other model of its day by tokens, then by name, and has its colour in the list |
| Heatmap.LessIsLexicographic | internal/heatmap/heatmap.go:74-79 | names are ordered by the first character in which they differ |
| Heatmap.LevelsAreMonotone | internal/heatmap/heatmap.go:117-128 | level 0 exactly on empty days, 1 to 4 otherwise, monotone in tokens, 4 on every peak day |

## Left out

- Text codecs (TOML, YAML, JSON) and comment-preserving patchers: a document is its tree, and the journals see bytes through an abstract codec that reads back what it writes; an encoding or decoding error refuses before the first write.
- In-place mutation of nested Go maps and its aliasing: documents are values, and the loops of restore and diff update a local document; `configSet` and `configDelete` are functions on values.
- `reflect.DeepEqual` on values that are not equal to themselves (NaN): equality of trees is structural.
- Masking loops of `maskCodexAuthField`, and the loop that collects headers in `codexAuthGroup`: written as one map comprehension each; header names fold by ASCII case.
- How an installer builds its settings, except the Hermes provider list: the installed document is any document.
- CodexJournal.UnconfigureRestoresOriginal: excludes edits by the user between commands, for which the tree laws of CodexRestore speak, and unreadable journals, which every command refuses.
- Files that another process changes while a save or restore is under way: the source compares once before writing and the model does the same; the second read in Codex restoration is not modelled.
- Reading errors other than absence, permissions, directories and the temporary files behind an atomic replace: a write happens completely or not at all.
- HTTP handlers, routing, sessions, OAuth, upstream probes, metrics, request logs, SVG rendering, the web UI and the CLI.
- WebSocket handshake, admission, price resolution and error codes: frames arrive decoded, with their assessed charge and the outcome of the durable insert; the store is not part of this model.
- Overflow of byte counters and of heatmap sums: plain 64-bit additions are unbounded here; saturating ones are exact.
- The fairness queue of the weighted semaphore and the choice of a ready channel: a body request may fail while others wait, and any order of callers is allowed.
- The counter of rejected requests and the numeric fields of the admission status.
- `internal/cpa/admission.go`: a near copy of the gateway controller without a disabled mode.
- RateLimit.NoWindowOverrun: requires requests to enter in clock order, which the source does not enforce across callers; LateRequest says what one late request does.
- RollingCapture.Capture.Bytes: returns a copy, where the source hands out its own buffer while it has not wrapped.
- JSON decoding of usage events and of generated deltas: events arrive decoded, and the delta test is a parameter.
- The request id, model and service tier of a parsed response, which follow the last event rather than a maximum.
- Float-based price scaling and rule multipliers in `internal/pricing/pricing.go`.
- Library sorting: `sort.Slice` is a function of the model (`Sorted`, shown to sort by `SortedSorts`) and an insertion in the ranking.
- Calendar arithmetic: the days of the window are given as an ordered list of keys.
