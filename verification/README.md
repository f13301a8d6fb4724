# Router protocols, modelled and proved in Dafny

The router sits between native coding CLIs and model providers. It takes over configuration files
and databases it does not own, keeps its own state durable, translates and retries event streams, and
guards its local hop with credentials. This project models those protocols and proves what they keep.

Each protocol has a specification over values and, where the program changes things step by step, a
class or a method with the program's fields and loops, proved equal to that specification. The
properties are lemmas about the specification, over every input, every run and every placement of
failures.

| files | part of the router |
|---|---|
| `Faults`, `DirectTakeover`, `DirectRecovery`, `DirectApply`, `DirectCliManager`, `DirectRoutes`, `DirectEntries` | takeover of the native CLIs' configuration files |
| `CcSwitchOps`, `CcSwitchPlan`, `CcSwitchPhases`, `CcSwitchAnswers`, `CcSwitchTakeover`, `JsonString`, `LineLens`, `Toml`, `TomlScan` | takeover of the CC-Switch database |
| `Percent`, `PercentForms`, `Gateway` | the URLs written into that database and their way back upstream |
| `TakeoverState`, `Lifecycle` | the guard that refuses to stop during a takeover |
| `LockProtocol`, `BackupRing`, `DurableStore` | locking, backups and read-modify-write of the JSON stores |
| `Text`, `SseLines`, `UsageTees`, `TeeOutputs` | incremental event-stream readers |
| `ChatTranslator`, `ChatOutput`, `ChatCalls`, `ChatHeader`, `ChatStream` | chat completions to Responses events |
| `ResponsesCompat`, `CompatTurn`, `CompatEvents`, `CompatLeaving`, `CompatProxy` | the buffering retry proxy |
| `ClaudeTurn`, `ClaudeReports`, `ClaudeForwarder` | the terminal logic of a forwarded Claude turn |
| `HopRoutes`, `HopCredentials`, `HopVerdicts` | hop credentials |
| `Transport` | dispatchers per origin |
| `UsageLedger`, `LedgerColumns` | the usage ledger |

A process that dies keeps executing in the model, but its writes no longer take effect; that is what a
crash between two writes leaves on disk. Failures are a sequence indexed by the number of the step, so a
statement for every sequence is a statement for every placement.

## Findings

Places where the code does less than its comments or a reader might expect. Each is kept as it is, with
an input that shows it and the exact condition under which the stronger claim holds.

- Direct takeover: after a restore that crashed once it had revoked the credentials, a further restore
  that fails on a file rolls forward and re-activates the record with revoked credentials; no unforced
  restore is accepted then (`FailedWriteBlocksRestore`). If no write ever throws, crashes alone never lead
  there (`CrashesNeverBlockRestore`), and `AcceptedIff` says exactly when a restore is accepted.
- Direct takeover: a forced restore of another snapshot drops the record, and strands the takeover
  (`ForcedRestoreStrandsTakeover`) unless the condition in `ForcedRestoreIff` holds.
- Direct takeover: a snapshot forced during a takeover records taken-over contents as originals unless
  its files are at their base (`ForcedSnapshotIff`). Restoring it once the takeover has ended brings those
  contents back with no record of them (`ForcedSnapshotComesBack`, `RestoringATakeoverStrandsIff`).
- Chat translator: text events always carry output index 0, which is their message's own index exactly
  when no call opened first (`TextPointsAtItsMessageIff`).
- Chat translator: text loses its place in the completed output when a call opened first
  (`TextAfterToolIsLost`), and fragments that come after their call was closed are missing from it
  (`LateFragmentIsLost`); `CompleteExactlyWhenInOrder` gives the exact condition on the lines.
- Claude usage tee: a `null` payload makes a line handler throw, and what the tee counts after it depends
  on the chunking (`UsageAfterNullDependsOnChunks`); `ClaudeChunkingIff` is the exact condition. The
  exception escapes the `data` listener (lib/proxy/claude.js:984) and nothing in the repository catches
  it, so this concerns a host that survives it; another process ends there.
- Retry proxy: an upstream read error in mid-stream is answered with a failure event but reported as a
  success (`BrokenStreamIsReportedAsSuccess`); `FailureReportedAsSuccessIff` says exactly when.
- Claude turn: a client that leaves while the repair hook is deciding does not stop the next dial
  (`DialAfterDisconnect`); `DialFollowsDisconnectIff` says exactly when a dial follows a disconnect.
- Direct routes: the route planned for a Codex role named `sub` or `aux`, in any case, is not the one its
  URL is verified under (`CodexRoutesAgreeIff`). The bundle is issued exactly when the planned routes
  differ (`BundleAdmittedIff`), and the files are written exactly when every `sub` has the provider of a
  `default` (`WritableIff`). Then a written URL is accepted with its token exactly when its role is not
  `aux` (`CodexAcceptedIff`). The inputs: `aux` is refused (`AuxIsRefused`), `sub` with the provider of
  `default` is accepted as `default` (`SubLikeDefaultIsAccepted`), and with another provider no token is
  found and nothing is written (`SubUnlikeDefaultIsNotWritten`).
- Direct routes: roles whose names agree but for case, or in their first 48 characters, share one provider
  entry, and the later one's provider, URL and token win (`MixedCaseSharesAnEntry`); `EveryAgentHasItsOwnIff`
  and `SameEntryIff` say exactly when every agent keeps its own.
- Usage ledger: an append that throws once its line has landed leaves the id out of the cached index, and
  a retry in the same process stores the event again (`RetryStoresTwice`); so does an index whose reading
  broke off at an unreadable shard, which is kept (`BrokenReadingStoresTwice`). `IndexIsCompleteIff` says
  exactly when the index is complete, `NeverTwiceIff` exactly when no id is ever stored twice.
- CC-Switch: a value of the TOML text that was not written the way values are printed comes back in
  another spelling (`SingleQuotesAreLost`, `SingleQuotedExample`); `RestoreIsExactIff` is the exact
  condition.
- Backups: recovery can lead back to an older generation (`RecoveryGoesBack`); without damage at rest the
  primary never goes back (`UndamagedPrimaryAdvances`), and `RecoveryKeepsGenerationIff` says exactly
  when a damaged primary comes back at the generation it had.

## Model

| member | source | states |
|---|---|---|
| DirectRecovery.EveryRunIsConsistent | lib/direct-cli-config/index.js:216-525 | for every run of snapshot, apply and restore with writes failing and processes dying anywhere: each file holds its original or what the record planned, a record exists whenever any file differs, an active record means all files are as planned |
| DirectRecovery.UnforcedRunsCover | lib/direct-cli-config/index.js:465-486 | runs whose restores are unforced or name no snapshot meet the hypothesis of that invariant |
| DirectRecovery.AcceptedIff | lib/direct-cli-config/index.js:427-486 | an unforced restore is accepted exactly when the record is not active, or its profile is unchanged and its credentials are live |
| DirectRecovery.QuietRestoreCompletes | lib/direct-cli-config/index.js:465-525 | from any consistent world, however many restores crashed, an accepted restore that meets no further fault puts every file back, removes the record and leaves the credentials revoked |
| DirectRecovery.UnforcedRestoreOverwritesNoEdit | lib/direct-cli-config/index.js:427-490 | even with outside edits, an unforced restore is admitted only when each managed file holds its planned or its snapshot contents |
| DirectRecovery.CrashesNeverBlockRestore | lib/direct-cli-config/index.js:334-525 | over every run in which processes die but no write throws, a restore is accepted while profile and credentials are current |
| DirectRecovery.EveryCrashedRunRestores | lib/direct-cli-config/index.js:334-525 | after every such run one undisturbed unforced restore returns each file to its snapshot and removes the record |
| DirectRecovery.FailedWriteBlocksRestore | lib/direct-cli-config/index.js:494-522 | a run with one thrown write after which no unforced restore is accepted |
| DirectRecovery.RollForwardReopens | lib/direct-cli-config/index.js:494-512 | every restore that fails on its first file after the credentials were revoked re-activates the record and is refused from then on |
| DirectRecovery.ForcedRestoreIff | lib/direct-cli-config/index.js:465-525 | a forced restore of any snapshot keeps the invariant exactly when the applied files the snapshot does not list are already original |
| DirectRecovery.ForcedRestoreStrandsTakeover | lib/direct-cli-config/index.js:465-525 | a snapshot, an apply after the profile has gained a role, and a forced restore of that snapshot: the new role's file stays taken over and no record says so |
| DirectRecovery.ForcedSnapshotIff | lib/direct-cli-config/index.js:216-237 | a snapshot forced during a takeover keeps the invariant exactly when the files it reads are at their base |
| DirectRecovery.ForcedSnapshotComesBack | lib/direct-cli-config/index.js:465-525 | whenever such a snapshot is later restored by force, its files return to what they held when it was taken, the record is gone and nothing else changes |
| DirectRecovery.RestoringATakeoverStrandsIff | lib/direct-cli-config/index.js:465-525 | once the takeover has ended, that restore leaves the files at their base exactly when the snapshot was taken of them at their base |
| DirectApply.ApplyRefusedIff | lib/direct-cli-config/index.js:348-359 | in every world: an apply from a named snapshot is refused, and then writes nothing at all, exactly when the snapshot is not there or records another profile, another profile content or other files than the targets, or some file no longer holds what it recorded |
| DirectApply.ApplyDuringTakeover | lib/direct-cli-config/index.js:338-343 | while a takeover is recorded apply writes nothing, and reports it as active exactly when it is of this profile, unchanged, with every file as planned and every credential live |
| DirectApply.ApplyCompletes | lib/direct-cli-config/index.js:348-399 | an apply whose snapshot and plan fit and that meets no fault succeeds with the planned contents in the planned files, nothing else changed, and an active record of plan, snapshot and fresh credentials |
| DirectApply.UnfitPlanIsRefused | lib/direct-cli-config/index.js:360-366 | a plan for other files is refused with every file and the record as they were and the credentials issued for it revoked |
| DirectApply.SnapshotRecords | lib/direct-cli-config/index.js:216-237 | what a snapshot records, and when it is refused |
| DirectApply.ApplyTakesItsOwnSnapshot | lib/direct-cli-config/index.js:344-359 | an apply without a snapshot takes one, which fits, and goes on as if it had been named |
| DirectApply.RestoreUndoesApply | lib/direct-cli-config/index.js:334-525 | an undisturbed restore after an undisturbed apply gives back exactly the files the apply started from, with no record and the credentials revoked |
| DirectApply.RestoreRefusedIff | lib/direct-cli-config/index.js:427-490 | in every world: a restore of the recorded takeover is refused, and then changes nothing, exactly when its snapshot is gone or, unforced, a file, the profile or a credential has drifted in a way the recorded phase does not account for |
| DirectApply.RestoreNeedsForceIff | lib/direct-cli-config/index.js:465-486 | a snapshot that is not the recorded one is restored only by force |
| DirectApply.FailedApplyLeavesNothing | lib/direct-cli-config/index.js:400-424 | wherever a single write of an apply throws, if it fails then every file is as before, no record is left and its credentials are revoked |
| DirectApply.FailedRestoreLosesNothing | lib/direct-cli-config/index.js:487-525 | wherever a single write of a restore throws, the takeover is either as it was or undone in full but for the record |
| DirectTakeover.SweepEffect | lib/direct-cli-config/index.js:64-74 | restoring or writing a list of files with any faults touches only listed files, each ending as it was or as listed; all as listed when it succeeds |
| DirectCliManager.Manager.PutFile | lib/direct-cli-config/index.js:64-74 | one file write or removal, in place, is the specified step |
| DirectCliManager.Manager.PutFiles | lib/direct-cli-config/index.js:386-394 | the loop over files is the specified sweep |
| DirectCliManager.Manager.CreateSnapshot | lib/direct-cli-config/index.js:216-237 | the snapshot command is its specification |
| DirectCliManager.Manager.RollBack | lib/direct-cli-config/index.js:400-424 | the catch block of apply is its specification |
| DirectCliManager.Manager.ApplyProfile | lib/direct-cli-config/index.js:334-425 | the apply command is its specification, on whose runs the invariant is proved |
| DirectCliManager.Manager.RestoreSnapshot | lib/direct-cli-config/index.js:465-525 | the restore command is its specification |
| DirectRoutes.CodexRoutesAgreeIff | lib/direct-cli-config/index.js:182-191 | for every role name: the planned route is the one the proxy verifies for its URL exactly when the name is not `sub` or `aux`, and the one its token is looked up under exactly when it is not `sub` |
| DirectRoutes.BundleAdmittedIff | lib/direct-cli-config/index.js:171-214 | for all role names the profile store admits: the bundle is issued exactly when no two entries have the same provider and, but for case, the same name |
| DirectRoutes.WritableIff | lib/direct-cli-config/index.js:207-309 | every entry finds its token, so that the files can be written, exactly when each role named `sub` has the provider of one named `default` |
| DirectRoutes.CodexAcceptedIff | lib/proxy/codex.js:349-365 | of every takeover that is issued and written: a written URL is accepted with its token until that expires exactly when its role is not named `aux`, and the token opens no route outside the plan |
| DirectRoutes.CodexTakeoverIsAccepted | lib/direct-cli-config/index.js:171-214 | for every profile of plain role names the bundle is issued, each token is looked up under the planned route, and every written URL is accepted with it until it expires |
| DirectRoutes.AuxIsRefused | lib/proxy/codex.js:349-365 | a profile with a role `aux`: issued and written, its URL refused |
| DirectRoutes.SubLikeDefaultIsAccepted | lib/direct-cli-config/index.js:171-214 | a profile with a role `sub` whose provider is `default`'s: its URL is accepted as `default`'s |
| DirectRoutes.SubUnlikeDefaultIsNotWritten | lib/direct-cli-config/index.js:207-309 | a profile with a role `sub` and another provider: issued, but no token is found for it |
| DirectEntries.WriteEntries | lib/direct-cli-config/index.js:291-301 | the loop that writes provider entries, later ones over earlier ones of the same name |
| DirectEntries.LastRoleWins | lib/direct-cli-config/index.js:291-301 | the entry an agent refers to holds the last role of the same entry name |
| DirectEntries.EveryAgentHasItsOwnIff | lib/direct-cli-config/index.js:291-301 | every agent uses its own role's URL and token exactly when no two roles have the same entry name |
| DirectEntries.SameEntryIff | lib/direct-cli-config/index.js:275-295 | two admitted names share an entry exactly when neither is `default` and their first 48 characters agree but for case |
| DirectEntries.MixedCaseSharesAnEntry | lib/direct-cli-config/index.js:275-301 | a profile with the roles `Foo` and `foo` of different providers: issued and written, and the agent of the first uses the second's entry |
| DirectRoutes.ClaudeTakeoverIsAccepted | lib/direct-cli-config/index.js:239-257 | the Claude token opens exactly the main route and the subagent's |
| DirectRoutes.ClaudeUrlCarries | lib/proxy/claude.js:366-379 | the path the Claude proxy splits without decoding yields the provider and session that were written |
| DirectRoutes.SubModelRoundTrip | lib/proxy/claude.js:386-398 | the subagent model written for Claude decodes to its provider and model |
| CcSwitchOps.MutateCommits | lib/ccswitch/operations.js:47-93 | a mutation is refused exactly when some field is neither settled nor mutable; otherwise every managed field holds its replacement, everything else is untouched, and it never fails halfway |
| CcSwitchOps.VerificationHolds | lib/ccswitch/apply.js:116-127 | the check after a commit passes always when applying, and when restoring exactly if no original equals its replacement, which the upstream-loop check of apply excludes |
| CcSwitchOps.MutateTwice | lib/ccswitch/operations.js:47-93 | each direction is idempotent: a second run finds nothing to do |
| CcSwitchOps.RestoreAfterEdits | lib/ccswitch/operations.js:47-93 | whatever was edited outside the managed fields, restore commits, brings every managed field back and keeps every edit |
| CcSwitchOps.RestoreUndoesApply | lib/ccswitch/operations.js:47-93 | apply then restore is the identity on the whole database as parsed: settings, TOML text around the literals and their values; the spelling of a literal and of the JSON text is not part of it |
| CcSwitchOps.ForceTouchesManagedOnly | lib/ccswitch/operations.js:37-45 | force commits exactly when every field can be read, and changes managed fields only |
| CcSwitchOps.SetEffect | lib/ccswitch/operations.js:66-89 | writing one field reads back and changes no other field and nothing that is not a field |
| CcSwitchOps.SameDb | lib/ccswitch/operations.js:5-23 | a database is determined by its shape and the values of its fields |
| CcSwitchOps.ReplaceIsViewed | lib/ccswitch/operations.js:73-77 | replacing a base URL in the TOML text is replacing it in the view of frame and values |
| CcSwitchPlan.NormalizeSelection | lib/ccswitch/plan.js:15-54 | which selections are accepted, and each error exactly when; taking over every provider needs the confirmation however it is asked for |
| CcSwitchPlan.CollectIsExact | lib/ccswitch/plan.js:56-94 | the collection lists the eligible fields of the selected providers and no others, with their values and local URLs |
| CcSwitchPlan.CollectIsSound | lib/ccswitch/plan.js:56-94 | no field is collected twice and every original is what the database holds |
| CcSwitchPlan.CollectedTakeoverIsReversible | lib/ccswitch/plan.js:95-102 | what passes the upstream-loop check can be applied, verified and put back to the same database as parsed, up to the spelling of literals and JSON text |
| CcSwitchPlan.EveryLocalUrlLeadsHome | lib/ccswitch/plan.js:115-126 | the URL written for a field is the router's address, `/ccswitch` and a path that, with any admissible suffix, resolves through the snapshot map to the URL it replaced: for every endpoint row, and for a provider's only setting |
| CcSwitchPhases.EveryRunIsConsistent | lib/ccswitch/apply.js:33-145 | over every run of applies and restores with faults anywhere, the database is the original or the fully taken-over one, as the phase says |
| CcSwitchPhases.ApplyKeeps | lib/ccswitch/apply.js:33-145 | one apply keeps that, and never reports a failed verification |
| CcSwitchPhases.RestoreKeeps | lib/ccswitch/restore.js:59-93 | one restore keeps that, never fails verification, and when it completes the database is original and the phase restored |
| CcSwitchPhases.TakenOverMeansActive | lib/takeover-state.js:52-59 | whenever the database differs from the original, the guard sees an active takeover |
| CcSwitchPhases.QuietRestoreCompletes | lib/ccswitch/restore.js:59-93 | from wherever earlier runs crashed, a restore that meets no further fault ends with all originals and an ended phase |
| CcSwitchAnswers.ApplyDeclinedIff | lib/ccswitch/apply.js:33-86 | in every world: an apply is declined, and then changes nothing, exactly when a check refuses it, a takeover is recorded that is not this one in full and for the same address, or what was collected is empty, loops or has drifted |
| CcSwitchAnswers.AlreadyActiveIff | lib/ccswitch/apply.js:35-52 | it answers that the takeover is active exactly when that is recorded and in the database in full for the same address, and the record says so or can be written |
| CcSwitchAnswers.ApplyTakesOver | lib/ccswitch/apply.js:87-145 | a first apply that is admitted, can start and meets no fault leaves every collected field at its local URL, nothing else touched, and the active record |
| CcSwitchAnswers.FailedApply | lib/ccswitch/apply.js:87-145 | which of its three writes throws decides what is left: database, record and the status it asks for |
| CcSwitchAnswers.RestoreAnswers | lib/ccswitch/restore.js:59-93 | an undisturbed restore puts every field back, counts those it changed and ends the takeover exactly when every field can be restored; otherwise it changes no field and records the conflict |
| CcSwitchAnswers.FailedRestore | lib/ccswitch/restore.js:59-93 | which write of a restore throws decides what is left |
| CcSwitchTakeover.Takeover.Mutate | lib/ccswitch/operations.js:47-93 | inspecting, refusing and the transaction on a working copy, as loops, are the specification |
| CcSwitchTakeover.RunSteps | lib/ccswitch/operations.js:61-90 | the transaction's loop is the specified fold and stops at the first throw |
| CcSwitchTakeover.CheckMutable | lib/ccswitch/operations.js:37-45 | the drift check over the actionable changes |
| CcSwitchTakeover.SelectActionable | lib/ccswitch/operations.js:47-52 | the changes that are not settled yet, in order |
| CcSwitchTakeover.Takeover.Apply | lib/ccswitch/apply.js:17-146 | apply with its phase writes is the specification |
| CcSwitchTakeover.Takeover.Restore | lib/ccswitch/restore.js:59-93 | restore with its phase writes is the specification |
| JsonString.QuoteRoundTrip | lib/ccswitch/common.js:97-102 | parsing a printed string literal gives the string back |
| Toml.ReplaceUpdatesOne | lib/ccswitch/common.js:115-127 | the replacement lands exactly when the occurrence exists and holds what is expected or force is given; the list of values then changes in that entry only, and otherwise the text is untouched |
| TomlScan.AssignmentIff | lib/ccswitch/common.js:95 | the scanner cuts a line into prefix, literal and suffix exactly as a grammar of blanks, key, equals sign, quoted literal and comment does |
| Toml.ReplaceIsLocal | lib/ccswitch/common.js:115-127 | only the characters of that literal change |
| Toml.ReplaceTwice | lib/ccswitch/common.js:115-127 | two replacements at one occurrence are the second one |
| Toml.RestoreIsExactIff | lib/ccswitch/common.js:115-127 | replacing and putting back restores every value, and the very text exactly when the literal was written as it is printed |
| Toml.SingleQuotesAreLost | lib/ccswitch/common.js:115-127 | a one-line config with its value in single quotes never comes back as it was, though its value does |
| Toml.SingleQuotedExample | lib/ccswitch/common.js:115-127 | such a config |
| Toml.ReparseAfterPut | lib/ccswitch/common.js:95-95 | a line whose literal is replaced by a printed one is again an assignment of that literal |
| Toml.ListBaseUrls | lib/ccswitch/common.js:104-113 | lists exactly the occurrences that decode, with their numbers |
| Toml.ReplaceBaseUrl | lib/ccswitch/common.js:115-127 | the replacing scan is the specification |
| LineLens.PutChangesOne | lib/ccswitch/common.js:115-127 | after a put the number and order of literals stay and only that one changes |
| LineLens.PutKeepsFrame | lib/ccswitch/common.js:115-127 | a put leaves the text around all literals alone |
| LineLens.SplitThenJoin | lib/ccswitch/common.js:95-95 | splitting a text into lines loses nothing |
| LineLens.ReplaceLiteral | lib/ccswitch/common.js:115-125 | the loop with its counter rewrites exactly the literal of that number, if it is admitted |
| LineLens.CollectLiterals | lib/ccswitch/common.js:104-111 | the loop visits every literal in order |
| Percent.RoundTrip | lib/ccswitch/common.js:82-86 | decoding a percent-encoded component gives every string back |
| Percent.EncodedIsSafe | lib/ccswitch/common.js:82-86 | an encoded component contains no separator and is empty only for the empty string |
| PercentForms.AsciiForms | lib/ccswitch/gateway.js:20-47 | which ASCII characters stand for themselves in a component, and the two upper-case digits of every other |
| PercentForms.EncodesUtf8 | lib/ccswitch/gateway.js:20-47 | every other character is printed as the escapes of its UTF-8 bytes |
| PercentForms.ReadAsPrinted | lib/ccswitch/gateway.js:20-47 | a character is never read from an overlong form |
| Gateway.ParseGatewayPath | lib/ccswitch/gateway.js:30-47 | shifting segments off a local list is the specified parse, with its errors |
| Gateway.ParseUndoesPrint | lib/ccswitch/gateway.js:20-47 | parsing a printed route with an added suffix gives the route and the suffix |
| Gateway.LocalUrlReachesUpstream | lib/ccswitch/upstream.js:15-22 | a printed route resolves to the first entry for its provider or row, and to its own upstream when it is the only one |
| TakeoverState.InactiveIff | lib/takeover-state.js:43-59 | a state counts as inactive exactly when absent, when it names an inactive phase, or when it shows no trace of a takeover |
| Lifecycle.StopStrandsNothing | lib/takeover-state.js:79-110 | when the guard lets the service stop, database and files are as before any takeover |
| LockProtocol.NeverTwoHolders | lib/durable-store.js:101-157 | however processes contend, crash, give up and restart, at most one is inside |
| LockProtocol.StaleLockIsRecovered | lib/durable-store.js:133-152 | a lock whose holder is gone lets a fresh contender in |
| LockProtocol.EveryRunIsSerial | lib/durable-store.js:218-273 | the stored document is what the committed jobs leave when run alone in the order they took the lock, and the revision counts them |
| LockProtocol.CasSaveSawTheLatest | lib/durable-store.js:245-256 | an optimistic save that commits replaced exactly the document its caller had seen: no write came between |
| LockProtocol.EveryRunStoresTheFold | lib/durable-store.js:218-273 | over every run the stored document is the fold of the callbacks and saved payloads in the order of the log, each of which had something to write |
| LockProtocol.UndisturbedJobIsDone | lib/durable-store.js:245-273 | a process that finds the lock free and runs undisturbed does its job on the stored document and leaves the lock free |
| BackupRing.EveryRunIsNewestFirst | lib/atomic-json.js:92-108 | over writes, recoveries, crashes at any file operation and damage at rest, readable slots stay newest first with the primary at least as new |
| BackupRing.WriteKeeps | lib/atomic-json.js:59-108 | a write that fails or crashes anywhere leaves the old or the new primary |
| BackupRing.LoadYieldsNewest | lib/atomic-json.js:118-144 | a load yields the default exactly when the primary is absent, the primary's own error exactly when nothing reads, and otherwise the newest surviving document |
| BackupRing.RecoveryIsIdempotent | lib/atomic-json.js:138-140 | a recovered document is the primary from then on |
| BackupRing.OnlyTheOldestIsLost | lib/atomic-json.js:92-108 | if no operation throws, a write that completes or dies loses at most the oldest backup |
| BackupRing.RingHoldsTheLatest | lib/atomic-json.js:92-108 | after any number of undisturbed writes the ring holds the most recent documents in order |
| BackupRing.UndamagedPrimaryAdvances | lib/atomic-json.js:59-108 | without damage at rest the primary is never unreadable and its generation never goes back |
| BackupRing.RecoveryKeepsGenerationIff | lib/atomic-json.js:118-144 | after any run, a readable primary that is damaged and then recovered is back at its generation exactly when a kept backup holds it, otherwise at the newest one kept, and stays damaged exactly when none reads |
| BackupRing.RecoveryGoesBack | lib/atomic-json.js:130-140 | two writes, a damaged primary and a recovery bring back the first write |
| DurableStore.OperationIsOneStep | lib/durable-store.js:245-273 | an operation's many file operations leave the document before or the one the job produces, the latter exactly when it reports the write |
| DurableStore.DamagedOperation | lib/durable-store.js:218-229 | with a damaged primary an operation works on the newest readable backup, and refuses without touching a file when there is none |
| DurableStore.MutateStores | lib/durable-store.js:260-273 | a mutate that reports its write has stored what its callback returned for the document it loaded, at the next revision; it reports no change exactly when the callback returned nothing |
| DurableStore.SaveStores | lib/durable-store.js:245-256 | a save that reports its write has stored its payload at the next revision; it conflicts exactly when a revision is expected and the stored one is another |
| DurableStore.JsonFile.RotateBackups | lib/atomic-json.js:92-103 | the downward shifting loop in the array is the specification |
| DurableStore.JsonFile.WriteJson | lib/atomic-json.js:105-108 | a backed-up write is the specification |
| DurableStore.JsonFile.LoadOrRecover | lib/atomic-json.js:118-144 | the recovery loop is the specification |
| DurableStore.Store.Save | lib/durable-store.js:245-256 | save under the lock is the specification |
| DurableStore.Store.Mutate | lib/durable-store.js:261-273 | mutate under the lock is the specification |
| SseLines.FeedAnyChunking | lib/proxy/codex.js:79-94 | a reader whose handler never throws reaches the same buffer and state under every chunking |
| SseLines.ChunkingUnobservableIff | lib/proxy/claude.js:161-235 | feeding a text in any number of chunks is feeding it whole, for every chunking, exactly when no line before the last complete one throws |
| SseLines.LineReader.Push | lib/proxy/claude.js:161-235 | the reader's loop over its buffer is the specification |
| UsageTees.ClaudeUsageIsSumsAndMaximum | lib/proxy/claude.js:136-159 | the counts are the sums of input and cache counts and the maximum of output counts |
| UsageTees.ClaudeReportsIff | lib/proxy/claude.js:237-261 | of an event stream usage is reported exactly when some usage object carried information |
| UsageTees.ClaudeChunkingIff | lib/proxy/claude.js:161-235 | every chunking of a Claude stream gives the same buffer, usage and deltas exactly when no line but possibly the last is a null payload |
| UsageTees.UsageAfterNullDependsOnChunks | lib/proxy/claude.js:161-235 | a null payload and then any line with usage: counted when read line by line, left in the buffer when read at once, on a host that survives the exception |
| UsageTees.FinalUsageIs | lib/proxy/claude.js:237-261 | an event stream ends with usage exactly when some usage object was informative, with the sums and the maximum; another body exactly when its own counts add up to something |
| UsageTees.ResponsesChunking | lib/proxy/codex.js:79-172 | both Responses tees reach the state of the unsplit stream under every chunking |
| TeeOutputs.StreamUsageIs | lib/proxy/codex.js:62-103 | under any chunking a Responses stream reports the counts of its unfinished last line if that has any, and otherwise of the last complete line that has |
| TeeOutputs.CountsAddUp | lib/proxy/codex.js:45-60 | fresh and cached input add up to the reported input, and counts are reported exactly when there are any |
| TeeOutputs.DeltasAreShown | lib/proxy/codex.js:135-172 | under any chunking the deltas of a Responses stream are those of its events in order, each tool input under the name its item was last added with |
| TeeOutputs.ClaudeDeltasAreShown | lib/proxy/claude.js:190-226 | the deltas of a Claude stream are the pieces of its blocks in order |
| ChatStream.EveryTraceIsWellFormed | lib/proxy/codex-transform.js:156-432 | for every sequence of lines the trace obeys the Responses contract: created first, items numbered in order, text events at index 0 and no text before its part is opened, each item closed at most once, with the concatenation of its deltas and its text, part and item ended one directly after the other, all closed before completion, one terminal event |
| ChatStream.TerminalIsLast | lib/proxy/codex-transform.js:406-431 | nothing follows a terminal event |
| ChatOutput.OrderedOutput | lib/proxy/codex-transform.js:226-283 | for every ordered stream the completed output is one message with all the text and one call per key in first-seen order with its fragments concatenated, and the last usage |
| ChatCalls.OneCallPerIndex | lib/proxy/codex-transform.js:226-259 | the completed output of an ordered stream has one call for each index that occurs, a missing one counting as 0: with all arguments of the fragments of that index in order, its first name, and the id of its first fragment or one made from its position |
| ChatCalls.MadeUpIdsDiffer | lib/proxy/codex-transform.js:235 | calls that were sent no id have different ones |
| ChatHeader.HeaderNamesModel | lib/proxy/codex-transform.js:304-334 | the stream is announced at its first line with a choice, and with the model last named by then |
| ChatOutput.FragmentRefines | lib/proxy/codex-transform.js:336-366 | however fragments interleave, each goes to its own call |
| ChatOutput.CompleteExactlyWhenInOrder | lib/proxy/codex-transform.js:195-261 | for every sequence of lines, in terms of the lines: the completed message holds all their text exactly when no call opened before it and no text came after a tools or stop line closed it; a call holds all its fragments' arguments exactly when none came after a text or stop line closed it |
| ChatOutput.EverythingIsStreamed | lib/proxy/codex-transform.js:195-261 | the text and argument deltas carry everything, whatever the completed output lacks |
| ChatOutput.TextPointsAtItsMessageIff | lib/proxy/codex-transform.js:165-216 | text events carry the index under which their message was added exactly when no call opened before the first text |
| ChatOutput.NothingAfterDone | lib/proxy/codex-transform.js:286-300 | lines after the end mark change nothing |
| ChatOutput.TextAfterToolIsLost | lib/proxy/codex-transform.js:213-220 | an input whose text is missing from the completed output |
| ChatOutput.LateFragmentIsLost | lib/proxy/codex-transform.js:262-283 | an input with a fragment that is streamed but missing from its call in the completed output |
| ChatStream.Translator.EnsureTextItem | lib/proxy/codex-transform.js:165-192 | opening the text item |
| ChatStream.Translator.FinishTextItem | lib/proxy/codex-transform.js:195-223 | closing the text item |
| ChatStream.Translator.EnsureToolItem | lib/proxy/codex-transform.js:226-259 | opening a call, or completing its name |
| ChatStream.Translator.FinishToolItem | lib/proxy/codex-transform.js:262-279 | closing a call |
| ChatStream.Translator.FinishToolItems | lib/proxy/codex-transform.js:281-283 | the loop closing all calls |
| ChatStream.Translator.PushToolCalls | lib/proxy/codex-transform.js:343-363 | the loop over a chunk's fragments |
| ChatStream.Translator.Push | lib/proxy/codex-transform.js:286-403 | one line, in place, is the specified step |
| ChatStream.Translator.Close | lib/proxy/codex-transform.js:406-431 | the end of the stream is the specified step |
| ResponsesCompat.ReadAllIsConsume | lib/proxy/codex.js:840-878 | chunk boundaries never influence an attempt |
| ResponsesCompat.StreamAttemptIsCut | lib/proxy/codex.js:740-903 | an attempt is abandoned exactly on a busy failure before any output; otherwise it writes exactly the text up to its first terminal event |
| ResponsesCompat.CutIsPrefix | lib/proxy/codex.js:740-903 | that text is a prefix of what was read, all of it when there is no terminal event |
| CompatTurn.EveryTurnReturns | lib/proxy/codex.js:688-935 | every turn returns from inside the loop after at most five dials plus the repairs allowed, ended, with exactly one report, which blames the client exactly when it left first |
| CompatTurn.OnlyTheLastAttemptIsSeen | lib/proxy/codex.js:688-932 | with the client connected the last dial is exactly the first that is not to be retried, and the client receives exactly its cut and, without a terminal event, one injected completion; no byte of a retried attempt |
| CompatEvents.EndingEventDecides | lib/proxy/codex.js:775-838 | for every stream of events with the proxy's own reading of names, data lines and types: a first ending event `response.completed` makes the turn a success and `response.failed` or `error` a failure, with the text up to it and nothing added, unless the failure is busy, comes before any output and is on one of the first four dials, when another dial follows |
| CompatEvents.StreamWithoutEnding | lib/proxy/codex.js:879-903 | a stream without an ending event is answered in full with one completion added, as a success |
| CompatEvents.RefusalDecides | lib/proxy/codex.js:709-738 | a refused dial is followed by another exactly when the hook asks for it and a repair is left |
| CompatEvents.LaterNameWins | lib/proxy/codex.js:775-789 | a later `event:` line replaces the name before it |
| CompatLeaving.LeavingEndsTheTurn | lib/proxy/codex.js:668-935 | a client that leaves during a dial is sent nothing more, what it was sent before is exactly known, the turn is reported as its leaving, and that dial is the last one, or the last but one when it was to be retried anyway |
| CompatLeaving.StayingClientIsAnswered | lib/proxy/codex.js:668-935 | a client that leaves at no moment its dials have is answered as one that never leaves |
| CompatTurn.FailureReportedAsSuccessIff | lib/proxy/codex.js:840-933 | with the client connected, it gets a failure event while the report says success exactly when the last dial's stream breaks off and no complete line of it ended a terminal event |
| CompatTurn.BrokenStreamIsReportedAsSuccess | lib/proxy/codex.js:904-933 | a turn of one comment line and a broken connection |
| CompatProxy.Tracker.FinishTrackedEvent | lib/proxy/codex.js:791-838 | noting an event and deciding on it, in place |
| CompatProxy.Tracker.TrackSseLine | lib/proxy/codex.js:775-789 | tracking one line, in place |
| CompatProxy.Tracker.ReadStream | lib/proxy/codex.js:840-878 | the nested loops over chunks and lines with their early exits are the specification |
| CompatProxy.ServeAttempt | lib/proxy/codex.js:688-935 | one pass of the loop with its dial, its error body, the repair hook and the stream is the specification |
| CompatProxy.ServeTurn | lib/proxy/codex.js:688-935 | the loop over attempts is the specification |
| ClaudeTurn.FirstCauseWins | lib/proxy/claude.js:809-889 | under any interleaving of events the callbacks hear of exactly the first verdict, once, with equal status and an error code exactly on failure |
| ClaudeTurn.EveryTurnReports | lib/proxy/claude.js:809-1010 | once the client has gone or every dial has finished, the end has been reported exactly once |
| ClaudeReports.SuccessMeansOk | lib/proxy/claude.js:926-1005 | over every run a turn is a success only if the body of a 2xx response ended, and an HTTP error otherwise |
| ClaudeReports.EndDecides | lib/proxy/claude.js:980-1005 | the end of a body settles an unsettled turn by the status of the last response |
| ClaudeReports.UsageEventCarries | lib/proxy/claude.js:816-834 | the usage event carries the status and content type of the last response before the turn was settled, or what the client asked for |
| ClaudeReports.RepairedTurn | lib/proxy/claude.js:864-1005 | a rejection the hook repairs is invisible: the turn is reported with the second response alone |
| ClaudeTurn.DialsAreBounded | lib/proxy/request-hook.js:162-178 | dials never exceed one plus the repairs allowed |
| ClaudeTurn.DialAfterDisconnect | lib/proxy/claude.js:864-889 | a run in which a dial follows the disconnect |
| ClaudeTurn.DialsGrowIff | lib/proxy/claude.js:871-889 | a step makes a dial exactly when it is the hook asking for a retry of the dial it is deciding about |
| ClaudeTurn.DialFollowsDisconnectIff | lib/proxy/claude.js:864-889 | in every run, after the client has gone at most one more dial follows, and one exactly when the hook was deciding about the last dial and first answers retry |
| ClaudeForwarder.Forwarder.SettleTerminal | lib/proxy/claude.js:820-830 | the one authority for the end of a turn |
| ClaudeForwarder.Forwarder.HandleClientClose | lib/proxy/claude.js:839-851 | the client's disconnect |
| ClaudeForwarder.Forwarder.HandleUpstreamResponse | lib/proxy/claude.js:926-987 | response headers |
| ClaudeForwarder.Forwarder.HandleRequestError | lib/proxy/claude.js:907-921 | an error of the upstream request |
| ClaudeForwarder.Forwarder.HandleEnd | lib/proxy/claude.js:980-1005 | the end of the upstream body |
| ClaudeForwarder.Forwarder.AfterErrorBody | lib/proxy/claude.js:864-871 | asking the hook only while the client is there and repairs are left |
| ClaudeForwarder.Forwarder.AfterHook | lib/proxy/claude.js:871-888 | the hook's decision |
| HopRoutes.NormalizeIdempotent | lib/proxy/hop-credentials.js:22-57 | normalizing a normalized route changes nothing |
| HopRoutes.RouteKeyInjective | lib/proxy/hop-credentials.js:59-63 | different routes have different keys |
| HopCredentials.RunRefines | lib/proxy/hop-credentials.js:116-195 | over every sequence of issues, rotations, revocations and purges the list holds at most one live record per route, the one a plain map would hold |
| HopCredentials.VerifyIsLookup | lib/proxy/hop-credentials.js:158-171 | a token is accepted exactly when it holds the route and has not expired |
| HopCredentials.BundleTokenAcceptedIff | lib/proxy/hop-credentials.js:116-195 | a bundle's token is accepted on exactly its routes not since rotated, revoked or expired |
| HopVerdicts.VerdictIs | lib/proxy/hop-credentials.js:158-171 | for every route and token after every run: unmanaged exactly when nobody holds the route and no revocation of it is kept, revoked when it was taken from its holder, and for a held route expired, missing or mismatched in this order |
| HopVerdicts.IssuedStaysManaged | lib/proxy/hop-credentials.js:116-195 | a route once issued is never unmanaged while a record of it is kept |
| HopVerdicts.PassesIff | lib/proxy/hop-credentials.js:206-214 | what gets through: the live token of the route or, on a legacy session where nothing is required, a route that no record is kept of |
| HopVerdicts.IssueRefusedIff | lib/proxy/hop-credentials.js:116-130 | a bundle is refused exactly when it names no route or more than 256, names one twice, or would be expired |
| HopCredentials.CredentialStore.Issue | lib/proxy/hop-credentials.js:116-156 | issuing a bundle is the specification |
| HopCredentials.CredentialStore.Revoke | lib/proxy/hop-credentials.js:173-187 | revoking by ids or session is the specification |
| HopCredentials.CredentialStore.Purge | lib/proxy/hop-credentials.js:189-195 | purging is the specification |
| HopCredentials.CredentialStore.VerifyToken | lib/proxy/hop-credentials.js:158-171 | the search through the list is the specification |
| Transport.LiveAreCurrent | lib/proxy/provider-transport.js:75-128 | under any interleaving the live dispatchers are exactly the values of the origin map, and each is closed at most once |
| Transport.OneReplacementPerEntry | lib/proxy/provider-transport.js:88-97 | any number of failures of one entry make one replacement, and generations strictly increase |
| Transport.AtMostTwoCalls | lib/proxy/provider-transport.js:131-156 | each fetch calls upstream at most twice |
| Transport.RotateReports | lib/proxy/provider-transport.js:88-97 | a failed dispatcher is replaced, retired and closed exactly when the transport is open, it is still current and another can be made |
| Transport.FailureAnswers | lib/proxy/provider-transport.js:131-156 | a failed call is made again, on what is current then, exactly when it was the first, the session was invalid, the request can be replayed and the transport is open |
| Transport.NothingLivesAfterClose | lib/proxy/provider-transport.js:158-166 | after a close no dispatcher is live and none is made |
| Transport.ProviderTransport.RotateEntry | lib/proxy/provider-transport.js:88-97 | replacing a failed entry, in place |
| Transport.ProviderTransport.BeginFetch | lib/proxy/provider-transport.js:117-137 | starting a fetch, in place |
| Transport.ProviderTransport.FetchFailed | lib/proxy/provider-transport.js:138-155 | a failed call and its one replay, in place |
| Transport.ProviderTransport.Close | lib/proxy/provider-transport.js:158-166 | the loop retiring every entry is the specification |
| UsageLedger.RunValid | lib/usage-ledger.js:179-230 | over appends, writes that fail before or after the line landed, broken readings, prunes and restarts: every event is in its day's shard, and the index holds exactly the stored ids that were not forgotten |
| UsageLedger.IndexIsCompleteIff | lib/usage-ledger.js:179-230 | the index is exactly the stored ids exactly when nothing is forgotten, as when no line lands without its append reporting it and every reading goes to its end |
| UsageLedger.NeverTwiceIff | lib/usage-ledger.js:207-230 | throughout a run no id is stored twice exactly when none that is stored but forgotten is appended again |
| UsageLedger.AppendEffect | lib/usage-ledger.js:216-230 | after any run: which appends insert, which report a duplicate, and what is stored then |
| UsageLedger.AppendIsIdempotent | lib/usage-ledger.js:216-230 | once an append has not thrown, appending the id again reports a duplicate and changes nothing |
| UsageLedger.RetryStoresTwice | lib/usage-ledger.js:207-230 | an append that throws with its line on disk, and its retry: the event is stored and counted twice |
| UsageLedger.BrokenReadingStoresTwice | lib/usage-ledger.js:179-186 | a reading of the index that breaks off, and an append of an id it did not reach: the event is stored twice |
| UsageLedger.PruneIsExact | lib/usage-ledger.js:315-343 | pruning removes exactly the events whose UTC day had ended by the cut-off, but for files that cannot be removed |
| UsageLedger.RollupConserves | lib/usage-ledger.js:269-299 | the rows of the groups add up to the totals of the events |
| UsageLedger.RollupPartitions | lib/usage-ledger.js:269-299 | each group's row holds the totals of exactly its own events, and only groups with events have rows |
| LedgerColumns.RowsAreColumns | lib/usage-ledger.js:269-299 | each row counts its own events by status, by whether they report tokens and by exactness, and sums their tokens and latencies; so do the totals |
| UsageLedger.UsageStore.ReadIndex | lib/usage-ledger.js:179-186 | the loop reading shards oldest first leaves all ids, or those before the shard it breaks off at |
| UsageLedger.UsageStore.AppendEvent | lib/usage-ledger.js:216-230 | appending is the specification |
| UsageLedger.UsageStore.PruneShards | lib/usage-ledger.js:315-343 | the loop over shards is the specification, and reports what it removed |
| UsageLedger.Rollup | lib/usage-ledger.js:269-293 | the pass that updates rows in place is the specification |

## Left out

- Sockets, HTTP mounting, TLS, timers, logging, file modes and audit records: events and parameters stand for what they decide.
- SHA-256 is taken as injective; tokens and ids as fresh.
- JSON and TOML libraries: configuration objects are parsed values; only the hand-written `base_url` scanner is modelled on text.
- Toml: white space and literals that span lines are not matched, U+2028 and U+2029 count as ordinary characters of a line, and escapes of surrogates have no value.
- Case folding and trimming act on the characters the model's `Text` module names; other letters are not folded.
- The lock's re-read and removal, and its creation and contents, are one step each, as the atomicity that mutual exclusion rests on; the age limit is assumed never to catch a live holder.
- The acquiring loop is modelled as the steps of many processes, not as one loop; its timeout is the event that gives up.
- LockProtocol: the wait between attempts and the reported holder are not modelled.
- Legacy documents of the stores appear as the payload they migrate to, with revision 0.
- Direct takeover: the two CLIs are modelled one at a time, the contents planned for a file are data, and outside edits enter only where a lemma says so.
- DirectRecovery.EveryRunIsConsistent: needs forced restores of a named snapshot to cover the applied files and forced snapshots to find their files at base; `ForcedRestoreIff` and `ForcedSnapshotIff` say exactly what happens otherwise.
- DirectEntries: the descriptions and models of agents, and role names that every JavaScript object has as properties, such as `constructor`, are not modelled.
- The full file-level restore of the CC-Switch database (lib/ccswitch/restore.js:95-173).
- CC-Switch: changes of one provider row are applied one after the other instead of grouped, which reads and writes the row once; settings rows still come before endpoint rows.
- Gateway.ParseGatewayPath: takes the path after URL parsing, with dot segments resolved and the query cut off; building the upstream URL and forwarding headers are not modelled.
- CcSwitchPlan.EveryLocalUrlLeadsHome: for a provider with several base URLs the gateway answers with the first, as `Gateway.LocalUrlReachesUpstream` states.
- ChatTranslator: reasoning text and the delta callback, the ids of messages and responses, and chunks whose fields throw while being read are not modelled.
- CompatTurn: the contents of the injected completion, the usage and delta tees beside the stream and the headers are not modelled; JSON parsing and the busy pattern are parameters.
- UsageTees: characters split between two chunks are not modelled.
- CcSwitchOps.RestoreUndoesApply: the database holds parsed settings; rewriting a row also reformats its JSON text, which is not modelled, and the spelling of TOML literals is the subject of `Toml.RestoreIsExactIff`.
- CcSwitchPlan.CollectedTakeoverIsReversible: the same.
- ClaudeTurn: request preparation, provider resolution, rate-limit headers and captures are not modelled.
- HopCredentials: clocks are past the epoch, as a revocation at time zero would not count as one; the lookup that names a revoked record's id is not modelled.
- Transport: which errors count as an invalid session or a GOAWAY, and which bodies can be replayed, are parameters.
- UsageLedger: normalization of events, filters and ordering of queries, ratios, legacy shards, external storage, torn lines, other processes' indexes and the lock, which changes nothing when it is not taken, are not modelled.
- The direct (non-compatible) Responses proxy, which forwards the stream as it comes; the web interface and the CLI commands, which call what is modelled here; service control, settings and profile stores, model policies, spawn environments, keychain reads and captures, which look single values up.
