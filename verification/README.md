# Verified model of dragon-head's run-long promises

dragon-head drives a browser for AI agents. Several of its components promise something over whole
runs rather than over one call: a human approval takes effect once, a key rotation is all or
nothing, an audit log replays, a prediction model learns only what happened. This project models
those components and proves the promises, for every run and every interleaving.

Most components have two forms. The **in-place form** is a class (or a method with a loop) that
follows the source statement by statement, with its fields, early returns and failure points; its
methods are proved against functions on values, or, for the bridge object, to be steps and runs of
its machine. The **whole-run form** is a state machine over those functions; invariants, refinements
and round trips are proved about it. The recursive redactors (`redact_json`, `redact_node`) have the
second form only. Failures of files, the network, the browser and the chat service are inputs: each
external call may succeed, fail, or fail after taking effect, as the caller of the step function
chooses.

| file | what it holds |
|---|---|
| `Options.dfy`, `Maps.dfy`, `Sequences.dfy`, `Strings.dfy`, `SemanticNodes.dfy` | shared types and what several modules need of maps, sequences and strings |
| `Resolutions.dfy` | the bounded claim registry, values and class |
| `BridgeProtocol.dfy` | `resolve` and `poll_once` for any number of threads, as a step machine |
| `BridgeInvariant.dfy` | its inductive invariant, one lemma for each kind of step |
| `BridgeTheorems.dfy` | what the bridge promises over all interleavings, and what it does not |
| `BridgePrompts.dfy` | when exactly an id is prompted at most once |
| `BridgeCapacity.dfy`, `BridgeRoom.dfy` | claims that can never finish, a registry full of them, and that nothing else keeps a new id out |
| `BridgeClaims.dfy` | a claim from its making to its completion |
| `ResolveOutcome.dfy`, `BridgeObject.dfy` | what an undisturbed `resolve` does, without its phases, and the bridge as an object; each call is a run of the machine |
| `AuditTrail.dfy`, `AuditTrailTheorems.dfy`, `AuditCalls.dfy` | the three-tier audit trail, the append-once log it refines, and when exactly a call succeeds |
| `BridgeOverTrail.dfy` | the machine over the real trail and through restarts: between two of them every run, faults included, is a run of the protocol |
| `LostFsync.dfy` | a run over the real trail that logs one record twice |
| `Gateway.dfy`, `BridgeOverGateway.dfy` | the one-slot identity cache over swappable sessions, the gateway as an object, and that it provides what the machine expects |
| `BridgeSystem.dfy` | bridge, real gateway, real trail and process restarts interleaved in one machine, and what reaches the log |
| `SessionVault.dfy` | encrypted sessions, the software key manager, transactional rotation |
| `VaultConcurrency.dfy`, `VaultHistory.dfy` | concurrent store, load and rotate with both mutexes and cancellation, and what each call that ends has done |
| `JsonPointer.dfy` | JSON Pointer (RFC 6901) parsing, printing, escapes and array indices |
| `JsonPatch.dfy`, `PatchTheorems.dfy`, `PatchOutcomes.dfy` | JSON Patch (RFC 6902) as the replayer applies it, its laws and inverses, and which operations succeed with what effect |
| `AuditReplay.dfy` | the replay of audit events into a report |
| `SpeculativeBackend.dfy`, `SpeculativeAnswers.dfy` | the speculative bookkeeping, and what each call answers and leaves |
| `SpeculativeTraining.dfy`, `SpeculativeLinks.dfy` | when exactly the edges and the action links it trains are real |
| `RestartLimiter.dfy` | the browser restart-storm guard |
| `RollingSink.dfy` | the rolling NDJSON sink and its meter |
| `Redactor.dfy`, `RedactedKeys.dfy`, `RedactedNodes.dfy` | PII redaction of JSON values and semantic trees, the key tokeniser, and which keys are masked |
| `DomMatch.dfy` | self-healing element matching |

## Where the code does less than its comments say

Each point is a lemma with the input that shows it, beside the statement of what does hold.

- **Audit trail.** `record` is documented as idempotent and as refusing a different decision for a
  known id (hitl-bridge/src/audit.rs:198-200). If the fsync after an append fails, the record is in
  the file but never indexed. Once 1024 later records have pushed it out of memory, a contradicting
  decision for the same id is accepted (`LostIndexEntryAllowsContradiction`), even when a retry was
  acknowledged in between (`AcknowledgedRecordIsContradicted`). The exact condition, call by call,
  is `RecordRefinesAppendOnce`. A logged record stays final over all later runs if and only if its id
  is indexed whenever the trail is initialized with the index in use (`FinalIffPinned`), as it is
  once a valid trail accepted it (`AcceptedRecordIsFinal`); a restart rebuilds the index
  (`PrepareRestoresTheIndex`).
- **Bridge over the trail.** For the same reason "one audit record per id" fails: the owner's late
  retry logs its record a second time (`SameRecordIsLoggedTwice`). It holds if and only if no call
  appended an id that every tier had forgotten (`LoggedOnceIffNothingForgotten`). What holds of all
  runs, process restarts included, is that the trail never contradicts itself
  (`TrailNeverContradictsItself`), because the gateway takes one decision for each id.
- **Prompts.** A poll that read a request before it was resolved can post it again afterwards, and
  that second prompt can no longer be answered (`SamePromptTwice`). A run prompts an id at most
  once if and only if no notify succeeds after a prompt of the id was closed
  (`PromptedOnceIffNeverReposted`). At the guard this reads: no poll passes the token check after a
  close, if and only if the run, stopped anywhere and given one more step, prompts at most once
  (`PromptedOnceIffNeverRechecked`); between the check and the notify no other thread can change it
  (`RepeatIsSettledAtTheCheck`). In every run posted minus closed is one exactly while the token is
  live (`PromptsAreConserved`).
- **Registry.** A full registry makes room by evicting finished claims, and otherwise refuses
  (hitl-bridge/src/bridge.rs:67-75). A claim whose request is gone before the gateway took its
  decision can never finish and keeps its entry for good (`DeadForever`); 1024 of them refuse every
  other id from then on, in every run (`CloggedForever`), and one thread can get there
  (`RegistryCanClog`). Nothing else locks new ids out: from every other reachable state some run
  registers one (`CloggedIffNothingNewFits`).
- **Speculation, edges.** If building the payload fails after a capture while the baseline is
  unverified or the chain is broken, the flags are reset but the baseline is not, and the next
  capture can train a transition that never happened (`ServedBaselineIsTrainedFrom`). The exact
  condition over runs is `EdgesAreRealIffClean`.
- **Speculation, action links.** The comment at mcp-server/src/backend_tools.rs:180-186 says the
  cursor left in place by a confirmed prediction still names the action that led to the captured
  state. It names the action before it, so the action-sequence table learns a pair of actions that
  were not adjacent (`ConfirmedHitSkipsAnAction`). A payload that fails to build after an action was
  recorded has the same effect (`FailedReadLinksAnActionToItself`). Links are true if and only if
  neither happens (`LinksAreTrueIffCursorKept`).
- **Rolling sink.** A line that reached the file but failed to flush is not counted, so a later line
  can overfill the file (`UnflushedLineOverfillsFile`). The size bound, and the agreement of files
  and meter, hold if and only if that never happens (`SizeBoundHoldsIffFlushed`,
  `FilesMatchTheMeterIffFlushed`).
- **Node redaction.** Redacting twice is not redacting once for every idempotent text redactor: the
  mask of an element's `value` depends on its `type`, which is itself redacted as text
  (`TypeCanTurnSensitive`; the exact condition is `TreeSettlesUnlessTypeTurns`).
- **Element matching.** The calibration note at core-runtime/src/dom_signature.rs:96-98 asks for "any
  meaningful label word overlap", worth ten points. That is a third of the words of both labels
  (`MeaningfulOverlapIsAThird`): a role and one shared word can stay below the threshold
  (`SharedWordIsNotEnough`). What clears it over all four traits is `ThresholdOverAllTraits`.

## Model

| member | source | states |
|---|---|---|
| BridgeInvariant.NextInv | hitl-bridge/src/bridge.rs:128-252 | every step of every thread, with any answer of any external call, keeps the whole invariant: registry, claims, gateway, trail, token map, locks and program counters |
| BridgeInvariant.KnownIsOwn | hitl-bridge/src/audit.rs:226-241 | a record in the log that equals the one of a claim the gateway took is that claim's own |
| BridgeInvariant.OneOwnerPerId | hitl-bridge/src/bridge.rs:204-250 | two threads inside progress locks never work on the same request id, even though claims are evicted and ids claimed again |
| BridgeTheorems.LogMatchesClaim | hitl-bridge/src/audit.rs:226-241 | the log never holds a foreign record under the id of a claim the gateway took, nor any record under an id that is still open, so an audit phase never meets a conflict |
| BridgeTheorems.AppliedAndLoggedOnce | hitl-bridge/src/bridge.rs:172-252 | over all interleavings each id is applied to the gateway at most once; the protocol's log, which forgets nothing, holds it at most once; both belong to the same claim, with that claim's decision and record, and nothing is logged that was not applied (over the real trail see BridgeOverTrail) |
| BridgeTheorems.FlagsTellTheTruth | hitl-bridge/src/bridge.rs:25-31 | chat_updated implies audited implies gateway_applied; gateway_applied if and only if the gateway took this claim's decision; audited implies the record is in the trail, and a logged record implies gateway_applied |
| BridgeTheorems.RegistryIsBounded | hitl-bridge/src/bridge.rs:60-85 | at most 1024 entries; terminal_order is duplicate-free and names only finished entries; every unfinished claim still owns its id's entry; the eviction loop of mark_terminal never runs |
| BridgeTheorems.PromptsAreConserved | hitl-bridge/src/bridge.rs:128-165 | successful notifies minus removed tokens is one exactly while the token is stored or on its way into the map, else zero; at most one thread posts for an id |
| BridgeTheorems.ResponsesFollowTheTrail | hitl-bridge/src/bridge.rs:227-243 | every chat response uses the token issued for its own id and shows a decision and reviewer that the trail already holds |
| BridgeTheorems.NobodyIsStuck | hitl-bridge/src/bridge.rs:204-250 | an unfinished call that cannot move waits for the progress lock of a claim whose holder can take its next step whatever the outside answers |
| BridgeTheorems.CompetitorChangesNothing | hitl-bridge/src/bridge.rs:169-211 | another reviewer, another decision, or a repeat after completion leaves the whole state exactly as it was |
| BridgeTheorems.RetryCompletes | hitl-bridge/src/bridge.rs:204-250 | from any reachable state the owner's retry resumes at the first unfinished phase and applies, logs and reports exactly what is missing, each once |
| BridgeTheorems.SamePromptTwice | hitl-bridge/src/bridge.rs:128-139 | a reachable run in which one id is prompted twice and the second prompt belongs to a completed claim |
| BridgeClaims.CompletionLeavesNoPrompt | hitl-bridge/src/bridge.rs:227-245 | over every reachable step a claim becomes chat_updated only by the thread inside its own progress lock, and no prompt of its id is stored or on its way afterwards, so a prompt still being posted is never overtaken |
| BridgeClaims.ClaimsOnlyGrow | hitl-bridge/src/bridge.rs:25-58 | over every run a claim keeps its decision and its record, time and projected outcome included, and no flag is cleared |
| BridgeClaims.ClaimIsMadeOfItsCall | hitl-bridge/src/bridge.rs:173-202 | only the claim section makes a claim: with the call's decision, reviewer and time, the outcome the request is reported with at that moment, all flags clear, under an id that had none |
| BridgeClaims.FailureEndsTheCall | hitl-bridge/src/bridge.rs:204-243 | an outside call that fails inside a resolve ends it there: lock dropped, no flag set, no token gone, and nothing else different but what a late failure itself did |
| BridgeClaims.FailedNotifyLeavesNoMark | hitl-bridge/src/bridge.rs:146-165 | a poll whose notify fails takes its mark back and changes nothing else |
| BridgePrompts.PromptedOnceIffNeverReposted | hitl-bridge/src/bridge.rs:128-165 | exact condition of one prompt for each id: over all interleavings an id is posted at most once if and only if no step posts it after a prompt of it was closed |
| BridgePrompts.PromptedOnceIffNeverRechecked | hitl-bridge/src/bridge.rs:133-145 | exact condition at the token check: no poll passes it after a close of its id if and only if the run, stopped anywhere and given any one more step that succeeds, posts the id at most once; such a run posts it at most once |
| BridgePrompts.RepeatIsSettledAtTheCheck | hitl-bridge/src/bridge.rs:133-150 | between the check that let a poll through and its notify, whatever the other threads do, no prompt of the id is closed and the poll stays where it is |
| BridgeCapacity.DeadForever | hitl-bridge/src/bridge.rs:60-85 | a claim whose request is gone before its decision was applied is never applied, never finished and never evicted, over all runs |
| BridgeCapacity.CloggedForever | hitl-bridge/src/bridge.rs:67-75 | once 1024 such claims fill the registry no run changes it again: no claim is made or evicted, and every call for another id is refused |
| BridgeCapacity.RegistryCanClog | hitl-bridge/src/bridge.rs:67-75 | a reachable state in which that has happened, with one thread and 1024 requests that went away |
| BridgeRoom.CloggedIffNothingNewFits | hitl-bridge/src/bridge.rs:60-85 | exact condition: from a reachable state of any number of threads no run ever registers another id if and only if the registry is full of claims that can never finish |
| BridgeObject.Bridge.TakeClaim | hitl-bridge/src/bridge.rs:173-202 | the claim section shares an existing claim, appends a new one in the place of at most the oldest finished one, and refuses if and only if the registry is full of unfinished claims; the whole state afterwards is given |
| BridgeObject.Bridge.LockProgress | hitl-bridge/src/bridge.rs:204-211 | taking the progress lock is one step; it becomes the owner if and only if decision and reviewer match and the claim is not complete |
| BridgeObject.Bridge.ApplyDecision | hitl-bridge/src/bridge.rs:215-219 | the gateway call is one step; gateway_applied is set exactly when the id's request was still open and the call succeeded |
| BridgeObject.Bridge.RecordDecision | hitl-bridge/src/bridge.rs:222-225 | the audit phase is one step; audited is set exactly when the record call succeeds |
| BridgeObject.Bridge.UpdateChat | hitl-bridge/src/bridge.rs:227-245 | the chat phase succeeds if and only if there is no prompt, or its token is stored and the chat takes the answer; it fails while the prompt is still being posted; the whole state afterwards is given, the claim complete or the lock dropped and nothing finished |
| BridgeObject.Bridge.Resolve | hitl-bridge/src/bridge.rs:172-252 | a whole resolve call, whichever phase fails, is a run of the machine that ends with the thread idle; from the state it finds and the replies it gets, its success is stated as an if-and-only-if and the state it leaves exactly; success completes a claim of its own id, decision and reviewer |
| ResolveOutcome.PostedPromptIsNotOvertaken | hitl-bridge/src/bridge.rs:227-245 | while a prompt of its id is being posted no resolve succeeds, whatever the replies; the tokens stay and no claim of the id is completed |
| BridgeObject.Bridge.PollOnce | hitl-bridge/src/bridge.rs:128-165 | a whole poll is a run of the machine; it reports an id exactly when the pending one was not in the token map and the notify succeeded, and then stores that prompt's token; a failed notify leaves the map as it was |
| Resolutions.MakeRoomEvictsOnlyTheOldestFinished | hitl-bridge/src/bridge.rs:67-75 | making room evicts at most the oldest finished claim and fails, changing nothing, exactly when the registry is full of unfinished ones |
| Resolutions.RetireNeverEvicts | hitl-bridge/src/bridge.rs:77-84 | retiring an id of a sound registry appends it and evicts nothing |
| Resolutions.ResolutionRegistry.MakeRoomForClaim | hitl-bridge/src/bridge.rs:67-75 | the in-place eviction loop computes MakeRoom |
| Resolutions.ResolutionRegistry.MarkTerminal | hitl-bridge/src/bridge.rs:77-84 | the in-place push and trim loop computes Retire |
| AuditTrail.BridgeAuditTrail.PrepareLocked | hitl-bridge/src/audit.rs:101-159 | the indexing pass, stopped by any fault at any line, leaves exactly the state Prepare describes |
| AuditTrail.BridgeAuditTrail.FindRecordInHistory | hitl-bridge/src/audit.rs:181-196 | the early-exit scan returns the first record with the id among the well-formed lines |
| AuditTrail.BridgeAuditTrail.RecordDecision | hitl-bridge/src/audit.rs:201-268 | the in-place record call with all its failure points computes Record |
| AuditTrail.BridgeAuditTrail.ReadAll | hitl-bridge/src/audit.rs:274-290 | reads back every record in append order, and fails if and only if the file cannot be read or holds a malformed line |
| AuditCalls.PreparationIsExact | hitl-bridge/src/audit.rs:101-159 | the first preparation succeeds if and only if directory, file and every line can be read; it then remembers exactly the newest 1024 records and uses the index unless its directory or one of its files was refused |
| AuditCalls.NewProcessReadsTheFile | hitl-bridge/src/audit.rs:87-159 | after a restart the window holds the newest records of the file and nothing else |
| AuditCalls.RecordSucceedsIff | hitl-bridge/src/audit.rs:198-268 | over all trails and all faults a call succeeds if and only if the trail is prepared and opened, the tier asked can be read, it answers with this very record or with none and the record is then written, and the file is synced, even when nothing was written |
| AuditCalls.SuccessIsSynced | hitl-bridge/src/audit.rs:236-256 | success is never reported without a sync, a repeat of a known record included |
| AuditCalls.KnownRecordSucceedsIff | hitl-bridge/src/audit.rs:226-252 | on a valid trail the repeat of a logged record fails only by a fault, the sync among them |
| AuditCalls.RecordLeaves | hitl-bridge/src/audit.rs:201-268 | everything a call leaves behind in each outcome: file, window, index and whether the index is still trusted |
| AuditTrailTheorems.PrepareRestoresTheIndex | hitl-bridge/src/audit.rs:101-159 | preparing never changes the log and keeps a valid trail valid under any fault; the first preparation to complete after a start with the index in use indexes every logged id, whatever was missing |
| AuditTrailTheorems.LookupIsExact | hitl-bridge/src/audit.rs:211-234 | the three tiers only find logged records, and miss one if and only if it is outside the window and missing from an index that is trusted |
| AuditTrailTheorems.RecordRefinesAppendOnce | hitl-bridge/src/audit.rs:198-268 | under any faults a call does what an append-once log allows, and keeps ids distinct, if and only if it does not append an id that every tier misses; on a valid trail it never does; success means the record is logged |
| AuditTrailTheorems.FaultlessCallIsTheLog | hitl-bridge/src/audit.rs:198-268 | when nothing fails the call succeeds if and only if the id is new or its record identical, and appends exactly when the id is new |
| AuditTrailTheorems.RunsOnlyAppend | hitl-bridge/src/audit.rs:101-268 | over all runs of calls, failures and restarts the log only grows, and its ids stay distinct if and only if no call appended a missed id |
| AuditTrailTheorems.AcceptedRecordIsFinal | hitl-bridge/src/audit.rs:198-268 | after a valid trail accepts a record no later call of any run, with any faults, failed fsyncs and restarts, changes it: an identical one writes nothing, a different one is refused |
| AuditTrailTheorems.FinalIffPinned | hitl-bridge/src/audit.rs:198-268 | exact condition of finality: a logged record, the only one of its id, survives every later run of calls, faults and restarts if and only if its id is indexed whenever the trail is initialized with the index in use |
| AuditTrailTheorems.LostIndexEntryAllowsContradiction | hitl-bridge/src/audit.rs:254-266 | after any append whose fsync failed while the index was in use, 1024 further records let a contradicting decision for the same id through |
| AuditTrailTheorems.AcknowledgedRecordIsContradicted | hitl-bridge/src/audit.rs:226-266 | after such an append an immediate retry is acknowledged from the window, and 1024 records later a contradicting decision is accepted all the same |
| BridgeOverTrail.AuditStepIsRecordCall | hitl-bridge/src/audit.rs:201-268 | a record call under any faults, on a trail whose tiers may have forgotten records, is matched by the protocol's audit step for some reply: same records held, success just when the thread moves on |
| BridgeOverTrail.RealRunsRefineTheProtocol | hitl-bridge/src/bridge.rs:172-252 | every run of the bridge over the real trail, with any faults at any prepare and record call and restarts between any two steps, is since its last restart a run of the protocol that ends in the same bridge, and its log holds the same records beside the inherited ones |
| BridgeOverTrail.TrailNeverContradictsItself | hitl-bridge/src/bridge.rs:172-252 | over all those runs, unsynced appends and restarts included, each id is applied at most once, the trail never holds two different records of one id, and every record in it is that of a claim, of this process or an earlier one, whose decision the gateway took |
| BridgeOverTrail.FlagsTellTheTruthOfTheTrail | hitl-bridge/src/bridge.rs:213-245 | over all those runs audited implies that the record is in the real trail and that the decision was applied, and chat_updated implies audited |
| BridgeOverTrail.LoggedOnceIffNothingForgotten | hitl-bridge/src/audit.rs:201-268 | over all those runs the real trail holds each id at most once if and only if no record call appended an id that every tier had forgotten; syncing every append is enough |
| LostFsync.SameRecordIsLoggedTwice | hitl-bridge/src/audit.rs:254-266 | a run over the real trail in which one append is not synced, 1024 other requests are resolved and the owner retries ends with the owner's record in the log twice |
| BridgeOverGateway.PollIsReport | hitl-bridge/src/gateway.rs:191-214 | whatever a poll of the gateway saw, and however stale it is by then, the id it reports is one the bridge's contract may report, and the open ids stay in step |
| BridgeOverGateway.StepIsClosing | hitl-bridge/src/gateway.rs:175-238 | replacements, withdrawals, swaps and decisions before their commit only close ids as far as the bridge can see |
| BridgeOverGateway.CommitIsApply | hitl-bridge/src/gateway.rs:218-238 | the commit of the decision that a call carries succeeds exactly when its id is open, which is when the bridge's apply step does; the session's resolution and the bridge's application then carry that call's decision, and gateway and bridge stay in step; a failing commit changes nothing |
| BridgeSystem.SystemRunsRefine | hitl-bridge/src/bridge.rs:128-252 | every interleaved run of the bridge, the real gateway and the real trail, with any faults and process restarts, is a run of the bridge over the real trail that ends in the same bridge, trail and open requests |
| BridgeSystem.LoggedDecisionsWereTaken | hitl-bridge/src/gateway.rs:175-238 | over all those runs, whatever process logged it: each runtime request and each id is resolved at most once, on the session and request the id was minted for; every record in the trail carries the decision of such a resolution; and the trail never contradicts itself |
| Gateway.MintedIdCache.IdForKey | hitl-bridge/src/gateway.rs:96-105 | the slot's id is reused for the same key and replaced by a fresh one otherwise |
| Gateway.PageSessionGateway.PendingRequest | hitl-bridge/src/gateway.rs:191-214 | a poll is an undisturbed poll of the machine; it reports an id exactly when the live session has a request, and the slot then holds that id, else it is cleared |
| Gateway.PageSessionGateway.Resolve | hitl-bridge/src/gateway.rs:175-238 | approve and reject succeed if and only if the slot holds the id for the live session's request and the commit does not fail; success is an undisturbed decision of the machine, a refusal changes nothing |
| Gateway.NextInv | hitl-bridge/src/gateway.rs:175-238 | every step of polls, decisions, replacements, withdrawals, session swaps and process restarts keeps the cache, the sessions and the resolved requests consistent, and no minted id changes its meaning |
| Gateway.DecisionsHitTheirRequest | hitl-bridge/src/gateway.rs:175-238 | over all runs every decision that took effect resolved exactly the session and request its id was minted for; no request and no id is resolved twice |
| Gateway.StaleIdNeverResolves | hitl-bridge/src/gateway.rs:218-238 | once its request is gone an id never resolves anything again, over every run: whole decisions, decisions already validated, replacements, swaps and polls included |
| Gateway.DecisionAlone | hitl-bridge/src/gateway.rs:175-238 | a whole undisturbed decision resolves the live session's pending request if and only if the slot holds its id for that request, and otherwise changes nothing |
| Gateway.PollFillsTheSlot | hitl-bridge/src/gateway.rs:191-214 | after a poll the slot holds the reported id for the request it saw, and a repeated poll changes nothing |
| SessionVault.RollbackUndoesStage | core-runtime/src/session_vault.rs:351-365 | rolling back a staged key restores keys and current key id exactly |
| SessionVault.FinalizeCannotFail | core-runtime/src/session_vault.rs:215-253 | with the software key manager finalizing a rotation that decrypted every entry always succeeds and leaves the old keys minus the superseded ones plus the new one |
| SessionVault.RotationPreservesSessions | core-runtime/src/session_vault.rs:207-258 | after a rotation every session decrypts to its old plaintext under the new key, its old key is gone, and unused extra keys survive |
| SessionVault.SoftwareKms.FinalizeKeyRotation | core-runtime/src/session_vault.rs:367-380 | retires exactly the given keys, or none of them if and only if one is current or unknown |
| SessionVault.KeyRotationGuard.Commit | core-runtime/src/session_vault.rs:104-108 | a commit that is refused leaves the keys in place and the guard armed |
| SessionVault.LocalSessionVault.StoreSession | core-runtime/src/session_vault.rs:172-180 | stores exactly the one session, under the current key, and keeps every session readable; interrupted, changes nothing |
| SessionVault.LocalSessionVault.LoadSession | core-runtime/src/session_vault.rs:182-200 | returns the stored data, or nothing when the session is unknown; never fails in a readable vault |
| SessionVault.LocalSessionVault.RotateKeySecret | core-runtime/src/session_vault.rs:207-258 | cut short at any step, store, keys and current key are exactly as before; it succeeds if and only if nothing cuts it short, the id is new and every entry decrypts, and then the rotation is complete |
| VaultConcurrency.RunsAreSerializable | core-runtime/src/session_vault.rs:172-258 | in every interleaving with cancellation anywhere, each load in the history returns what was stored last, none meets a retired key, and every stored entry decrypts under a live key; which calls are in the history is VaultHistory.HistoryIsTheCalls |
| VaultHistory.HistoryIsTheCalls | core-runtime/src/session_vault.rs:172-258 | over every interleaving the history gains exactly one entry for each call that ends other than by being dropped or refused, with that call's own session, data, result and key, in the order they end |
| VaultHistory.EndTakesEffect | core-runtime/src/session_vault.rs:172-258 | a store that ends has put its data under its session, readable and under the current key, and touched no other; a load or a refused rotation changes nothing; a rotation that ends has its key current; nothing else changes the store |
| VaultHistory.CallsStayThemselves | core-runtime/src/session_vault.rs:172-258 | whatever the other threads do a call keeps its session, data and key until it ends |
| VaultHistory.StoredCanBeLoaded | core-runtime/src/session_vault.rs:172-200 | from every reachable state with the locks free a store followed by a load returns the stored data |
| VaultConcurrency.DropInv | core-runtime/src/session_vault.rs:111-118 | dropping any call at any await point leaves the store and the keys that count as they were |
| VaultConcurrency.SomeoneCanMove | core-runtime/src/session_vault.rs:183-213 | deadlock freedom: while a call is unfinished some thread can take a step |
| JsonPointer.UnescapeIsOnePass | scripts/audit_replay.py:128 | the two sequential replacements equal one left-to-right decode, for every string |
| JsonPointer.ParseAfterPrint | scripts/audit_replay.py:115-128 | printing any list of tokens and parsing it returns the list, empty tokens included |
| JsonPointer.PrintAfterParse | scripts/audit_replay.py:115-128 | printing a parsed pointer returns it if and only if every tilde in it is a valid escape |
| JsonPointer.ParsesIffPointer | scripts/audit_replay.py:115-128 | a path parses if and only if it is any number of pieces each led by a slash (section 3 of RFC 6901) |
| JsonPointer.DecimalIsIndex | scripts/audit_replay.py:131-142 | the decimal form of every number is accepted as that array index and has no leading zero |
| JsonPointer.IndexIsDecimal | scripts/audit_replay.py:131-142 | no other token is accepted as an array index |
| JsonPatch.WalkTo | scripts/audit_replay.py:145-161 | the loop finds the value at the path, or fails where the path leaves the document |
| JsonPatch.ApplyJsonPatch | scripts/audit_replay.py:70-112 | the loop over the operations computes Apply |
| PatchTheorems.PutElsewhere | scripts/audit_replay.py:164-181 | editing the value at one path leaves the value at every unrelated path as it was |
| PatchTheorems.ReplaceIsRemoveThenAdd | scripts/audit_replay.py:164-215 | replace at a non-root path is remove followed by add there, in result and in failure (section 4.3 of RFC 6902) |
| PatchTheorems.AddThenGet | scripts/audit_replay.py:184-204 | after a successful add the value is found at its path, unless the path ends in "-" inside an array |
| PatchTheorems.AppendThenGet | scripts/audit_replay.py:184-204 | an add at "-" of an array always succeeds, the array then reads as the old one with the value appended, and the value is found at its new last position |
| PatchTheorems.AddLands | scripts/audit_replay.py:184-204 | after a successful add the value is found where it lands, "-" included |
| PatchTheorems.ReplaceThenGet | scripts/audit_replay.py:164-181 | after a successful replace the value is found at its path and every unrelated path reads as before |
| PatchTheorems.TransferredValuePassesTest | scripts/audit_replay.py:91-109 | after a successful copy or move, to "-" included, a test of the place where the value landed against the source's old value passes |
| PatchTheorems.UndoRestores | scripts/audit_replay.py:164-215 | every successful operation has an inverse patch that restores the document, array shifts and overwrites included |
| PatchTheorems.EveryPatchCanBeUndone | scripts/audit_replay.py:70-112 | the inverses of a whole patch, last operation first, restore the original document |
| PatchOutcomes.OperationSucceedsIff | scripts/audit_replay.py:70-112 | for every operation object and document: the interpreter carries it out if and only if what RFC 6902 asks of the document holds, for each of the six operations; anything else raises |
| PatchOutcomes.AddIsExact | scripts/audit_replay.py:184-204 | an add succeeds if and only if the parent is an object, or an array and the token is "-" or the decimal form of a position up to its length; it overwrites the member or shifts the elements behind the position, and nothing apart from the parent changes |
| PatchOutcomes.RemoveIsExact | scripts/audit_replay.py:207-215 | a remove succeeds if and only if there is a value below the root at the path; the elements behind it move down, and nothing apart from the parent changes |
| PatchOutcomes.TestIsExact | scripts/audit_replay.py:91-96 | a test never changes the document and passes if and only if the value is there and equals the expected one, null when none is given |
| PatchOutcomes.PyEqIsNormalEquality | scripts/audit_replay.py:91-96 | the interpreter's equality is equality of documents in which booleans are the numbers 0 and 1, at any depth; nothing else is identified |
| AuditReplay.ReplayEvents | scripts/audit_replay.py:239-317 | the event loop returns the folded report, or fails where an event does |
| AuditReplay.DocumentFollowsLastSnapshot | scripts/audit_replay.py:255-291 | after the last snapshot the replay succeeds if and only if the following patches, taken as one, apply to it, and the document is their result, whatever came before |
| AuditReplay.ChainListsEveryState | scripts/audit_replay.py:255-291 | a completed report's chain lists every snapshot and patch in event order |
| AuditReplay.ReportListsEveryEvent | scripts/audit_replay.py:239-317 | a completed report counts every event and lists tool calls, policy decisions and HITL events, each kind complete, in event order and with its own data |
| AuditReplay.TakeSucceedsIff | scripts/audit_replay.py:255-291 | an event fails the replay if and only if it is a patch that has no snapshot before it or does not apply |
| AuditReplay.RedactionIsSomewhere | scripts/audit_replay.py:222-232 | a document counts as redacted if and only if three stars stand in a text or in a key at some path of it |
| AuditReplay.RedactionIsFlagged | scripts/audit_replay.py:222-301 | a completed report is flagged if and only if a snapshot or a tool call carries redacted text |
| AuditReplay.PatchesFollowASnapshot | scripts/audit_replay.py:271-274 | in a completed replay every patch comes after a snapshot |
| SpeculativeBackend.CoreRuntimeBackend.SemanticStatePayload | mcp-server/src/backend.rs:219-320 | the full read, on every branch and failure point, computes StepGetFull and serves exactly the cache when one may be used, the predicted state when a confirmed snapshot may stand for a capture, and else the capture, once a payload is built; a read that raises the hits serves the prediction, any other new answer is the capture, and is then cache and baseline |
| SpeculativeBackend.CoreRuntimeBackend.RecordSpeculativeObservation | mcp-server/src/backend.rs:356-406 | the in-place bookkeeping after a capture computes Observe |
| SpeculativeBackend.CoreRuntimeBackend.GetStateDelta | mcp-server/src/backend_tools.rs:69-147 | the delta read computes StepGetDelta; it succeeds if and only if there is a capture, an update is selected and a full one can be built, and the capture is then the verified baseline |
| SpeculativeBackend.CoreRuntimeBackend.PerformAct | mcp-server/src/backend_tools.rs:151-234 | the act tool, verification of a served prediction included, computes StepAct |
| SpeculativeBackend.CoreRuntimeBackend.NavigateTo | mcp-server/src/backend_tools.rs:18-52 | a navigation computes its step: page state and cursors are reset once as soon as browser I/O began, also when it then fails, and otherwise only on success |
| SpeculativeAnswers.FullReadIsExact | mcp-server/src/backend.rs:219-320 | the full read case by case: nothing changes when the cache serves or a step fails before a capture; a hit is counted and remembered as unverified exactly when nothing is forced, no earlier one is unverified and it is predicted for the pending action; a capture is learned from, counted as a miss if a prediction was asked for, and becomes cache and baseline once built |
| SpeculativeAnswers.ServedIsAccountedFor | mcp-server/src/backend.rs:219-320 | a read is answered if and only if the cache may be used or a payload is built of a prediction or a capture; what is served is the unchanged cache, a prediction counted and recorded as unchecked, or the new capture, now cache and verified baseline |
| SpeculativeAnswers.ObservationIsExact | mcp-server/src/backend.rs:322-406 | a recorded capture teaches at most one edge: the correction of an unconfirmed prediction when nothing ran since, else the one pending action from a verified baseline |
| SpeculativeAnswers.DeltaReadIsExact | mcp-server/src/backend_tools.rs:69-147 | the delta read case by case; a forced one first forgets the page but not what was learned or counted |
| SpeculativeAnswers.ActIsExact | mcp-server/src/backend_tools.rs:151-234 | an act checks a served prediction first when nothing ran since; success leaves one pending action, or a broken chain when one was pending already, and drops the cache |
| SpeculativeAnswers.NothingOldIsServed | mcp-server/src/backend_tools.rs:18-52 | after a navigation that reached the browser, an effective skill run or a relaunch, no read is answered from what was known before; only a new capture is served |
| SpeculativeTraining.CallKeeps | mcp-server/src/backend_tools.rs:55-234 | a tool call keeps the invariant that ties the baseline and the pending action to what was captured and executed if and only if it is not a misleading failure |
| SpeculativeTraining.OnlyRealTransitionsAreTrained | mcp-server/src/backend.rs:322-406 | over all runs without misleading failures every trained edge joins two real captures with exactly one successful action, the edge's, between them |
| SpeculativeTraining.MisleadingFailureTrainsFalsehood | mcp-server/src/backend.rs:283-302 | after any misleading failure, an action pending or not, the next capture of a state not seen before trains an edge that never happened |
| SpeculativeTraining.EdgesAreRealIffClean | mcp-server/src/backend.rs:322-406 | exact condition: a run, stopped anywhere and probed by an action and a capture, trains real edges only if and only if none of its calls was a misleading failure |
| SpeculativeTraining.EdgesAreRealWithoutDoubt | mcp-server/src/backend.rs:283-302 | a run in which no payload fails to build while the chain is broken or the baseline unverified, which a caller can check before each call, trains real edges only |
| SpeculativeTraining.ServedBaselineIsTrainedFrom | mcp-server/src/backend.rs:283-302 | a run that the engine's own answers allow and that trains an edge from a state served unseen, with two other actions since its one capture |
| SpeculativeLinks.CallTrainsTruly | mcp-server/src/backend_tools.rs:151-234 | while the cursor is right every tool call trains at most one link, and that between the two actions executed last |
| SpeculativeLinks.CallKeepsCursor | mcp-server/src/backend.rs:356-406 | a call leaves the cursor right if and only if it neither confirms a served prediction behind the cursor nor fails to build a payload with an action already recorded |
| SpeculativeLinks.LinksJoinAdjacentActions | core-runtime/src/speculative/mod.rs:193-205 | over all runs without those two kinds of call every link is trained between two actions executed one right after the other |
| SpeculativeLinks.LinksAreTrueIffCursorKept | core-runtime/src/speculative/mod.rs:148-205 | exact condition: a run, stopped anywhere and probed, links adjacent actions only if and only if it has no such call |
| SpeculativeLinks.FailedReadLinksAnActionToItself | mcp-server/src/backend.rs:283-318 | a failed read after one action, and the read repeated, link the action to itself |
| SpeculativeLinks.ConfirmedHitSkipsAnAction | mcp-server/src/backend_tools.rs:180-189 | a run that the engine's own answers allow: after a confirmed prediction the table links `a` to `c`, though every `a` was followed by `b` |
| RestartLimiter.Restarts.HandleBrowserDisconnect | mcp-server/src/backend_tools.rs:527-592 | the pruning loop and the admission compute Attempt; failed relaunches count, only successes raise the counter |
| RestartLimiter.NoRestartStorm | mcp-server/src/lib.rs:192-199 | with a non-decreasing clock any four consecutive attempts span more than 60 seconds, and the history is a sorted suffix of the attempts of length at most 3 |
| RestartLimiter.RefusedOnlyInAStorm | mcp-server/src/backend_tools.rs:540-546 | an attempt is refused only when three admitted ones lie within the last 60 seconds |
| RollingSink.RollingFileSink.WriteLine | core-runtime/src/audit_sink.rs:159-201 | one write with its poison, open, write and flush failures computes Write |
| RollingSink.MeteredSink.WriteLine | core-runtime/src/audit_sink.rs:427-448 | the meter counts events and bytes of accepted writes only, and errors of the others |
| RollingSink.WriteIsExact | core-runtime/src/audit_sink.rs:159-201 | a write is accepted if and only if the sink is not poisoned and no open, write or flush it needs fails; an accepted line is the last of the last file, a new file is opened exactly when the line does not fit behind what was counted, and the byte counter is exact |
| RollingSink.PanicCostsOneLine | core-runtime/src/audit_sink.rs:159-176 | after a panic in a write exactly the next line is refused; the one after it is accepted into a new file, whatever fails in between |
| RollingSink.EveryWriteIsCounted | core-runtime/src/audit_sink.rs:427-448 | over every run each write is metered once, as an event or as an error |
| RollingSink.NothingIsLostOrReordered | core-runtime/src/audit_sink.rs:159-201 | whatever fails, the files in creation order concatenate to the lines that reached a file, and the accepted lines are among them in order |
| RollingSink.RotationIsExact | core-runtime/src/audit_sink.rs:137-201 | when landed lines flush, the files are exactly the accepted lines, metered bytes equal the file sizes, a file of two or more lines fits the limit, and rotation is early only after a poison reset |
| RollingSink.FilesMatchTheMeterIffFlushed | core-runtime/src/audit_sink.rs:191-199 | files hold the accepted lines, and the meter shows their size, if and only if no landed line failed to flush |
| RollingSink.UnflushedLineOverfillsFile | core-runtime/src/audit_sink.rs:191-199 | from any sink with a limit and a right byte counter, after any landing that fails to flush, the line that would just fill what the counter has left overfills the file |
| RollingSink.SizeBoundHoldsIffFlushed | core-runtime/src/audit_sink.rs:178-199 | exact condition of the size bound: a run under a limit, stopped anywhere and given any one more line, keeps every file of two or more lines within it if and only if no landed line failed to flush |
| Redactor.SplitKey | core-runtime/src/privacy.rs:295-327 | the tokeniser's loop computes KeyTokens |
| Redactor.TokensSpellTheKey | core-runtime/src/privacy.rs:293-327 | tokens are non-empty and concatenate to the key's letters and digits, lower-cased, in order |
| Redactor.WholeWordsOnly | core-runtime/src/privacy.rs:277-291 | a one-word key is structured PII if and only if it is itself one of the words, never for containing one |
| RedactedKeys.JoinedWordsSplit | core-runtime/src/privacy.rs:293-327 | any number of words of lower-case letters and digits, joined by any one separator, are exactly the tokens again |
| RedactedKeys.CamelCaseSplits | core-runtime/src/privacy.rs:293-327 | words written in camelCase are exactly the tokens again, single letters included unless two of them meet |
| RedactedKeys.AcronymSplits | core-runtime/src/privacy.rs:308-318 | an acronym is one token and the capital of the word behind it belongs to that word |
| RedactedKeys.JoinedKeyIsPiiIff | core-runtime/src/privacy.rs:257-291 | a key written with separators is structured PII if and only if one of its words is in the list or one of the two phrases stands in it |
| RedactedKeys.CamelKeyIsPiiIff | core-runtime/src/privacy.rs:257-291 | a key written in camelCase is structured PII if and only if its words are |
| RedactedKeys.CredentialWordsMatchAnywhere | core-runtime/src/privacy.rs:249-275 | a credential word makes a key sensitive wherever it stands and however it is cased |
| RedactedKeys.OneWordIsSensitiveIff | core-runtime/src/privacy.rs:249-291 | exactly which one-word keys are sensitive: by a credential word anywhere in them, or as a whole word of the lists |
| RedactedKeys.MemberIsRedacted | core-runtime/src/privacy.rs:116-153 | a member of an object leaves as the mask if and only if its key is sensitive or, in tool arguments, a key of typed text; else as the redaction of its value |
| Redactor.RedactMeansRedaction | core-runtime/src/privacy.rs:116-153 | key sets and array lengths survive outside masked values, a sensitive key at any depth holds only the mask, and everything else but text is unchanged |
| Redactor.RedactionIsUnique | core-runtime/src/privacy.rs:116-153 | that meaning determines the result, so the key hint never matters |
| Redactor.RedactIsIdempotent | core-runtime/src/privacy.rs:103-114 | redacting a JSON value twice is redacting it once, given an idempotent text redactor |
| RedactedNodes.OnlyCleanTextLeaves | core-runtime/src/privacy.rs:191-247 | whatever the text redactor guarantees of its output holds of every caption, alias and attribute of the tree |
| RedactedNodes.RedactionKeepsShape | core-runtime/src/privacy.rs:191-247 | roles, identities, flags, children, attribute keys and absent texts are unchanged |
| RedactedNodes.SecretsAreMasked | core-runtime/src/privacy.rs:191-247 | at any depth the caption of a sensitive role, every attribute under a sensitive key and the value of a password, hidden or email input leave as the mask, and every other text as its text redaction |
| RedactedNodes.TreeSettlesUnlessTypeTurns | core-runtime/src/privacy.rs:191-247 | redacting a tree twice is redacting it once if and only if text redaction turns no element's type sensitive while a value was let through |
| RedactedNodes.TypeCanTurnSensitive | core-runtime/src/privacy.rs:223-247 | a configured pattern and an element for which that happens |
| DomMatch.ThresholdOverAllTraits | core-runtime/src/dom_signature.rs:62-126 | for every node, what clears the threshold over role, label, alias and attributes: with the role any other trait, the label from a third of the words on; without it, what the rest must make up for |
| DomMatch.ScoreReaches | core-runtime/src/dom_signature.rs:62-126 | every level of the score, not just the threshold: it is reached if and only if the other traits reach it or the labels share the words for what is missing |
| DomMatch.CloserNodesScoreHigher | core-runtime/src/dom_signature.rs:62-126 | a node at least as close in every trait never scores less, and short of the cap each further trait is worth its own points |
| DomMatch.MeaningfulOverlapIsAThird | core-runtime/src/dom_signature.rs:94-126 | two labels earn the ten points the calibration asks for if and only if they are equal or at least a third of their words agree |
| DomMatch.SharedWordIsNotEnough | core-runtime/src/dom_signature.rs:94-126 | a matching role and a shared word that score 42 |
| DomMatch.AnySortPicksTheClearWinner | core-runtime/src/dom_signature.rs:168-189 | from any descending order of the candidates the pick is a node if and only if it is the strict unique maximum with at least the threshold |
| DomMatch.FindBestMatch | core-runtime/src/dom_signature.rs:160-190 | the in-place search returns a node if and only if it is the clear winner among all nodes |

## Left out

Atomic steps and outside calls:

- A critical section that holds a mutex and makes at most one external call is one step of the bridge machine; the gateway, the chat service and the audit trail are each atomic calls that succeed or fail. `BridgeSystem` splits the gateway's polls and decisions into their own steps.
- A failed gateway call has no effect: `approve_pending_policy_request_if_current` and its reject counterpart are modelled as one compare-and-resolve under the session's approval lock; the document check and the grant they publish are not part of this model.
- BridgeObject.Bridge.Resolve: covers a call that finds the progress lock of its claim free; a call that waits for it is covered by the step machine, with every interleaving of the others.
- The first process starts with an empty trail. A restart drops claims, tokens and the identity slot and keeps the sessions' requests, which may then go at any time; the step machine alone, over its ideal log, describes one process.
- Mutex poisoning and thread panics, except the rolling sink's poison reset.
- The polling loop's interval and error logging, the HTTP routes, Slack, lock files and configuration.

Files, digests and identities:

- Appending is whole-line: torn writes are not modelled. Digests have no collisions, index files hold what was written to them, and fresh ids are counters.
- Projected outcomes are opaque text, so a stored floating-point amount that is not equal to itself is not modelled.
- Index entries that a foreign process wrote are assumed to belong to the log.
- Byte counters do not wrap at 64 bits.
- The webhook sink, file naming and the two durability modes beyond their common failure points.

Vault:

- The cipher is known only by its law that decryption under the same key inverts encryption; serialization of session data, zeroizing of key bytes and nonce collisions are not modelled.
- Key manager adapters other than the software one appear only as a missing rotation capability or a refused finalize.

JSON Patch and replay:

- Documents are values: the interpreter edits a deep copy in place, and a value inserted by an operation stays shared with that operation object. For events parsed from JSON text, where no two operations share a value, this cannot be observed.
- PatchTheorems.TransferredValuePassesTest: numbers are reals, so the NaN that Python's parser accepts, which is not equal to itself and fails its own test after a copy, is not modelled.
- Operation members of the wrong type, and digits outside ASCII, which Python's `isdigit` accepts.
- Report rendering, the command line, and the Rust replayer, which delegates to a library.

Speculation and restarts:

- The engine's frequency tables, snapshot cache and mismatch log: a prediction query is an arbitrary answer, and in the example runs one that the learned edges and links allow; domain hints are not part of this model.
- The page changes only through the modelled calls; serializing a response cannot fail after the cache was set.
- The visual, extract, verify and ask-human tools, skill execution beyond the number of its successful acts, and the reapplication of policy rules after a relaunch.
- A backend without a managed browser refuses every restart before the limiter is reached.

Redaction and matching:

- The text patterns are a parameter; state-level wrappers apply the node redactor to each list of nodes.
- DomMatch.ThresholdOverAllTraits: label similarity is the exact truncated quotient; rounding of 32-bit floating point and whitespace splitting are not modelled.
- The signature cache's map of remembered signatures, beyond the one entry that is looked up.

Elsewhere in the repository:

- Policy matching, metering, plugins, dashboards, marketplace payloads and benchmarks: lookups, counters and formatting without a promise that spans calls.
