# RefineQ: model and proofs

A Dafny 4.11 model of the stateful protocols and pure cores of RefineQ, with proofs of what they keep.
`dafny verify dfyconfig.toml` checks all of it.

| files | what they model |
|---|---|
| `DeletionJournal`, `AccountDeletion`, `DeletionExactness`, `DeletionInterleaved` | crash-recoverable account deletion: journal, fence, object deletes, recovery, writes in between |
| `SchemaMigration`, `SchemaInitialize` | the schema upgrade that regroups material rows into one library row each |
| `AgentHistory`, `AgentHistoryLaws`, `AgentSession`, `AgentSessionLaws`, `AgentTurnGaps` | the chat history trimmed under two budgets, the turn cache and optimistic commits |
| `Base64`, `HomeTokens` | the signed confirmation tokens and their codec |
| `HomeConfirm`, `HomeConfirmRuns` | confirming a plan action under interleavings, retries and crashes |
| `HomeSpaces`, `HomeSpacesLaws`, `HomeSpacesRuns` | revising, confirming and undoing a workspace proposal |
| `RateLimiter`, `RateLimiterLaws`, `RateLimiterRetry` | the sliding-window limiter with key eviction |
| `KnowledgeTracing` | Bayesian knowledge tracing, folded over a history |
| `UploadQueue`, `UploadAdmission`, `ReadCache` | the serial upload queue, the upload admission counters, the client read cache |
| `DispatchCandidates`, `PlanDates` | bounded candidate selection; session selection and date moves |
| `Wrappers`, `TextOrder`, `SetCounting` | options and results; Python's order on strings; sizes of sets |

Code that changes state step by step is a class whose methods are proved against functions on values; the
`...Laws` and `...Runs` files prove what those functions keep over whole runs. Each protocol's state is a value, and
each durable effect, atomic call or settled promise is one step, so a crash or an interleaving is a choice between
steps.

## What does not hold as one might expect

Each of these is proved with a case that fails and with the condition under which the code does meet the expectation.

- Account deletion restores an object under the key recomputed from its row. A row the schema migration moved to the
  library keeps its old storage key, so a deletion called off after its objects were deleted puts it where the row does
  not look (`RecoversIffRestorable`, `MigratedRowIsLost`).
- The turn cache evicts the first key of a stored JSON object. PostgreSQL's JSONB and the file store do not return
  keys in insertion order, so there it is not the cache of the most recent 20 turns
  (`KeyedIsRecentIff`, `LeastIsForgotten`); `src/refineq/database/schema.py:38` and
  `src/refineq/storage/json_store.py:135` set the order.
- An empty message, such as a blank request or an empty model reply, costs a place in the trim without being kept, so
  trimming turn by turn can differ from trimming the log (`EmptyRepliesDisagree`, `TurnsCommuteIff`).
- Versions restart when a session is deleted and created again, so the version check can be fooled, for every session
  a chat can have read (`RecreatedSessionIsMistaken`, `CommitsIff`); without deletions it cannot
  (`CommitsOntoWhatItRead`).
- A workspace preview is signed over the visible spaces and revised against all spaces: an owner with an archived space
  can confirm a preview but never revise one (`RevisableIff`, `ArchivedSpaceStopsRevision`).
- Making room for a named space can drop another named one (`AllPreservedOfferedIff`, `TwoNamedDoNotFit`).
- The retry advice of a saturated limiter is only a lower bound: it looks at the oldest event, but a place comes free
  when a key has no event left (`SaturatedRetry`, `SaturationAdviceIsOnlyALowerBound`).
- With slip + guess above 1 a wrong answer can be worth more than a correct one (`CorrectNeverWorseIff`).

## Assumptions

- `ObjectStorage.put` recreates the object under the key computed from owner, workspace and material.
- A database transaction is atomic, and `update_plan_session` checks the expected version and raises it in one.
- Every owner write takes the writable-owner lock.
- New workspace ids and deletion ids have not been used before, and no other writer brings a deleted workspace back.
- Where owners write during a deletion (`DeletionInterleaved`), the rows they store carry the key `put` computes.
- JSON parses back what it printed. Where a result says so: the MAC cannot be forged, hashes do not collide.
- Base64 text is decoded as Python's `binascii` documents: characters outside the alphabet are skipped.

## Model

| member | source | states |
|---|---|---|
| `AccountDeletion.AccountDeletionCoordinator.DeleteCrashRecover` | src/refineq/identity/deletion.py:64-228 | a deletion attempt that crashes anywhere, then owner writes and recoveries that crash anywhere, then one more recovery, which gets through whenever none of its effects raises: the disk is then exactly the original one, or the one with the account and its objects gone, plus in order exactly those of the given writes that were accepted, which the result names |
| `AccountDeletion.AccountDeletionCoordinator.Prepare` | src/refineq/identity/deletion.py:64-127 | an allowed deletion of a writable account whose objects can all be read succeeds unless an effect raises; then the account is fenced, each row's blob is staged and listed and the lease is held; every durable state passed is all-or-nothing; on failure the lease is released, and where the only effect that raised is the one that stopped it, the disk is as it was |
| `AccountDeletion.AccountDeletionCoordinator.StageRow` | src/refineq/identity/deletion.py:97-112 | a staged row's blob is durable before the manifest lists it, so each state in between is all-or-nothing |
| `AccountDeletion.AccountDeletionCoordinator.Restore` | src/refineq/identity/deletion.py:129-139 | puts each listed blob at its put key, keeps what is there and adds nothing else; it stops only at an effect that raised or at an entry that cannot be put back, because its blob is gone or its key holds something else |
| `AccountDeletion.AccountDeletionCoordinator.Rollback` | src/refineq/identity/deletion.py:141-150 | when it returns, every listed blob is at its put key beside what was there, this deletion's fence is off, its journal is gone; it fails only when an effect raised or an entry cannot be put back; the lease is released in every case |
| `AccountDeletion.AccountDeletionCoordinator.Complete` | src/refineq/identity/deletion.py:152-172 | deletes exactly the account row and the objects its rows list; if the only effect that raised is the one that stopped it, the account is there unfenced with every object it had, the journal is gone, and with no other journal the disk is the goal; every state passed is all-or-nothing |
| `AccountDeletion.AccountDeletionCoordinator.RecoverOne` | src/refineq/identity/deletion.py:214-226 | a journal that is not current changes neither accounts nor objects; a current one is restored, unfenced and then dropped |
| `AccountDeletion.AccountDeletionCoordinator.RecoverPending` | src/refineq/identity/deletion.py:205-228 | one uninterrupted recovery over any journals, old ones included, in any order, ends without journals on exactly the clean disk; it never touches anything when the lease is taken |
| `AccountDeletion.AccountDeletionCoordinator.RecoverAndCrash` | src/refineq/identity/deletion.py:205-228 | a recovery that crashes at any of its durable states still owes the same clean disk |
| `AccountDeletion.AccountDeletionCoordinator.OwnerWrite` | src/refineq/database/owner_state.py:16-33 | a write is accepted exactly when the owner exists unfenced, and then survives every later recovery |
| `DeletionJournal.GoalUnique` | src/refineq/identity/deletion.py:205-228 | a durable state determines the one clean disk recovery owes |
| `DeletionJournal.NoJournalsIsGoal` | src/refineq/identity/deletion.py:205-228 | a state without journals is that clean disk |
| `DeletionJournal.MissingOnlyWhileFenced` | src/refineq/identity/deletion.py:64-228 | an object is missing only while its account is fenced by a journal that lists its blob |
| `DeletionJournal.StaleJournalChange` | src/refineq/identity/deletion.py:214-226 | creating, changing or dropping a journal that fences nobody owes the same disk |
| `DeletionJournal.DeleteListedObject` | src/refineq/identity/deletion.py:159-160 | deleting an object a current journal lists owes the same disk |
| `DeletionJournal.RestoreListedObject` | src/refineq/identity/deletion.py:129-139 | putting a listed blob back never changes what is there and owes the same disk |
| `DeletionJournal.LiftFence` | src/refineq/identity/deletion.py:141-150 | the fence may come off once everything the journal lists is back |
| `DeletionJournal.DeleteRow` | src/refineq/identity/deletion.py:159-166 | deleting the row once its objects are gone turns the goal into the one without account and objects |
| `DeletionJournal.WriteSurvivesRecovery` | src/refineq/database/owner_state.py:16-33 | an accepted owner write commutes with recovery: recovery of the written disk owes the written goal |
| `DeletionExactness.RecoversIffRestorable` | src/refineq/identity/deletion.py:129-139 | each disk a deletion has with n rows staged and m objects deleted is recovered to the original one if and only if recomputed put keys and stored keys of the rows are the same set with agreeing blobs |
| `DeletionExactness.PassEveryCrashDisk` | src/refineq/identity/deletion.py:97-172 | a deletion that runs through passes every one of those disks, and it does run through for a writable account with all objects stored when no effect raises |
| `DeletionExactness.MigratedRowIsLost` | src/refineq/identity/deletion.py:129-139 | a row the schema migration moved to the library with its old storage key is the counterexample: its object comes back at the library's key |
| `DeletionInterleaved.RunGood` | src/refineq/identity/deletion.py:64-228 | with owner writes between any two effects of a deletion or recovery, effects that raise and crashes anywhere, the disk always owes exactly the ideal disk, on which accounts disappear in one step and only accepted writes happen |
| `DeletionInterleaved.SettledIsIdeal` | src/refineq/identity/deletion.py:64-228 | so whenever no journal is left the disk is that ideal disk |
| `DeletionInterleaved.WriteFenced` | src/refineq/database/owner_state.py:16-33 | what the coordinator relies on in each phase survives every write accepted while its account is fenced |
| `DeletionInterleaved.StraightPasses` | src/refineq/identity/deletion.py:64-172 | the interleaved steps are the coordinator's: undisturbed they pass each crash disk |
| `DeletionInterleaved.StraightThrough` | src/refineq/identity/deletion.py:64-172 | and end with the account, its listed objects and the journal gone and nothing else changed |
| `DeletionInterleaved.UndoneThrough` | src/refineq/identity/deletion.py:129-228 | a deletion that ends before its row is gone, after any number of deletes, because the next one raises, it is called off, or the process stops and recovery runs, leaves exactly the disk there was |
| `DeletionInterleaved.StagingUndone` | src/refineq/identity/deletion.py:93-120 | so does one whose staging raises after any number of rows |
| `SchemaInitialize.Database.Initialize` | src/refineq/database/engine.py:43-218 | a new database and versions 3 to 5 succeed exactly without two rows of one material and change in nothing but the version; versions 1 and 2 exactly when no link and no chunk would be stored twice; any other version is refused by its number; what succeeds leaves exactly the tables of `Upgrade`, and an error leaves them untouched |
| `SchemaInitialize.Database.SelectSource` | src/refineq/database/engine.py:132-142 | the loop over candidate rows finds the unique best row |
| `SchemaInitialize.Database.MergeGroup` | src/refineq/database/engine.py:131-180 | deleting the duplicates and relabelling the kept row and its chunks is one more merged group; it fails exactly on a library chunk nobody owns |
| `SchemaMigration.OneLibraryRow` | src/refineq/database/engine.py:131-180 | exactly one row per material, in the library, equal to the unique best old row |
| `SchemaMigration.KeptIsGreatest` | src/refineq/database/engine.py:132-142 | the kept row has the greatest key: indexed, then most chunks, then latest, then the library, then the greatest project name |
| `SchemaMigration.BelowOrder` | src/refineq/database/engine.py:132-142 | the selection key orders the rows of a material totally, so the best row is unique |
| `SchemaMigration.MergeIsUnique` | src/refineq/database/engine.py:213-218 | the unique index on owner and material can always be built afterwards |
| `SchemaMigration.ReachPreserved` | src/refineq/database/engine.py:101-111 | after the upgrade from version 1 or 2 a workspace reaches a material if and only if it had a row of it, or an earlier link to a material that has some row; from a later version reach is unchanged |
| `SchemaMigration.ChunksFollowKeptRow` | src/refineq/database/engine.py:148-180 | after the upgrade of owned tables from version 1 or 2 the library row holds exactly the kept row's chunks and no other chunk is left |
| `SchemaMigration.OwnedNeverClashes` | src/refineq/database/engine.py:101-180 | with owned chunks and no earlier links no statement breaks a uniqueness constraint |
| `SchemaMigration.UpgradeSucceeds` | src/refineq/database/engine.py:61-212 | from version 1 or 2 such tables always reach the current version |
| `SchemaMigration.UpgradeIs` | src/refineq/database/engine.py:55-218 | for every version when the upgrade succeeds and with which error it refuses |
| `SchemaMigration.NewDatabase` | src/refineq/database/engine.py:55-58 | the first start of an installation succeeds at the current version |
| `SchemaMigration.LinksAre` | src/refineq/database/engine.py:101-111 | the links afterwards are the earlier ones and one per workspace row, from its indexing on |
| `SchemaMigration.UpgradeKeepsContent` | src/refineq/database/engine.py:61-180 | the surviving row is the best old row in everything but project and, from version 1, title |
| `SchemaMigration.UpgradeIdempotent` | src/refineq/database/engine.py:43-218 | a second run changes nothing |
| `AgentHistory.BoundedHistory` | src/refineq/agent/service.py:135-158 | the reversed loop with its two budgets is the recursive trim |
| `AgentHistoryLaws.TrimCommutes` | src/refineq/agent/service.py:135-158 | trimming the stored part and continuing equals trimming everything, for every continuation by messages, if and only if no empty message is newer than the oldest kept one |
| `AgentTurnGaps.TurnsCommuteIff` | src/refineq/agent/service.py:508-545 | for every continuation by whole turns, if and only if no empty message is newer than the oldest kept one, save the reply to it |
| `AgentTurnGaps.StoredWhileSafe` | src/refineq/agent/service.py:508-545 | the history trimmed turn by turn is one trim of the log as long as that condition held before every turn |
| `AgentTurnGaps.EmptyRepliesDisagree` | src/refineq/agent/service.py:508-545 | a log on which they differ: after eleven turns with empty replies eleven messages are stored where one trim keeps at most ten |
| `AgentHistoryLaws.KeepsLongestSuffix` | src/refineq/agent/service.py:135-158 | without empty messages the trim keeps the longest suffix within both budgets, or the tail of a newest message that alone exceeds them |
| `AgentHistoryLaws.KeepStable` | src/refineq/agent/service.py:135-158 | trimming twice is trimming once |
| `AgentSession.SessionStore.AppendMessages` | src/refineq/agent/service.py:508-543 | messages and turn cache after one turn, through the eviction loop |
| `AgentSession.SessionStore.BeginTurn` | src/refineq/agent/service.py:421-448 | the first half of a chat: quota, workspace and replay before the model is asked, and the history it is shown |
| `AgentSession.SessionStore.CommitTurn` | src/refineq/agent/service.py:545-608 | the commit decision, with replay, version and quota checks in order |
| `AgentSessionLaws.BeginIs` | src/refineq/agent/service.py:421-436 | after any run, a chat stops at the start exactly over the quota without a session, in another workspace's session, or with a held turn; else it reads the number of chats committed |
| `AgentSessionLaws.ShownIsStored` | src/refineq/agent/service.py:438-443 | after any run the model is shown every stored message: trimming before the call drops nothing more |
| `AgentSessionLaws.StoredHistoryIsTrimmedLog` | src/refineq/agent/service.py:508-545 | after any run of turns with text the stored messages are one trim of the whole committed conversation |
| `AgentSessionLaws.RunAgrees` | src/refineq/agent/service.py:545-608 | after any run of chats, retries and deletions the store holds what its own log of committed chats says: version, cache and messages |
| `AgentSessionLaws.CacheIs` | src/refineq/agent/service.py:525-543 | the cache holds at most 20 distinct ids, each with the reply last committed for it, the newest among them |
| `AgentSessionLaws.RetryIsReplayed` | src/refineq/agent/service.py:384-608 | a retry, with anything happening between its two halves, is replayed if and only if the cache held its id when it began, then without asking the model, or holds it when it would commit; nothing is appended and the reply is the one last committed for the id |
| `AgentSessionLaws.HeldIsStored` | src/refineq/agent/service.py:384-436 | what the cache holds replays the reply last committed for the id, and the newest turn is always held |
| `AgentSessionLaws.CacheIsRecent` | src/refineq/agent/service.py:525-543 | on a store that keeps keys in insertion order the cache is the last 20 committed turn ids, in order |
| `AgentSessionLaws.KeyedIsRecentIff` | src/refineq/agent/service.py:540-541 | on a store that returns keys in an order of its own, for ids used once, the cache is the most recent 20 after every commit if and only if, whenever a turn is evicted, the oldest has the least id |
| `AgentSessionLaws.LeastIsForgotten` | src/refineq/agent/service.py:540-541 | the turn with the least id of a full cache, even the newest, is forgotten by the next commit, and its retry is answered and appended again |
| `AgentSessionLaws.FileStoreIsKeyed` | src/refineq/storage/json_store.py:126-136 | the file store's sorted keys are such an order |
| `AgentSessionLaws.CommitsOntoWhatItRead` | src/refineq/agent/service.py:557-578 | without deletions a chat commits only onto the very session it read |
| `AgentSessionLaws.CommitsIff` | src/refineq/agent/service.py:545-608 | after any run, deletions included: a chat that read version v is answered exactly when the chats committed since the session was last created number v, the workspace is its own and its turn is not held; one that read no session exactly when there still is none and the quota is not full; everything else is a replay, a limit or a conflict by exact conditions and stores nothing |
| `AgentSessionLaws.EachReadTheOnesBefore` | src/refineq/agent/service.py:578-608 | in a session's log each chat read exactly the chats before it: of any number begun before the session existed one created it and none of the others was appended |
| `AgentSessionLaws.AnsweredTurnIsLast` | src/refineq/agent/service.py:508-524 | an answered chat is what the stored messages end with: the request as the user's, then the reply with its citations and sources |
| `AgentSessionLaws.RecreatedSessionIsMistaken` | src/refineq/agent/service.py:569-572 | whatever session a chat read, after one deletion and as many new chats as it had read it commits onto a session of which it read nothing |
| `Base64.RoundTrip` | src/refineq/home/tokens.py:45-50 | decoding undoes encoding for every byte string (sections 3.2 and 5 of RFC 4648) |
| `Base64.OnlyUrlSafe` | src/refineq/home/tokens.py:45-46 | an encoding uses the URL-safe alphabet alone |
| `Base64.Rfc4648Vectors` | src/refineq/home/tokens.py:45-46 | the examples of section 10 of RFC 4648, without pads |
| `Base64.NoiseIsSkipped` | src/refineq/home/tokens.py:49-50 | a character outside both alphabets is passed over wherever it stands |
| `Base64.Repadded` | src/refineq/home/tokens.py:45-50 | stripping the pads loses nothing: re-padding gives the padded text back, and the stripped text has no pad and no dot |
| `Base64.EncodeInjective` | src/refineq/home/tokens.py:45-46 | different bytes have different encodings |
| `Base64.DecodeForgets` | src/refineq/home/tokens.py:49-50 | decoding is not injective: the left-over bits of a short group are dropped, for every such text |
| `HomeTokens.VerifyIssued` | src/refineq/home/tokens.py:91-147 | verifying an issued token gives the issued claims exactly before expiry, for the owner and operation; otherwise the first failing check is the error |
| `HomeTokens.OpensOnlySigned` | src/refineq/home/tokens.py:130-138 | a token opens only as a body followed by exactly its own signature |
| `HomeTokens.SignatureBinds` | src/refineq/home/tokens.py:130-134 | a signature moved to another body is accepted only if the two MACs agree |
| `HomeTokens.OnlyIssuedIsAccepted` | src/refineq/home/tokens.py:122-147 | with an unforgeable MAC only issued claims are accepted, and only for their owner, before expiry |
| `HomeConfirm.HomeDispatchService.Confirm` | src/refineq/home/service.py:1353-1425 | one uninterrupted call is the four locked steps; it saves a receipt once, replays it unchanged, or refuses and leaves receipts and plans alone |
| `HomeConfirm.HomeDispatchService.BeginLocked` | src/refineq/home/service.py:1363-1413 | receipt lookup, then every check in order |
| `HomeConfirm.HomeDispatchService.UpdatePlanSession` | src/refineq/home/service.py:1562-1598 | a reschedule asks the plan for the signed new time with displacement, a change of minutes for the signed minutes without, both in the signed offset for the first affected session, at the version read; each refusal tells its reason, the daily budget's as such |
| `HomeConfirm.HomeDispatchService.SaveLocked` | src/refineq/home/events.py:163-177 | the first receipt of a key stands |
| `HomeConfirm.DecimalInjective` | src/refineq/home/service.py:1559-1560 | comparing versions as text compares versions |
| `HomeConfirmRuns.RunKeeps` | src/refineq/home/service.py:1353-1611 | the protocol invariant holds after every interleaving of calls, retries, edits elsewhere, deletions and crashes |
| `HomeConfirmRuns.AppliedOnce` | src/refineq/home/service.py:1546-1611 | no two edits of a run carry the same target and signed version, so no token edits twice, crash after the edit included |
| `HomeConfirmRuns.AppliedAsSigned` | src/refineq/home/service.py:1392-1412 | every edit of a run replaced exactly the plan version its token was signed for, with exactly the fields signed for this owner |
| `HomeConfirmRuns.EditIsTheVerifiedOne` | src/refineq/home/service.py:1562-1590 | in any run a confirmed edit changes one plan, from the signed version to the next, by exactly that edit |
| `HomeConfirmRuns.ReceiptsStay` | src/refineq/home/events.py:155-177 | no later event changes or removes a receipt |
| `HomeConfirmRuns.LaterConfirmReplays` | src/refineq/home/service.py:1371-1376 | every later confirm of a key with a receipt returns it marked replayed, or is refused for another request, and changes nothing |
| `HomeConfirmRuns.SpentTokenIsRefused` | src/refineq/home/service.py:1555-1560 | a token whose edit was made, receipt or not, is refused when presented again |
| `HomeConfirmRuns.EditsAreAccountedFor` | src/refineq/home/service.py:1546-1611 | in any run the edits made under a key are exactly its receipt, the call about to write one and the calls lost to a crash; a receipt tells of an edit that was made |
| `HomeConfirmRuns.KeyAppliedOnce` | src/refineq/home/events.py:155-161 | without crashes and deletions even an idempotency key edits at most once |
| `HomeConfirmRuns.ConfirmSucceedsIff` | src/refineq/home/service.py:1353-1425 | an uninterrupted first confirm leaves its receipt exactly when every check passes at the current version and the plan takes the signed edit; the plan is then what that edit makes of it |
| `HomeConfirmRuns.OnlySignedActionConfirms` | src/refineq/home/service.py:1056-1068 | an offered token admits exactly the offered action, for its own request, until it expires |
| `HomeConfirmRuns.OfferedActionConfirmsIff` | src/refineq/home/service.py:1353-1425 | from the offer to the receipt: a first confirm succeeds exactly when it comes as offered and in time, the plan is still at the version it was offered for, and takes the signed edit |
| `HomeConfirmRuns.WhyRefused` | src/refineq/home/service.py:1391-1410 | a request that departs from its offer in one respect is refused for that reason |
| `HomeConfirmRuns.OthersWin` | src/refineq/home/service.py:1562-1610 | an edit made elsewhere after the plan was read is not overwritten and a plan deleted then is not written: no receipt, nothing of the confirmation's own |
| `HomeConfirmRuns.RetryAfterCrash` | src/refineq/home/service.py:1353-1425 | a process that stops between edit and receipt leaves the edit; the same confirm sent again neither edits twice nor gets a receipt |
| `HomeSpacesLaws.ChainKeeps` | src/refineq/home/service.py:1427-1479 | along any chain of revisions the idempotency key and the signed state never change, and each token is sealed over exactly its own fields |
| `HomeSpacesLaws.ChainGives` | src/refineq/home/service.py:1456-1482 | the last preview of a chain shows goal, exam time and minutes as last given, the title last given or brought by a later goal, and the subject, topics and keywords of its goal |
| `HomeSpacesLaws.WhyNotRevised` | src/refineq/home/service.py:1440-1464 | a revision that one thing stands in the way of is refused for that reason |
| `HomeSpacesLaws.OnlySignedFieldsConfirm` | src/refineq/home/service.py:1384-1411 | a preview's token passes `confirm` for exactly its own fields, its own request, before it expires |
| `HomeSpacesLaws.RevisableIff` | src/refineq/home/service.py:1453-1455 | a fresh preview can be revised if and only if the visible spaces are as signed and no space is archived: the preview is signed over visible spaces, the revision compares all |
| `HomeSpacesLaws.ArchivedSpaceStopsRevision` | src/refineq/home/service.py:1453-1455 | an owner whose one space is archived can confirm a fresh preview but not revise it |
| `HomeSpacesLaws.CommittableIff` | src/refineq/workspaces/service.py:292-297 | a revision commits exactly below the quota with the visible spaces as signed, is told which of the two fails, and adds the one new space |
| `HomeSpaces.HomeSpaceService.ConfirmWorkspace` | src/refineq/home/service.py:1481-1544 | replay, refusal or creation with its receipt and undo token, and nothing else changed |
| `HomeSpaces.HomeSpaceService.UndoCreatedWorkspace` | src/refineq/home/service.py:250-338 | every way an undo may end: success only with the deferred deletion finalized; aborting leaves rows and receipts alone; a finalization that raises comes after the commit and is given back; either end may itself raise |
| `HomeSpaces.UndoSettles` | src/refineq/home/service.py:250-338 | however an undo ends it leaves no deferred deletion open, and ends none twice |
| `HomeSpacesLaws.UndoIssued` | src/refineq/home/service.py:219-240 | an undo token admits its own request and space and carries that space's state |
| `HomeSpacesLaws.UndoOnlyAsIssued` | src/refineq/home/service.py:219-290 | and no other request or space |
| `HomeSpacesLaws.UndoOnlyUntouched` | src/refineq/home/service.py:296-318 | a created space that changed in any way is never deleted by its undo token |
| `HomeSpacesLaws.CreateThenUndo` | src/refineq/home/service.py:250-338 | creating and then undoing gives back exactly the spaces there were; a failed undo leaves the space unless finalizing is what failed |
| `HomeSpacesRuns.TwoSpacesTwoRequests` | src/refineq/home/service.py:1353-1425 | in any run of confirmations of any previews, undos and other changes, two confirmations that both create a space are of two requests |
| `HomeSpacesRuns.UndoTakesEffectOnce` | src/refineq/home/service.py:250-338 | once an undo has succeeded a second one of its request changes nothing, whatever has happened since |
| `HomeSpacesRuns.LaterConfirmReplays` | src/refineq/home/service.py:1363-1375 | every later confirmation for that request replays the receipt of that one space and changes nothing |
| `HomeSpacesRuns.OtherRequestIsRefused` | src/refineq/home/service.py:1370-1375 | another request that brings that key is refused and changes nothing |
| `HomeSpacesRuns.AlwaysSettled` | src/refineq/home/service.py:250-338 | after any run every deferred deletion was ended exactly once |
| `HomeSpacesRuns.GoneStaysGone` | src/refineq/home/service.py:250-338 | a created space that is gone is not brought back by retries of its request or of its undo |
| `RateLimiter.SlidingWindowRateLimiter.Check` | src/refineq/rate_limits.py:23-50 | the table after a check and the answer, including the advised seconds in both refusals |
| `RateLimiter.SlidingWindowRateLimiter.EvictLoop` | src/refineq/rate_limits.py:34-38 | the key-by-key pass drops exactly the stale events and then the empty keys |
| `RateLimiterLaws.DecidesByLog` | src/refineq/rate_limits.py:23-50 | after any run with a non-decreasing clock each decision is that of an ever-growing admission log: the key's live admissions against its limit, the other live keys against `max_keys` |
| `RateLimiterLaws.TableTellsLog` | src/refineq/rate_limits.py:23-50 | after every run the table holds at most `max_keys` keys, no empty deque, and tells the live admissions of every key |
| `RateLimiterLaws.WindowBound` | src/refineq/rate_limits.py:42-49 | no window of the limiter's length holds more than `limit` admissions of a key |
| `RateLimiterLaws.LogSorted` | src/refineq/rate_limits.py:42-49 | admissions stay in time order |
| `RateLimiterRetry.RetryAfterRun` | src/refineq/rate_limits.py:45-46 | a request that a run refused at its limit and that is repeated after any others, none of its key admitted: from the advised time on it is admitted unless other keys then fill the table, before the true wait is over it is refused, and the advice exceeds that wait by less than a second unless it is the floor of 1 |
| `RateLimiterRetry.RunInOrder` | src/refineq/rate_limits.py:23-50 | after every run each deque is in time order, so its first event is the oldest |
| `RateLimiterLaws.SaturationPersists` | src/refineq/rate_limits.py:39-41 | in the saturated branch a repeat before the advised event leaves the window is refused again |
| `RateLimiterRetry.SaturatedRetry` | src/refineq/rate_limits.py:39-41 | a request that a run refused because the table is full, repeated at any later time: it is admitted if and only if some key's newest event has left the window by then; at the advised time that is so when the key with the oldest event has no other |
| `RateLimiterRetry.SaturationAdviceIsOnlyALowerBound` | src/refineq/rate_limits.py:39-41 | a run whose advised repeat is refused again |
| `KnowledgeTracing.ClampNeverActs` | src/refineq/learning/bkt.py:22-29 | the learned value is always a probability, at least `p_learn` and at least the posterior, zero denominators included |
| `KnowledgeTracing.OddsTimesLikelihoods` | src/refineq/learning/bkt.py:10-25 | an answer multiplies the odds of mastery by the ratio of its likelihoods with and without mastery, then learning shrinks the doubt; an impossible answer leaves the prior |
| `KnowledgeTracing.WrongNeverRaisesIff` | src/refineq/learning/bkt.py:17-22 | before learning a wrong answer never raises the estimate at any prior if and only if slip + guess is at most 1, and lowers it strictly inside when below 1 |
| `KnowledgeTracing.WrongLowersIff` | src/refineq/learning/bkt.py:17-23 | with learning, a wrong answer lowers the estimate exactly when the prior outweighs what is learned |
| `KnowledgeTracing.UpdateGrows` | src/refineq/learning/bkt.py:10-29 | a stronger prior never gives a weaker result, for every guess and slip |
| `KnowledgeTracing.CorrectNeverWorseIff` | src/refineq/learning/bkt.py:14-23 | a correct answer is worth at least a wrong one at every prior if and only if slip + guess is at most 1 or `p_learn` is 1 |
| `KnowledgeTracing.CorrectNeverLowersIff` | src/refineq/learning/bkt.py:14-23 | a correct answer never lowers mastery at any prior if and only if guess · (1 − learn) is at most 1 − slip |
| `KnowledgeTracing.TraceGrows` | src/refineq/learning/bkt.py:10-29 | over any history the result is monotone in the start and in each answer |
| `KnowledgeTracing.TraceKeeps` | src/refineq/learning/bkt.py:10-29 | a history counts its evidence exactly, keeps its parameters and stays a valid state, never below `p_learn` after the first answer |
| `KnowledgeTracing.StaysStable` | src/refineq/learning/bkt.py:31-44 | a stable topic stays stable under further correct answers |
| `KnowledgeTracing.DoubtShrinks` | src/refineq/learning/bkt.py:22-23 | n correct answers leave at most the fraction (1 − learn)^n of the doubt |
| `KnowledgeTracing.TwelveCorrectAnswersSuffice` | src/refineq/learning/bkt.py:7-44 | with the shipped parameters twelve correct answers make any topic stable, whatever came before |
| `KnowledgeTracing.ThreeAnswersForANewLearner` | src/refineq/learning/bkt.py:7-44 | a new learner is stable after three correct answers and never after fewer answers |
| `UploadQueue.SerialTaskQueue.DrainLoop` | apps/web/lib/upload-flow.ts:31-49 | the drain up to its next await, or through its end |
| `UploadQueue.SerialTaskQueue.EnqueueItems` | apps/web/lib/upload-flow.ts:52-56 | appends and starts a drain only when none runs; ignored when closed |
| `UploadQueue.SerialTaskQueue.RemoveItems` | apps/web/lib/upload-flow.ts:57-59 | filters the pending items only |
| `UploadQueue.AlwaysSerial` | apps/web/lib/upload-flow.ts:24-72 | for any calls and settlements: at most one task runs, tasks start in enqueue order, every item is exactly one of pending, started, removed, dropped or skipped, and an open queue with pending items is being drained |
| `UploadQueue.StartedGrows` | apps/web/lib/upload-flow.ts:31-49 | what started is never forgotten or reordered |
| `UploadQueue.OpenQueueDrains` | apps/web/lib/upload-flow.ts:31-49 | left alone, an open queue starts everything that was pending, in order, and comes to rest |
| `UploadQueue.EnqueueGoesLast` | apps/web/lib/upload-flow.ts:52-56 | new items go behind everything started or waiting, in the order given; a closed queue takes none |
| `UploadQueue.RemoveTakesMatches` | apps/web/lib/upload-flow.ts:57-59 | removing takes exactly the pending items the predicate matches and nothing that runs or ran |
| `UploadQueue.CloseDropsPending` | apps/web/lib/upload-flow.ts:60-63 | closing drops everything that waits and leaves the running task to finish |
| `UploadQueue.OpenServesOn` | apps/web/lib/upload-flow.ts:64-67 | opening serves what waits in its order |
| `UploadQueue.FirstBatch` | apps/web/lib/upload-flow.ts:31-56 | items given to a new queue are all started in the order given, and then it rests |
| `UploadAdmission.UploadAdmissionController.Release` | src/refineq/api/limits.py:55-64 | the counters after a release, with both guards |
| `UploadAdmission.UploadAdmissionController.Upload` | src/refineq/api/limits.py:164-254 | whatever happens to an upload, both counters end as they began, and its status is the first check that failed |
| `UploadAdmission.AlwaysExact` | src/refineq/api/limits.py:40-64 | for every interleaving, with key failures and refusals, the counters equal the requests in flight, globally and by owner, within the limits, and each slot taken is held or was returned once |
| `UploadAdmission.QuietIsEmpty` | src/refineq/api/limits.py:55-64 | when nothing is in flight the counters are as new |
| `UploadAdmission.ReleaseIsExact` | src/refineq/api/limits.py:55-64 | a release always finds a slot to give back: its guards never act |
| `UploadAdmission.LetInIff` | src/refineq/api/limits.py:40-53 | after any run a request is let in exactly while there is room, globally and for its owner |
| `UploadAdmission.EndGivesBack` | src/refineq/api/limits.py:55-64 | after any run a request that ends, refused, failed or served, gives back exactly what it held |
| `UploadAdmission.Serve` | src/refineq/api/limits.py:191-251 | the answer to an admitted upload through the receive loop |
| `UploadAdmission.AnswerIs` | src/refineq/api/limits.py:191-251 | the first message that is late or takes the body over the limit decides which of the two the client is told; a message that is both counts as late; with none the application's answer is sent |
| `UploadAdmission.ServedIff` | src/refineq/api/limits.py:212-232 | the application sees the whole body exactly when all of it is in time and fits, and never more bytes than fit |
| `ReadCache.ApiClient.ListWorkspaces` | apps/web/lib/api.ts:300-307 | a read returns the live entry's load or starts and stores one |
| `ReadCache.ApiClient.LoadSettled` | apps/web/lib/api.ts:181-195 | a failed load removes only the entry that still holds it |
| `ReadCache.ApiClient.ClearWorkspaceReadCache` | apps/web/lib/api.ts:207-211 | the loop removes exactly the keys with the token's prefix |
| `ReadCache.ReadsAreSound` | apps/web/lib/api.ts:181-195 | after any run a read gets a load of its own cache and key that has not failed |
| `ReadCache.FreshAfterInvalidation` | apps/web/lib/api.ts:197-211 | a read issued after an invalidation never gets a load begun before it, whatever settles in between |
| `ReadCache.RunKeepsEntry` | apps/web/lib/api.ts:188-190 | through any run without an invalidation of its key, or a failure of its own load, a live entry stays: a late failure of an old load never evicts a newer one |
| `ReadCache.OneLoadPerTtl` | apps/web/lib/api.ts:181-195 | within the time to live every read gets the one load, unless the key is invalidated or that load fails |
| `ReadCache.NeverOlderThanTtl` | apps/web/lib/api.ts:181-195 | after any run a read gets a load it starts itself or one a read of the same key started less than five seconds before |
| `ReadCache.FailedIsNotServed` | apps/web/lib/api.ts:188-190 | once a load has failed no read gets it; one that succeeds changes no cache |
| `ReadCache.KeysApart` | apps/web/lib/api.ts:300-307 | no two tokens and no two lists of one token share an entry |
| `ReadCache.ClearReachesBothLists` | apps/web/lib/api.ts:207-211 | clearing a token's workspaces reaches both of its lists |
| `ReadCache.ClearLeavesOthers` | apps/web/lib/api.ts:207-211 | it touches another token's lists if and only if that token extends this one past a colon |
| `DispatchCandidates.SelectDispatchCandidates` | src/refineq/home/policy.py:170-191 | the list built in place by pop and append, and the truncation flag |
| `DispatchCandidates.OfferedSpaces` | src/refineq/home/policy.py:170-191 | at most eight spaces, strictly descending, each preserved or among the eight most recent open ones, always with the seven most recent open ones and the last preserved one |
| `DispatchCandidates.RecentAreOffered` | src/refineq/home/policy.py:176-191 | the list is in order of activity, and an open space with fewer than seven more recent ones is in it |
| `DispatchCandidates.PreservedIs` | src/refineq/home/policy.py:181-183 | room is made for the named spaces, open or archived, and then for the open ones that only match |
| `DispatchCandidates.AllPreservedOfferedIff` | src/refineq/home/policy.py:181-190 | every preserved space is offered if and only if the preserved ones and the seven most recent open ones are together at most eight |
| `DispatchCandidates.TwoNamedDoNotFit` | src/refineq/home/policy.py:181-190 | with seven open spaces two named archived ones are never both offered; `NineSpaces` is such a case |
| `DispatchCandidates.RankedRanks` | src/refineq/home/policy.py:176-180 | sorting distinct spaces gives the same spaces, strictly descending |
| `PlanDates.NextWeekday` | src/refineq/home/service.py:1133-1135 | the computed offset is the first day after today with that weekday |
| `PlanDates.HomeMoveLands` | src/refineq/home/service.py:1094-1144 | a home move lands later than now at the session's hour and minute: tomorrow on the next local day, the day after on the second, a weekday on the first one to come |
| `PlanDates.CoachMoveLands` | src/refineq/agent/actions.py:389-423 | a coach move is accepted exactly between local today and the local exam day, keeps the whole time of day, and lies before now only if it stays on today |
| `PlanDates.CoachDates` | src/refineq/agent/actions.py:389-423 | for each way to name the date, when the move is accepted, the day it lands on, and which rejection is given |
| `PlanDates.KnownDays` | src/refineq/home/service.py:1101-1135 | what the numbers stand for: known weekdays, and the local clock ahead where offsets are positive |
| `PlanDates.MovesAgreeToTheMinute` | src/refineq/agent/actions.py:400-423 | for the same weekday the two differ by the seconds the home page drops |
| `PlanDates.SelectionIgnoresOrder` | src/refineq/agent/actions.py:301-357 | the accepted session, or the rejection, does not depend on the order of the session list |
| `PlanDates.SelectsClosest` | src/refineq/agent/actions.py:325-339 | "most recent" and "next" accept exactly the one session strictly closest to now on their side |
| `PlanDates.SelectsOnlyOnDay` | src/refineq/agent/actions.py:340-348 | a date selects exactly the one session about the topic on that local day |

## Left out

- SQL text, DDL, extension and index creation, embedding clean-up and the `tags` column of the schema migration: only row contents and the version number are modelled.
- Password checks, identity lookups and the operating-system lock of account deletion are a free choice to refuse or raise.
- Temporary files and the file names inside a deletion journal: a manifest and each blob are written atomically.
- The database transaction around a confirmation: the model lets each write stay at once, as the file store does; with SQL a crash before the commit is the run whose crash comes before the edit.
- `_displace_for_move` and the daily budget behind `update_plan_session`: the edit is a parameter that may refuse.
- The create-workspace branch of `confirm` is modelled one call at a time, under its owner's quota transaction, not interleaved step by step.
- Plan and journey events created with a workspace, and the best-effort dispatch events, which may be lost without effect.
- Field length and type validation of requests, and the sanitizing of a replayed reply's citations and sources.
- Model calls, intent extraction and the action proposal stored with a turn: a turn's reply is given.
- Daylight saving and year limits of dates: offsets are fixed and days unbounded.
- Floating-point rounding: knowledge tracing and limiter times are exact.
- Regular expressions and title normalisation: which spaces a text names and which date it asks for are parameters.
- `BoundedIntentExecutor`: one permit count, which would only add an easy member.
- HTTP statuses and headers beyond the outcome of an upload, and responses that fail while being sent.
- React components, routing, SMTP, settings, MCP and retrieval: user interface and plumbing.
