# Formal model of the Cocoon data migrations and client protocols

This project models the parts of the repository where state changes are hardest to get right, and proves what
they promise for all inputs, all runs and all interleavings.

* **Tag ownership** (`TagSchema`, `TagBackfill`, `TagRewrite`, `TagOwnership`, `TagMeaning`, `TagTheorems`,
  `TagOutcome`, `TagOwners`). Migration 0016 binds every cocoon and chat group to one system tag. Migration 0019
  replaces the global tag registry by copies per owner, rewriting seven tables while two memo tables grow.
  `TagOwnership.Upgrade` is the migration as a class over its tables; its `Run` establishes the relation `TagRewrite.Migrated` between the
  database before and after, and the theorems are about every pair related that way. `TagOwners` says whose tags a
  resource gets, from the owner columns alone.
* **Chat dispatch** (`ChatDispatch`, `ChatDispatchSafety`, `ChatDispatchTheorems`, `ChatDispatchSteps`,
  `ChatDispatchWorker`, `ChatDispatchDrain`). Claims, thread starts, runtime ends, timeouts and messages merged into
  queued actions as a transition system in which any number of workers interleave and abandoned threads keep running.
  `ChatDispatchSteps` says what each step does, row by row. The worker's methods are proved to take exactly these steps.
* **Reconnecting websocket** (`RuntimeWs`, `RuntimeWsSafety`, `RuntimeWsEvents`, `RuntimeWsHook`). Browser events as
  steps over the hook's refs, with an integer clock for heartbeat and backoff; the hook's functions are methods over the same refs.
* **Keyword cache** (`KeywordCache`, `KeywordMeaning`, `KeywordMigration`): normalisation, which keywords it keeps, the
  top eight, migration 0028 and its downgrade.
* **Smaller cores**: the legacy id map (`IdMap`), the chat message store (`MessageStore`), tag reconciliation
  (`TagReconcile`), quota accounts (`InviteQuota`, migration 0021), plugin schedules (`PluginSchedules`, migration
  0026), and the cocoon tree with its paging (`CocoonTree`, `CocoonPage`).
* **Shared**: `Wrappers`, `Sequences`, `Ordering`, `Decimals`, `Strings`, `FreshIds`; `Witnesses` holds concrete inputs
  for the failures listed below.

`dafny verify dfyconfig.toml` checks everything.

## Modelling decisions

* A table is a map from row id to row. A loop over a query result takes its rows in any order, so what is proved
  holds for every order the database may choose; where the source orders a query, the model has a sequence.
* Generated ids come from a parameter `newId: nat -> string`, which never repeats and, for 0019, never produces an
  id the database already mentions.
* Python's `or` and `if` on optional strings treat `""` as missing; `Truthy` and `Or` say so wherever it matters.
* The four link loops of 0019 have the same body and are one method, `RewriteLinks`, called with each table and its
  owner map; the inner loops of its three JSON loops are `RewriteRefs`.
* Keywords are stripped of every character that Python counts as white space. `str.lower` and `str.isdigit` are modelled
  as far as they can matter: only the Kelvin sign and A to Z have a lower case that can be part of an ASCII word, and a
  keyword of other digits is dropped anyway.
* Every database session of the worker is one atomic step. The claim query's answer is a parameter described by
  `IsCandidateQuery`. The runtime is modelled by how it ends: `side_effects.py:479-501` completes an action that is
  still running, and the runtime aborts, or returns without a trace, only when the action is not; it may raise at any
  time. An exception marks an action failed even when a timeout has already done so, as in the source.
* Actions are named by row number, and a retry's `event_type` is `"chat"` whatever its parent's was, as in the source.
* In `RuntimeWs`, `connect` does not throw and events fire after it returns. Sockets, intervals and timeouts are named
  by numbers; the browser may deliver enabled events in any order.

## What the proofs found

* 0016 fails on a database in which two tags are called "default", or a cocoon is bound twice to the one that is
  (`TagBackfill.Upgrade.Run`); the unique tag ids of the old schema exclude the first.
* 0019 merges tags when the registry has several system tags (`TagTheorems.InjectiveIffOneSystemTag`), cannot create
  its unique constraint when an ordinary tag is called "default" (`TagOutcome.ConstraintHoldsIffClean`), and leaves
  deleted ids in links when nothing owns the holder and there is no user (`TagTheorems.NoDeletedTagLeft`). 0016
  excludes the first two.
* Downgrading 0028 deletes old rows that were blank (`KeywordMigration.RoundTripIffNothingWasBlank`); the non-null
  columns of the old schema exclude them.
* `setMessages` keeps duplicate ids that `mergeMessages` would merge (`MessageStore.SetListsIffDistinct`).
* Quota is only conserved when nobody is overdrawn (`InviteQuota.QuotaIsConservedIffNobodyIsOverdrawn`).
* 0026 forgets interval and cron of manual configurations, and every schedule of a plugin without an owner
  (`PluginSchedules.RoundTripIffMovedOrManual`).
* The API merges a new message into a queued retry, whose payload then no longer is its parent's
  (`Witnesses.MergeReplacesThePayload`).
* Fifty blocked actions of one busy target starve every other target (`ChatDispatchDrain.StarvedIffFiftyOlder`), until
  that target's action ends; when nobody waits for a future no call is starved (`ChatDispatchDrain.FalseIffDrained`).
* A user is only listed their own tags, so in somebody else's room the owner's system tag counts as an ordinary one and
  the client asks to unbind it; the server refuses, and the rest of the reconciliation is dropped
  (`TagReconcile.ReconcileTargetTags`).
* Reloading a cocoon below the roots empties its list of children, since only roots are searched
  (`CocoonPage.ReloadKeepsChildrenIffRoot`), and a failed load of a node's children leaves its loading flag set
  until its children, or the node itself, are loaded (`CocoonPage.FlagIsResetIff`).

## Model

| member | source | states |
|---|---|---|
| TagOwnership.FirstSystemRow | backend/alembic/versions/0019_user_tag_ownership.py:165 | the row that lends its brief, meta and dates to the new system rows is a system row, and is missing only when the registry has none |
| TagOwnership.Upgrade.constructor | backend/alembic/versions/0019_user_tag_ownership.py:145-169 | the memo tables start empty, and every generated id is unlike anything the database mentions |
| TagOwnership.Upgrade.EnsureSystemTag | backend/alembic/versions/0019_user_tag_ownership.py:171-192 | a user gets one system row, made at the first request and returned by every later one; no other memo entry changes |
| TagOwnership.Upgrade.EnsureOwnedCopy | backend/alembic/versions/0019_user_tag_ownership.py:194-223 | the answer is what the grown memo says for the tag and its owner: nothing for an unknown owner or tag, the owner's system row for a system tag, else the one copy for that (tag, owner) pair; at most that entry is new |
| TagOwnership.Upgrade.RewriteLinks | backend/alembic/versions/0019_user_tag_ownership.py:228-258 | all rows of a link table are rewritten as one function of the old rows and the final memo says, although the memo grows during the loop |
| TagOwnership.Upgrade.RewriteRefs | backend/alembic/versions/0019_user_tag_ownership.py:273-277 | a JSON list becomes the first-occurrence deduplication of its translated known tags |
| TagOwnership.Upgrade.RewriteSessions | backend/alembic/versions/0019_user_tag_ownership.py:260-286 | each session holds its translated list, with the owner's system tag in front where it was missing |
| TagOwnership.Upgrade.RewriteMessages | backend/alembic/versions/0019_user_tag_ownership.py:288-312 | each message holds its translated list, and the owner map built on the way is the owner of each message |
| TagOwnership.Upgrade.RewriteMemories | backend/alembic/versions/0019_user_tag_ownership.py:314-339 | each memory chunk holds its translated list, and the owner map built on the way is the owner of each chunk |
| TagOwnership.Upgrade.RetireOldTags | backend/alembic/versions/0019_user_tag_ownership.py:365-378 | after the fallback copies and the deletion the registry holds exactly the wanted rows, and all seven rewritten tables still agree with the final memo |
| TagOwnership.Upgrade.Run | backend/alembic/versions/0019_user_tag_ownership.py:165-378 | the whole migration relates the database before and after by `Migrated`: one function from (old tag, owner) to new rows drives all seven rewrites, every memo entry is wanted and every wanted row is made |
| TagRewrite.MemoSoundStep | backend/alembic/versions/0019_user_tag_ownership.py:171-223 | inserting the row of a new key under the next generated id keeps the memo injective and every entry's row as the source fills it |
| TagRewrite.WantedIsMade | backend/alembic/versions/0019_user_tag_ownership.py:225-371 | every row some user, session, reference or the fallback user needs has been made when the loops are over |
| TagRewrite.MigrationComplete | backend/alembic/versions/0019_user_tag_ownership.py:365-378 | deleting the old rows leaves the memo's rows alone and nothing else |
| TagTheorems.TranslationKeepsMeaning | backend/alembic/versions/0019_user_tag_ownership.py:194-223 | the new row belongs to the resolved owner and keeps tag id, brief and meta of a non-system tag; a system tag becomes the hidden default |
| TagTheorems.TranslationIsInjective | backend/alembic/versions/0019_user_tag_ownership.py:171-223 | a new id comes from one owner, and from one old tag unless both were system tags |
| TagTheorems.InjectiveIffOneSystemTag | backend/alembic/versions/0019_user_tag_ownership.py:171-223 | telling the tags of one owner apart survives if and only if the old registry had at most one system tag |
| TagMeaning.ListAfter | backend/alembic/versions/0019_user_tag_ownership.py:260-339 | what each JSON column reads back as afterwards, through the same normalisation: deduplicated translations, the owner's system tag first in a session that lacked it |
| TagMeaning.CarriedAfter | backend/alembic/versions/0019_user_tag_ownership.py:228-363 | a place holds an id afterwards if and only if it is a translation of what it held, a link left alone, or the session owner's system tag |
| Sequences.DedupeIsFirstOccurrence | backend/alembic/versions/0019_user_tag_ownership.py:273-277 | the deduplication keeps exactly the elements, each once, in the order of their first occurrences |
| TagTheorems.SessionsHoldTheirSystemTag | backend/alembic/versions/0019_user_tag_ownership.py:278-286 | a session with an owner lists the owner's system tag exactly once: where an old system tag stood, or else first |
| TagTheorems.NoDeletedTagLeft | backend/alembic/versions/0019_user_tag_ownership.py:228-378 | an id of a deleted tag survives if and only if it stands in a link whose holder resolves to no owner |
| TagTheorems.FallbackOwnsTheRest | backend/alembic/versions/0019_user_tag_ownership.py:60-64 | with at least one user nothing resolves to nobody, so no deleted id survives anywhere |
| TagTheorems.EntriesBelongToTheirOwner | backend/alembic/versions/0019_user_tag_ownership.py:228-363 | every entry naming a registry row names one owned by the resolved owner of its place |
| TagTheorems.SharingIsExactly | backend/alembic/versions/0019_user_tag_ownership.py:228-363 | two places of one owner share a registry row afterwards if and only if they shared an ordinary tag or both are given the system tag, for all seven kinds of place and any number of system tags |
| TagTheorems.SharingIsKept | backend/alembic/versions/0019_user_tag_ownership.py:228-363 | corollary for places other than sessions and one system tag: they share a tag afterwards if and only if they did before |
| TagTheorems.OwnersAreSeparated | backend/alembic/versions/0019_user_tag_ownership.py:194-223 | places of different owners never share a registry row afterwards |
| TagTheorems.MessageViewsKeepAgreeing | backend/alembic/versions/0019_user_tag_ownership.py:288-351 | if the links and the list of a message named the same known tags before, they do afterwards |
| TagTheorems.MemoryViewsKeepAgreeing | backend/alembic/versions/0019_user_tag_ownership.py:314-363 | the same for the links and the list of a memory chunk |
| TagOutcome.RegistryIsExactly | backend/alembic/versions/0019_user_tag_ownership.py:225-378 | the registry is exactly one system row per user and one row per (old non-system tag, owner) that is referenced or whose owner is the fallback user |
| TagOutcome.OneSystemRowPerUser | backend/alembic/versions/0019_user_tag_ownership.py:171-192 | among the rows of a user exactly one is a system row, and it is the hidden "default" |
| TagOutcome.NoTagIsLost | backend/alembic/versions/0019_user_tag_ownership.py:367-371 | the fallback user owns a copy of every old non-system tag |
| TagOutcome.ConstraintHoldsIffClean | backend/alembic/versions/0019_user_tag_ownership.py:388-391 | (owner, tag id) is unique afterwards if and only if the old non-system tag ids were unique and none was "default" |
| TagOutcome.BoundToOwnSystemTag | backend/alembic/versions/0016_runtime_tag_system_and_chat_group_visibility.py:109-165 | after 0016 and 0019 every cocoon and every chat group has exactly one binding to its own owner's hidden system tag |
| TagOutcome.BackfillThenOwnership | backend/alembic/versions/0016_runtime_tag_system_and_chat_group_visibility.py:65-165 | the two migrations in turn, from unique tag ids: every holder is bound once to its owner's hidden tag, the new unique constraint holds, and with a user no deleted id is left |
| TagOwners.KnownTagsGoToTheOwner | backend/alembic/versions/0019_user_tag_ownership.py:228-363 | told from the owner columns alone: a known tag at a place of a cocoon with an owner, else of a group with one (for a memory, of its own owner first), ends as a row of that very user that says the same |
| TagOwners.OnlyTheOwnersTags | backend/alembic/versions/0019_user_tag_ownership.py:228-363 | every row such a place names afterwards belongs to that user |
| TagOwners.SessionsGetTheOwnersSystemTag | backend/alembic/versions/0019_user_tag_ownership.py:269-281 | a session of a cocoon with an owner, or else of a group with one, lists that user's hidden system tag |
| TagOwners.OwnerlessGoToTheFallback | backend/alembic/versions/0019_user_tag_ownership.py:59-64 | what belongs to nobody gets tags of the last user called "user1", else of the last "admin", else of the first user, when no user id is empty |
| TagOwners.FallbackHasEveryTag | backend/alembic/versions/0019_user_tag_ownership.py:367-371 | and that user gets a copy of every ordinary tag that says the same |
| TagOwners.SomebodyIsFallback | backend/alembic/versions/0019_user_tag_ownership.py:59-64 | there is such a user whenever there is any user |
| TagOwners.SystemRowsSay | backend/alembic/versions/0019_user_tag_ownership.py:165-192 | a new system row keeps brief, meta and dates of the old one, with "system" added to the meta; without one it has the default brief and no dates |
| TagOwners.ListsAreReadItemByItem | backend/alembic/versions/0019_user_tag_ownership.py:27-39 | a JSON list is read item by item, as text or decoded, and anything else reads as empty |
| TagOwners.OneItemIsRead | backend/alembic/versions/0019_user_tag_ownership.py:27-39 | an item is read if and only if some character of it is not white space |
| TagBackfill.Upgrade.EnsureDefaultTag | backend/alembic/versions/0016_runtime_tag_system_and_chat_group_visibility.py:65-107 | fails if and only if two rows are called "default"; otherwise the row already called "default", or else the inserted one, becomes the only system row; it keeps every field but its flags and update time, or is filled with the defaults, and no other row changed |
| TagBackfill.DefaultTagIsDetermined | backend/alembic/versions/0016_runtime_tag_system_and_chat_group_visibility.py:65-93 | which row becomes the system tag can be told from the registry before the migration |
| TagBackfill.Upgrade.BindAll | backend/alembic/versions/0016_runtime_tag_system_and_chat_group_visibility.py:109-136 | the loop succeeds if and only if no holder was bound twice; then old bindings stay, every holder has exactly one, and only holders without one got one |
| TagBackfill.Upgrade.Run | backend/alembic/versions/0016_runtime_tag_system_and_chat_group_visibility.py:65-165 | both tables are backfilled; fails if and only if two rows are called "default" or some cocoon was bound twice to the one that is |
| TagBackfill.BindOne | backend/alembic/versions/0016_runtime_tag_system_and_chat_group_visibility.py:110-136 | one round extends the promise to one more holder |
| ChatDispatchSafety.StepKeepsInv | backend/app/worker/chat_dispatch_worker_service.py:48-182 | every claim, thread start, runtime end, timeout, arrival and merge of a message into a queued action keeps the pool stages exclusive, the chains sound, one running chat action per target, and claims plus remaining weight within what arrived |
| ChatDispatchSafety.RunKeepsInv | backend/app/worker/chat_dispatch_worker_service.py:48-182 | so does every interleaving of them, by any number of workers |
| ChatDispatchSafety.StepWeight | backend/app/worker/chat_dispatch_worker_service.py:141-171 | no step but an arrival adds to claims plus remaining weight, a timeout that makes a retry included |
| ChatDispatchTheorems.RuntimeStartsAtMostOnce | backend/app/worker/chat_dispatch_worker_service.py:88-95 | in every run each action's runtime starts at most once |
| ChatDispatchTheorems.StartsOnlyWhileRunning | backend/app/worker/chat_dispatch_worker_service.py:90-95 | a runtime only starts for an action that is running and was never started |
| ChatDispatchTheorems.NeverRunAfterFailure | backend/app/worker/chat_dispatch_worker_service.py:91-93 | an action that failed before its thread began is never run and stays failed in every continuation |
| ChatDispatchTheorems.TimedOutBeforeStartNeverRuns | backend/app/worker/chat_dispatch_worker_service.py:82-93 | in particular one that is timed out while it waits for a thread |
| ChatDispatchTheorems.ChainCountsUp | backend/app/worker/chat_dispatch_worker_service.py:159-170 | along a retry chain the attempt grows by one per retry and never beyond the limit, and the target stays; unless a message was merged into one of its retries, every payload key but the two retry keys equals the first action's |
| ChatDispatchTheorems.ChainIsLinear | backend/app/worker/chat_dispatch_worker_service.py:159-182 | an action has at most one retry: two actions of a chain at the same depth are one |
| ChatDispatchTheorems.OneSurvivorPerChain | backend/app/worker/chat_dispatch_worker_service.py:96-99 | of two actions of a chain one has failed; so at most one is queued or running, and at most one ever completes |
| ChatDispatchTheorems.ClaimsAreBounded | backend/app/worker/chat_dispatch_worker_service.py:48-86 | without arrivals, the claims made and the weight still left never exceed the weight at the start |
| ChatDispatchTheorems.SomethingCanBeClaimed | backend/app/services/workspace/message_dispatch_base.py:110-167 | when nobody waits for a future and every debounce is over, some queued action can be claimed, with or without an envelope |
| ChatDispatchTheorems.OneChatActionRuns | backend/app/services/workspace/message_dispatch_base.py:135-167 | in every run at most one chat action of a target is running |
| ChatDispatchWorker.Worker.HasPriorUnfinished | backend/app/services/workspace/message_dispatch_base.py:135-167 | answers whether an unfinished chat action of the same target is older or has started |
| ChatDispatchWorker.Worker.ClaimNextReadyAction | backend/app/services/workspace/message_dispatch_base.py:110-133 | moves the first candidate that nothing blocks to running, every earlier one being blocked, and nothing else; claims nothing if and only if all are blocked |
| ChatDispatchWorker.OldestIsClaimed | backend/app/services/workspace/message_dispatch_base.py:110-133 | what is claimed is ready and unblocked, and no ready unblocked action of the whole table is older, within the fifty candidates or beyond |
| ChatDispatchSteps.ClaimableIff | backend/app/services/workspace/message_dispatch_base.py:135-167 | an action can be claimed if and only if it is queued, its debounce is over, every older chat action of its target is over and none of its target runs |
| ChatDispatchSteps.ClaimStarts | backend/app/worker/chat_dispatch_worker_service.py:48-86 | a claim changes one row, to running and started now, and consumes one envelope |
| ChatDispatchSteps.TimeOutFailsAndRetries | backend/app/worker/chat_dispatch_worker_service.py:135-182 | a timeout of a running action fails it, records the round, and below the limit queues one retry that is one attempt further, names its parent and keeps the rest of the payload |
| ChatDispatchSteps.LateTimeOutDoesNothing | backend/app/worker/chat_dispatch_worker_service.py:135-145 | a timeout of an action that is no longer running only ends the wait |
| ChatDispatchSteps.RuntimeEndsAs | backend/app/worker/chat_dispatch_worker_service.py:94-133 | the runtime completes its action, fails it with what it raised, or leaves no trace; no other row changes |
| ChatDispatchSteps.ThreadStartsRuntimeIff | backend/app/worker/chat_dispatch_worker_service.py:88-95 | a thread starts the runtime of a running action and is done at once with any other |
| ChatDispatchSteps.FirstAttemptsWeigh | backend/app/worker/chat_dispatch_worker_service.py:48-86 | a table of first attempts weighs the limit times its length: so many calls drain it |
| ChatDispatchSafety.StaysAwaited | backend/app/services/runtime/orchestration/side_effects.py:479-501 | every running action has a worker waiting for it, and what has finished is not running: the runtime completes a running action and aborts only one that is not |
| ChatDispatchDrain.IdleWorkerClaims | backend/app/services/workspace/message_dispatch_base.py:110-133 | when nobody waits, every debounce is over and something is queued, the worker claims, however many actions are queued |
| ChatDispatchDrain.FalseIffDrained | backend/app/worker/chat_dispatch_worker_service.py:64-69 | when nobody waits and every debounce is over, a call returns false if and only if every action is completed or failed |
| ChatDispatchDrain.FalseOnlyWhenDrained | backend/app/worker/chat_dispatch_worker_service.py:48-86 | the same after every run of any number of workers without arrivals, in which at most as many claims succeeded as the table weighed |
| ChatDispatchDrain.DrainsInBoundedCalls | backend/app/worker/chat_dispatch_worker_service.py:48-86 | without arrivals, as many calls as the table weighs leave every action completed or failed, whatever the runtimes do and whichever envelopes are lost |
| ChatDispatchDrain.AloneLeavesNobodyWaiting | backend/app/worker/chat_dispatch_worker_service.py:79-86 | a worker that is alone leaves nobody waiting between its calls |
| ChatDispatchDrain.StarvedIffFiftyOlder | backend/app/services/workspace/message_dispatch_base.py:110-133 | although something could be claimed, a call finds nothing if and only if at least fifty ready actions are older than everything that could be claimed |
| ChatDispatchDrain.StarvedMeansFiftyAhead | backend/app/services/workspace/message_dispatch_base.py:110-133 | where queueing times may be equal, a starved call means fifty ready, blocked actions that are no younger |
| ChatDispatchDrain.FoundAmongFifty | backend/app/services/workspace/message_dispatch_base.py:110-133 | and a call that finds something has fewer than fifty strictly older ones |
| ChatDispatchDrain.BusyTargetStarves | backend/app/services/workspace/message_dispatch_base.py:135-167 | while a target's chat action runs, a query filled with its queued actions finds nothing for anybody |
| ChatDispatchWorker.Worker.StartSession | backend/app/worker/chat_dispatch_worker_service.py:88-95 | keeps the invariant; the runtime starts if and only if the action is still running, and then for the first time, and otherwise the future is done |
| ChatDispatchWorker.Worker.EndSession | backend/app/worker/chat_dispatch_worker_service.py:94-133 | is the runtime-end step: completion, abort or failure with its failed round and its audit run |
| ChatDispatchWorker.Worker.HandleTimedOutAction | backend/app/worker/chat_dispatch_worker_service.py:135-182 | is the timeout step: nothing for an action that is no longer running, else failure, failed round, audit run and at most one retry |
| ChatDispatchWorker.Worker.FinishLatestAuditRun | backend/app/worker/chat_dispatch_worker_service.py:184-192 | exactly one latest audit run of the action, if it has any, is finished when it was running; nothing else changes |
| ChatDispatchWorker.Worker.ProcessNext | backend/app/worker/chat_dispatch_worker_service.py:48-86 | returns true if and only if some candidate is unblocked, and then claims the oldest ready action that nothing blocks; is the call that the drain theorems are about; a claim uses up weight beyond what arrives, whatever the runtime, other workers, threads and the API do during the wait; the consumed envelope is acknowledged either way and the invariant is kept |
| RuntimeWsSafety.StepKeepsInv | frontend/src/hooks/useRuntimeWs.ts:59-171 | every browser event keeps timers and refs in step, only the current socket able to call the hook, and exactly one of a current socket and a pending reconnect while the effect is active |
| RuntimeWsSafety.RunKeepsInv | frontend/src/hooks/useRuntimeWs.ts:59-171 | so does every sequence of events, across any number of mounts |
| RuntimeWsSafety.OneConnectionAtATime | frontend/src/hooks/useRuntimeWs.ts:73-155 | in every run: one of socket and reconnect timer, at most one heartbeat, only for a current socket that has opened, and no replaced socket that can still call |
| RuntimeWsSafety.CleanupQuiets | frontend/src/hooks/useRuntimeWs.ts:159-171 | after the cleanup there is no socket ref, no timer and no socket that can call |
| RuntimeWsSafety.LateEventsDoNothing | frontend/src/hooks/useRuntimeWs.ts:159-171 | after the cleanup no late event recreates anything or reaches the application until the next mount |
| RuntimeWsSafety.WaitsNeverDecrease | frontend/src/hooks/useRuntimeWs.ts:73-84 | until an open resets them the reconnect waits never decrease and lie between 1 and 15 seconds |
| RuntimeWsSafety.RunKeepsTimely | frontend/src/hooks/useRuntimeWs.ts:105-131 | with punctual ticks the next tick of an open socket is at most 65 seconds after its last pong |
| RuntimeWsSafety.SilentSocketsAreClosed | frontend/src/hooks/useRuntimeWs.ts:110-120 | so a socket that is still open had a pong, or opened, at most 65 seconds ago |
| RuntimeWsSafety.OnlySilenceCloses | frontend/src/hooks/useRuntimeWs.ts:110-120 | an event tells the current open socket to close if and only if it is a tick more than 45 seconds after the last pong |
| RuntimeWsHook.UseRuntimeWs.Open | frontend/src/hooks/useRuntimeWs.ts:86-155 | establishes the invariant: no timer is left and the new socket is the only one that can call the hook |
| RuntimeWsHook.UseRuntimeWs.HandleOpen | frontend/src/hooks/useRuntimeWs.ts:100-125 | a replaced socket changes nothing; for the current one the heartbeat is the only interval, first due in twenty seconds, and the next reconnect waits one second again |
| RuntimeWsHook.UseRuntimeWs.HandleClose | frontend/src/hooks/useRuntimeWs.ts:142-151 | no heartbeat is left, and while the effect is active exactly one reconnect is pending: the earlier one, or a new one due after one to fifteen seconds |
| RuntimeWsHook.UseRuntimeWs.RunCleanup | frontend/src/hooks/useRuntimeWs.ts:159-171 | from the invariant, leaves no timer, no ref and no socket that can call the hook |
| RuntimeWsHook.UseRuntimeWs.Deliver | frontend/src/hooks/useRuntimeWs.ts:48-172 | delivering any event to the hook takes that step and keeps the invariant; the application gets an event if and only if the current socket received a message other than a pong |
| RuntimeWsHook.UseRuntimeWs.HandleMessage | frontend/src/hooks/useRuntimeWs.ts:126-136 | a message on the current socket reaches the application, or moves the last pong when it is one; on any other socket it does nothing |
| RuntimeWsEvents.DeliveredExactly | frontend/src/hooks/useRuntimeWs.ts:126-136 | exactly one event is delivered for a message other than a pong on the current socket, and none for anything else |
| RuntimeWsEvents.DeliveredInOrder | frontend/src/hooks/useRuntimeWs.ts:126-136 | over every run, what is delivered is the sequence of those messages in the order of their arrival |
| RuntimeWsEvents.SilenceStartsAtLife | frontend/src/hooks/useRuntimeWs.ts:100-133 | the last sign of life moves exactly at a pong on, or the opening of, the current socket |
| RuntimeWsEvents.WaitsAreListed | frontend/src/hooks/useRuntimeWs.ts:73-84 | the k-th reconnect since the last open waits 1, 2, 5, 10 and from then on 15 seconds |
| RuntimeWsEvents.CloseSchedulesReconnect | frontend/src/hooks/useRuntimeWs.ts:142-151 | the close of the current socket leaves no heartbeat and one timeout, due after that wait |
| RuntimeWsEvents.ReconnectOpensOne | frontend/src/hooks/useRuntimeWs.ts:86-100 | mounting and a due reconnect open one new socket, which is the current one, and leave no timer |
| RuntimeWsEvents.OpenStartsHeartbeat | frontend/src/hooks/useRuntimeWs.ts:100-125 | the open of the current socket leaves one heartbeat, due in 20 seconds |
| RuntimeWsEvents.TicksAreRegular | frontend/src/hooks/useRuntimeWs.ts:105-125 | a tick is followed by the next 20 seconds later |
| RuntimeWsEvents.CleanupCloses | frontend/src/hooks/useRuntimeWs.ts:159-171 | the cleanup closes the current socket, takes off its handlers and touches no other |
| RuntimeWsEvents.StaleSocketsAreIgnored | frontend/src/hooks/useRuntimeWs.ts:100-155 | what happens to a socket that is not current changes nothing but that socket |
| KeywordCache.NormalizingIsIdempotent | backend/alembic/versions/0028_mem_kw_cache.py:83-96 | a normal form is its own normal form, for any list of stopwords |
| KeywordCache.WordsAreNormalForms | backend/alembic/versions/0028_mem_kw_cache.py:103-108 | the dictionary has exactly the normal forms of the raw keywords |
| KeywordCache.WeightsAreMaximal | backend/alembic/versions/0028_mem_kw_cache.py:103-108 | each word has the largest weight of the raw keywords that normalise to it, and never below 0 |
| KeywordCache.EntriesAreRanked | backend/alembic/versions/0028_mem_kw_cache.py:109-112 | at most eight entries with distinct words, heaviest first and equal weights by word |
| KeywordCache.EntryIsMaximal | backend/alembic/versions/0028_mem_kw_cache.py:103-112 | an entry carries the largest weight of the raw keywords behind it |
| KeywordCache.LeftOutRanksBehind | backend/alembic/versions/0028_mem_kw_cache.py:109-112 | a raw keyword whose normal form was left out ranks behind every entry, by weight and then by word |
| KeywordCache.RoundingKeepsTheOrder | backend/alembic/versions/0028_mem_kw_cache.py:109-112 | after a monotone rounding the cache still has at most eight distinct words, heaviest first |
| KeywordCache.BuildKeywordCache | backend/alembic/versions/0028_mem_kw_cache.py:99-112 | the loop, the sort, the cut and the rounding give the rounded top eight of the dictionary, ranked before rounding; empty texts give nothing |
| KeywordMeaning.KeptIff | backend/alembic/versions/0028_mem_kw_cache.py:83-96 | a raw text gives a word if and only if, between its white space, it is a Chinese keyword of two or more characters, kept as spelled, or an ASCII word of three or more that is no number and no UUID, kept in lower case; stopwords give nothing |
| KeywordMeaning.StripLeavesTheKeyword | backend/alembic/versions/0028_mem_kw_cache.py:84 | stripping leaves the one text without white space at its ends that stands between white space |
| KeywordMeaning.ChineseIsKept | backend/alembic/versions/0028_mem_kw_cache.py:92-93 | a text of two or more characters, some Chinese, that is no stopword is a word under its own spelling |
| KeywordMeaning.CaseDoesNotMatter | backend/alembic/versions/0028_mem_kw_cache.py:87-96 | a lower-case ASCII keyword and its upper-case spelling give the same word |
| KeywordMeaning.CachedUnlessEightBefore | backend/alembic/versions/0028_mem_kw_cache.py:103-112 | a word that some raw keyword gives is in the cache, unless it is full of eight entries that rank before that keyword |
| KeywordMeaning.CacheKeeps | backend/alembic/versions/0028_mem_kw_cache.py:99-112 | told from the characters of the raw keywords: the rounded cache lists every word one of them gives, unless it has eight entries none of which is lighter, and lists no other word |
| KeywordMeaning.ChineseSpellings | backend/alembic/versions/0028_mem_kw_cache.py:92-93 | two characters are enough, from the first Chinese character to the last; one is not |
| KeywordMeaning.AsciiSpellings | backend/alembic/versions/0028_mem_kw_cache.py:94-96 | three characters are enough for a word with digits and signs |
| KeywordMeaning.TextJoinsTheParts | backend/alembic/versions/0028_mem_kw_cache.py:100 | summary and content are stripped and joined by a line break, and a part without text is left out |
| KeywordMigration.Upgrade.Run | backend/alembic/versions/0028_mem_kw_cache.py:122-187 | old rows differ only in their keywords, new rows are blank and belong to memories that had none, and every memory holds the cache of its own text |
| KeywordMigration.OneRowPerMemory | backend/alembic/versions/0028_mem_kw_cache.py:139-187 | every memory has exactly one embedding row, and it holds its cache |
| KeywordMigration.RoundTripIffNothingWasBlank | backend/alembic/versions/0028_mem_kw_cache.py:190-205 | downgrading gives back exactly the original rows if and only if none of them was blank |
| IdMap.RememberKeepsBijection | frontend/src/api/id-map.ts:87-102 | the two tables stay inverse bijections between the ids and 1..next-1 |
| IdMap.RememberThenResolve | frontend/src/api/id-map.ts:87-123 | remembering renumbers nothing, and resolving its number, as a number or a string, gives the id back |
| IdMap.ResolveThenRemember | frontend/src/api/id-map.ts:87-123 | remembering what a number in use resolves to gives the number back and changes nothing |
| IdMap.IdsResolveToThemselves | frontend/src/api/id-map.ts:118-120 | a text with a letter or a dash is an id already and resolves to itself |
| IdMap.UnusedNumbersResolveToThemselves | frontend/src/api/id-map.ts:122 | a number that no id has resolves to itself in decimal, as a number and as a string |
| Decimals.DecimalReadsBack | frontend/src/api/id-map.ts:122 | the decimal text reads back as the number and has no leading zero |
| IdMap.AlwaysBijective | frontend/src/api/id-map.ts:48-123 | after every run of remembering, resolving, saving and reloading from any earlier snapshot all tables are inverse bijections |
| IdMap.NumbersStayUntilReload | frontend/src/api/id-map.ts:87-123 | a number that was handed out keeps resolving to its id until the next reload |
| IdMap.SavedNumbersSurvive | frontend/src/api/id-map.ts:48-123 | a saved number survives every run of saves that work or fail and of reloads from the storage, or from an earlier snapshot that has it, and still resolves to its id |
| IdMap.RememberingSaves | frontend/src/api/id-map.ts:87-102 | a new id whose save works is such a saved number |
| IdMap.IdMapModule.HydrateStore | frontend/src/api/id-map.ts:48-73 | the loop over the namespaces replaces exactly those the snapshot has |
| IdMap.IdMapModule.RememberLegacyId | frontend/src/api/id-map.ts:87-102 | keeps every table a bijection, the number resolves to the id as a number and as a string, and no other number changes |
| IdMap.IdMapModule.ResolveActualId | frontend/src/api/id-map.ts:115-123 | keeps every table a bijection, and the answer for a number in use is the id that has this number |
| MessageStore.ListIsDetermined | frontend/src/store/useChatSessionStore.ts:65-69 | a finite map of messages has only one sorted listing |
| MessageStore.MergeWritesOver | frontend/src/store/useChatSessionStore.ts:71-80 | merging into the listing of a map gives the listing of the map with the batch written over it |
| MessageStore.SetListsIffDistinct | frontend/src/store/useChatSessionStore.ts:98-107 | `setMessages` leaves the listing of the last writes if and only if no id occurs twice in its argument: sorting alone does not deduplicate |
| MessageStore.AlwaysTheLastWrites | frontend/src/store/useChatSessionStore.ts:98-127 | after any sequence of sets (of distinct ids), prepends and upserts the list is the listing of the last write under each id |
| MessageStore.AlwaysShowsTheLastTold | frontend/src/store/useChatSessionStore.ts:98-127 | after every such sequence the list is in order of creation time, then id, and shows exactly the messages that were the last told under their id |
| MessageStore.SortedByTime | frontend/src/store/useChatSessionStore.ts:65-69 | the sort puts earlier messages first, and equal times by id |
| MessageStore.MergingCommutes | frontend/src/store/useChatSessionStore.ts:71-80 | batches that agree on the ids they share give the same list in either order |
| MessageStore.MergingIsIdempotent | frontend/src/store/useChatSessionStore.ts:71-80 | merging a batch again changes nothing |
| MessageStore.MergeMessages | frontend/src/store/useChatSessionStore.ts:71-80 | filling the map in two loops and sorting its values is the merge: oldest first, equal times by id, showing exactly the last write under each id |
| MessageStore.ChatSessionStore.SetMessages | frontend/src/store/useChatSessionStore.ts:98-107 | the session's list becomes the batch sorted; for distinct ids it shows exactly the batch, oldest first |
| MessageStore.ChatSessionStore.PrependMessages | frontend/src/store/useChatSessionStore.ts:108-117 | the session's list becomes the listing of its messages with the batch written over, oldest first; other sessions and fields stay |
| MessageStore.ChatSessionStore.UpsertMessage | frontend/src/store/useChatSessionStore.ts:118-127 | the same for one message |
| Ordering.ListingIsUnique | frontend/src/store/useChatSessionStore.ts:65-69 | a set without ties has exactly one sorted listing |
| Ordering.SortIsSorted | frontend/src/store/useChatSessionStore.ts:65-69 | the sort returns the same elements, as often as they were there, in order |
| Ordering.LexIsFirstDifference | backend/alembic/versions/0028_mem_kw_cache.py:111 | the order of strings is that of the first characters that differ, a prefix first |
| TagReconcile.ReconcileTargetTags | frontend/src/api/tags.ts:73-110 | unless the server refuses a write, a tag listed as a system tag is bound afterwards if and only if it was before, and any other if and only if it was picked; what is shown are the bound tags that are listed; and distinct picks cost exactly the symmetric difference; a write names a system tag of the server if and only if one that the listing lacks is bound but not picked or picked but not bound |
| TagReconcile.RefusedIffSystemTagUnpicked | backend/app/services/workspace/chat_group_tag_service.py:48-52 | the server refuses if and only if one of its system tags that the caller is not shown as one is bound and not picked |
| TagReconcile.BindMissing | frontend/src/api/tags.ts:90-97 | the bind loop issues one write per missing tag when the picks are distinct, and none when nothing is missing |
| TagReconcile.UnbindOthers | frontend/src/api/tags.ts:99-105 | unless one is refused, the unbind loop issues exactly one write per managed binding that was not picked; system tags of the server stay bound |
| TagReconcile.TargetIsReached | frontend/src/api/tags.ts:73-110 | the bindings are already the asked ones if and only if nothing differs, and nothing differs afterwards |
| TagReconcile.NothingLeftToWrite | frontend/src/api/tags.ts:73-110 | so a second call for the same picks issues no write at all, even when picks are repeated |
| InviteQuota.Upgrade | backend/alembic/versions/0021_invite_quota_accounts.py:37-82 | one account for each target of an unrevoked grant or selected invite, in target order, with remaining quota max(granted - drawn, 0), unlimited if and only if some unrevoked grant is |
| InviteQuota.SumGrants | backend/alembic/versions/0021_invite_quota_accounts.py:41-53 | the accumulation is the sum of the unrevoked finite grants of each target |
| InviteQuota.OneGrantCounts | backend/alembic/versions/0021_invite_quota_accounts.py:41-53 | one more grant adds its quota to its own target's balance when it is finite, makes it unlimited when it is not, and gives it an account; a revoked one and other targets are untouched |
| InviteQuota.OneInviteDraws | backend/alembic/versions/0021_invite_quota_accounts.py:55-67 | one more invite takes its total from the user or group that issued it, if it names one and is not revoked, and from nobody else |
| InviteQuota.AccountsInTargetOrder | backend/alembic/versions/0021_invite_quota_accounts.py:69-70 | the accounts are ordered by kind and then id, character by character, with no target twice |
| InviteQuota.AccountsHoldTheBalance | backend/alembic/versions/0021_invite_quota_accounts.py:76 | an account holds its target's balance, or nothing when that is negative |
| InviteQuota.RowOrderDoesNotMatter | backend/alembic/versions/0021_invite_quota_accounts.py:41-82 | the accounts, with their ids, do not depend on the order of the rows |
| InviteQuota.IdsAndTargetsAreUnique | backend/alembic/versions/0021_invite_quota_accounts.py:26-28 | the table's primary key and unique constraint hold |
| InviteQuota.QuotaIsConservedIffNobodyIsOverdrawn | backend/alembic/versions/0021_invite_quota_accounts.py:69-82 | total remaining equals total granted less total drawn if and only if no target is overdrawn |
| PluginSchedules.Migration.Upgrade | backend/alembic/versions/0026_user_plugin_scheds.py:82-117 | the user rows are exactly the schedules of the configurations with an owner and a mode other than manual, unique per (plugin, user, event) |
| PluginSchedules.Migration.Downgrade | backend/alembic/versions/0026_user_plugin_scheds.py:125-168 | each configuration takes the schedule of its owner's row, or the defaults where there is none; other users' rows have no effect |
| PluginSchedules.Migration.UpAndDown | backend/alembic/versions/0026_user_plugin_scheds.py:82-168 | up and down gives back exactly the schedules that moved, and manual for the others |
| PluginSchedules.ComesBack | backend/alembic/versions/0026_user_plugin_scheds.py:100-166 | the same for any rows the two steps may leave |
| PluginSchedules.TimedSchedulesMove | backend/alembic/versions/0026_user_plugin_scheds.py:100-166 | an interval or cron schedule of a plugin with an owner becomes that user's row unchanged, and comes back unchanged |
| PluginSchedules.OthersBecomeManual | backend/alembic/versions/0026_user_plugin_scheds.py:100-166 | a manual schedule, and any of a plugin without an owner, gives nobody a row and comes back as the default |
| PluginSchedules.RoundTripIffMovedOrManual | backend/alembic/versions/0026_user_plugin_scheds.py:100-166 | a configuration comes back unchanged if and only if its schedule moved or was already the default |
| CocoonTree.Patch.NormalizeTree | frontend/src/pages/Cocoons.tsx:63-75 | the recursion over a mutable patch writes children before parents, and later nodes over earlier ones with the same id |
| CocoonTree.FlattenIsFaithfulIffConsistent | frontend/src/pages/Cocoons.tsx:63-75 | following `childIds` through the flattened table rebuilds the forest if and only if no two different nodes share an id |
| CocoonTree.RepresentsOnlyOne | frontend/src/pages/Cocoons.tsx:63-75 | a table represents at most one forest under given ids |
| CocoonTree.PagesAreAPrefix | frontend/src/api/cocoons.ts:24-35 | concatenating pages gives the items in order, each once, and `page < total_pages` holds exactly while items are left |
| CocoonPage.Cocoons.FinishLoad | frontend/src/pages/Cocoons.tsx:231-263 | merging an answer is one step on the view, whatever other loads changed meanwhile |
| CocoonPage.FailureRestoresIff | frontend/src/pages/Cocoons.tsx:219-274 | a request that fails leaves no trace if and only if the roots were not loading already, or the parent has no row or was loading already |
| CocoonPage.FlagIsResetIff | frontend/src/pages/Cocoons.tsx:219-274 | a node's loading flag is reset only by an answer to a request for its children or one that contains the node |
| CocoonPage.StaysLoadingAfterFailure | frontend/src/pages/Cocoons.tsx:268-274 | after a failed load of its children a node is shown as loading through every run until such an answer |
| CocoonPage.RootsArriveInOrder | frontend/src/pages/Cocoons.tsx:219-263 | after n pages the roots are the first 20n, each once and in order, and `hasMore` says whether there are others |
| CocoonPage.AllPagesShowTheForest | frontend/src/pages/Cocoons.tsx:219-263 | loading until `hasMore` is false shows the whole forest, from any earlier view |
| CocoonPage.ChildrenArriveInOrder | frontend/src/pages/Cocoons.tsx:219-263 | after n pages the children of a shown root are the first 20n, each once and in order, `hasMore` says whether there are others, and without others its whole subtree is shown |
| Witnesses.IdleCocoonStarves | backend/app/services/workspace/message_dispatch_base.py:110-133 | fifty queued actions of a busy cocoon hide one of an idle cocoon that could be claimed |
| Witnesses.AnotherOwnersSystemTag | backend/app/services/catalog/tag_policy.py:100-107 | a room member who is not the owner is not listed the owner's system tag: the client asks to unbind it and is refused |
| Witnesses.MergeReplacesThePayload | backend/app/services/workspace/message_dispatch_service.py:135-151 | a message merged into a queued retry replaces what it inherited |
| Witnesses.NobodyOwnsTheLink | backend/alembic/versions/0019_user_tag_ownership.py:353-363 | a database without users on which 0019 leaves a deleted id in the link of a memory chunk that belongs to nobody |
| CocoonPage.ReloadKeepsChildrenIffRoot | frontend/src/api/cocoons.ts:294-312 | reloading a node keeps its list of children if and only if it has none or is a root with at most 20: a deeper node's children are not found, and its list is emptied |

## Left out

- Schema changes, column types, transactions and rollback: only the data steps are modelled; a failing migration is reported to the caller, which rolls back.
- `plugin_definitions.owner_user_id` of 0019 and the creation and update times of bindings: one constant update and columns nothing reads.
- Migrations 0017 and 0018, between 0016 and 0019: they do not touch the modelled tables.
- Integer widths: quotas, counters, times and ids are unbounded integers.
- JSON decoding: a list column is given as absent, decoded, text with its parse, or something else; items are given as `str(item)`.
- Whether a message is refused or rate-limited before it is queued, which queued action of the target it is merged into (any one may be chosen), and a plugin's extra payload that overrides the attempt number: the API side of dispatch.
- `create_runtime_action` and action deletion: they change rows from outside the worker.
- ChatDispatchTheorems.ChainCountsUp: does not model that a runtime writes the memories it used into the payload of its own action, because the inside of the runtime is not part of this model.
- Realtime notifications and logs of the worker, and its lookup of the envelope's action, whose only effect is a log line.
- The recover, error and event callbacks of the websocket hook, apart from which socket an event came from; latest-callback refs.
- A websocket hook that is disabled or has no target: its effect returns at once.
- KeywordCache.BuildKeywordCache: does not model floating point or the jieba extractor; weights are exact reals, and the extractor and the rounding are parameters.
- Prototype keys of JavaScript objects (an id `"constructor"` in the id map) and the optional-id helpers, which are one-line wrappers.
- MessageStore.AlwaysTheLastWrites: creation times are integers, so an unparsable date, which compares as not-a-number, is not modelled; the body stands for all other fields.
- Session fields other than the messages: kept as one opaque component.
- TagReconcile.ReconcileTargetTags: the server is a set that refuses to unbind its system tags; other errors (a tag the target's owner does not have, a lost connection), other clients, the default binding that a bind restores, and the server order of the returned tags are not modelled.
- Selecting and loading the first cocoon after `loadTree`, error toasts, forms and rendering; `mapTreeNode`, which renames fields and remembers ids.
- CocoonPage.AllPagesShowTheForest: the server's forest does not change between the pages.
- Every other service, page and route of the repository: they add easy members or need code that is not part of this model.
