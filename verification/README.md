# Grapevine: verified models

Dafny models of the parts of the Grapevine Matrix homeserver that carry real
protocol, concurrency or index properties, and proofs of those properties.
`dafny verify dfyconfig.toml` checks everything.

Each part keeps the form of its source. Objects updated in place are classes,
loops are loops with invariants, and code that runs concurrently is a state
machine whose steps are what the source does without waiting, or one access to
shared data; its theorems hold for every run of that machine.

| modules | what they model |
|---|---|
| `Collections`, `Chains` | options, elements of a sequence; sequences of steps of any machine |
| `Bytes`, `KvTree` | byte order of keys, big-endian counters, 0xFF-separated fields; ordered trees and prefix scans |
| `SendingKeys`, `SendingStore`, `SendingBatches` | the request keys of the outgoing sender, the two trees they live in, and which keys move between them |
| `SendingProtocol`, `SendingSafety`, `SendingRuns`, `SendingTheorems`, `SendingLaws`, `SendingFailures`, `SendingStranding` | the sender as a state machine: enqueue, receive, response, each single tree write, crash, restart, time |
| `SendingService` | the sender's code over the byte trees; every method is proved to perform steps of that machine and to keep one invariant |
| `SendingDriver` | a process that calls these methods in any order, with crashes and restarts between calls: whatever it does is a run of the machine |
| `LockTable` | `OnDemandHashMap` and `TokenSet`: weak entries, double-checked insertion, cleanup task, per-key mutexes |
| `StateDiffCodec`, `StateStore`, `StateMigration` | state diffs on disk, layered states over their stored bytes, the migration from version 6 to 7 |
| `AccountDataKeys`, `AccountData`, `AccountDataRaces` | account data over its two trees; concurrent updates of a slot |
| `MissingEvents` | the walk behind `/get_missing_events` |
| `CommonElements`, `SearchMerge` | sorted intersection, k-way merge and paging of search |
| `Watchers` | prefix watchers under concurrent `watch` and `wake` |
| `SendIdempotence` | transaction ids of sends under per-room tokens |
| `SigningKeys`, `SigningKeyRaces` | stored signing keys of other servers; concurrent updates of them |
| `SlidingSync`, `SlidingSyncRoute` | the per-connection cache of sliding sync and the rooms a request asks for |
| `Timeline`, `SyncResponse`, `ChainedSync`, `SyncClashes` | the timeline of a response; the state a chain of syncs leaves a client with |

Identifiers, state keys and the like are numbers or byte strings without
structure. Text fields of keys are assumed to be UTF-8, which never contains
0xFF. Reads and writes of the database are assumed to succeed, and one write or
one batch is atomic. Time, the network's answers, the sets that hash maps
iterate over and the server's rooms are parameters or nondeterministic choices.

## What turned out otherwise

What the code does not do as one would expect of it, with inputs that show it and
the conditions under which it does.

- A success resets the sender's failure count exactly when nothing is queued at
  the scan that follows it (`SendingFailures.SuccessKeepsTheFailureCount`);
  otherwise the next batch runs under the old `Retrying(n)`, and its failure is
  number n + 1 (`SendingFailures.CountSurvivesSuccess`).
- Start-up resumes active requests only. A request that was queued when the server
  stopped, for a destination with nothing active, waits until something else is
  enqueued for that destination (`SendingStranding.RestartStrandsExactly`,
  `StrandedUntilEnqueued`, `CrashStrands`).
- A stored EDU with empty content would be read back as a PDU
  (`SendingKeys.EventSurvivesStorage` gives the exact condition).
- The lock table's entries are not always removed after their last drop: the
  guard's message goes out before the `Arc` is released
  (`LockTable.RaceLeavesDeadEntry`; `LockTable.DrainLeavesLiveKeys` says exactly
  when draining leaves the live keys).
- A state diff survives storage exactly when its parent is not hash 0 and no
  added event has short state key 0 (`StateDiffCodec.StateDiffRoundTrip`). So the
  migration preserves every state exactly when no entry has key 0 and no state
  is a small change to one of hash 0 before it in its room
  (`StateMigration.Migrate`, `ZeroKeyLosesAState`, `ZeroHashLosesAState`); tables
  with neither number are safe (`UsualTablesSurvive`).
- The missing-events walk has no visited set. A complete response repeats an
  event exactly when some sendable event is led to in two ways
  (`MissingEvents.RepeatsExactly`), as in `MissingEvents.DiamondRepeats`; each
  repetition counts against the limit.
- Search with a limit of 0 hands out the same `next_batch` for ever while results
  lie beyond it; in all other cases chaining ends
  (`SearchMerge.ChainEndsExactly`).
- Transaction ids are not bound to a room: two rooms can append twice under one
  id, exactly when both sends are admitted and the rooms differ
  (`SendIdempotence.IdempotentExactlyInOneRoom`). One after the other, the second
  send answers with the first room's event and appends nothing
  (`SendIdempotence.ChecksAnswerTheLastRecord`). A request dropped between append
  and record makes its retry append again.
- An origin's reply can change the bytes of a key it does not mention, when the
  store holds two different keys under that id
  (`SigningKeys.UnmentionedKeysKeepTheirBytes` gives the exact condition,
  `SigningKeys.ReusedIdIsShadowed` a way there).
- Updates of signing keys and of account data read and write without a lock. Key
  ids are kept exactly when no write overlooks an id stored since it read
  (`SigningKeyRaces.IdsAreKeptExactly`, `RaceForgetsKeys`). Account data is as
  serial updates leave it exactly when no update of the slot was overtaken and no
  crash interrupted one (`AccountDataRaces.OrderlyUnlessDisturbed`). Otherwise the
  index still leads to a value (`IndexLeadsToTheLastPointed`), but it may be the
  older one while a sync reports the newer (`RaceKeepsTheOlder`). A `get` finds
  nothing exactly when the value its look-up led to is removed before it reads it
  (`GetFindsExactly`, `GetMayMiss`).
- A client list of sliding sync that is named `subscriptions` shares its known
  rooms with the room subscriptions: a room it sends is remembered exactly when
  the room is also subscribed to, and otherwise counts as never sent
  (`SlidingSync.SentRoomIsKnownExactly`).
- A sliding sync request panics exactly when a list has a range to serve and the
  user has joined no room (`SlidingSyncRoute.Users.SyncEvents`).
- `full_state` is ignored by an incremental sync whenever the state is the one
  saved under the token, even if there are new messages
  (`SyncResponse.FullStateExactly` says when the full state is sent).
- The state of a sync is saved under a token that all devices share, before the
  client has the answer. A save leaves every device's next delta right exactly
  when it does not clash with a device that waits on that token
  (`ChainedSync.SaveIsSafeExactly`). Two devices, or one device that loses an
  answer, can clash and then miss a change for good
  (`SyncClashes.ClashLosesAnEvent`, `SyncClashes.LostAnswerLosesAnEvent`). Without
  a clash clients hold what their syncs read; one device that gets all its
  answers, or no change during a sync, rules clashes out.

## Model

| member | source | states |
|---|---|---|
| `Bytes.BigEndianRoundTrip` | src/utils.rs:53-58 | reading the bytes of a counter gives the counter back |
| `Bytes.BigEndianOrder` | src/utils.rs:29-40 | byte order of equal-width big-endian counters is numeric order, in both directions |
| `Bytes.PrefixRunIsContiguous` | src/database/abstraction.rs:29-71 | keys with a prefix form one contiguous run of the key order |
| `Bytes.FieldIsPrefixFree` | src/database/key_value/account_data.rs:110-126 | a 0xFF-terminated text field that begins a key is that key's first field |
| `Bytes.FieldSplitsUniquely` | src/database/key_value/transaction_ids.rs:13-19 | a key's first field and its rest are determined by the key |
| `KvTree.InOrder` | src/database/abstraction.rs:40-46 | iteration yields every key of the tree once, in ascending order |
| `KvTree.TakePrefixExact` | src/database/key_value/account_data.rs:119-126 | scanning from a bound under a prefix yields exactly the keys with the prefix at or above the bound |
| `KvTree.ScanPrefixExact` | src/database/abstraction.rs:54-57 | `scan_prefix` yields exactly the keys with the prefix, ascending |
| `SendingKeys.SplitOnce` | src/database/key_value/sending.rs:135-210 | a split at the first 0xFF loses nothing, and fails exactly when there is none |
| `SendingKeys.KeyRoundTrip` | src/service/sending.rs:55-81 | parsing the key built for any well-formed destination gives destination and event back |
| `SendingKeys.ParsedKeyIsRequestKey` | src/database/key_value/sending.rs:135-210 | every key that parses is the key of a well-formed destination: parser and builder are inverse |
| `SendingKeys.PrefixSeparatesDestinations` | src/service/sending.rs:55-81 | no destination's keys lie under another destination's prefix |
| `SendingKeys.EventSurvivesStorage` | src/database/key_value/sending.rs:55-80 | a request is read back unchanged if and only if a PDU is keyed by its id and an EDU is not empty |
| `SendingKeys.KeyDeterminesRequest` | src/database/key_value/sending.rs:55-80 | requests that share a key agree in destination and id, and are equal when their values are |
| `SendingStore.InsertRequest` | src/database/key_value/sending.rs:96-111 | inserting a request's key adds exactly that request to its destination and nothing elsewhere |
| `SendingStore.RemoveRequest` | src/database/key_value/sending.rs:39-41 | removing a request's key removes exactly that request |
| `SendingStore.DistinctKeysDistinctRequests` | src/database/key_value/sending.rs:82-94 | as many requests are read as there are keys |
| `SendingStore.TakeThirty` | src/service/sending.rs:280-287 | the first thirty keys under a prefix are a choice the protocol's scan step allows |
| `SendingBatches.FirstAreOldest` | src/service/sending.rs:280-287 | they are the destination's smallest keys: every key left is above every key taken, and if fewer than thirty are taken none is left |
| `SendingSafety.GroupKeepsFirst31` | src/service/sending.rs:185-203 | the start-up loop keeps the first 31 requests of a destination and drops the rest, if any |
| `SendingSafety.NoneDropped` | src/service/sending.rs:185-203 | with at most 30 active per destination nothing is dropped and every group is complete |
| `SendingSafety.StartEstablishesHandlerInv` | src/service/sending.rs:185-213 | from any stored trees start-up establishes the handler invariant if and only if no destination has more than 30 active requests |
| `SendingSafety.StartKeepsHandlerInv` | src/service/sending.rs:185-213 | from a state that satisfies it, start-up keeps the handler invariant and drops nothing |
| `SendingSafety.ReceiveKeepsHandlerInv` | src/service/sending.rs:310-440 | taking a message keeps the handler invariant, for every status |
| `SendingSafety.ErrorKeepsHandlerInv` | src/service/sending.rs:261-276 | a failed response keeps it |
| `SendingSafety.OkKeepsHandlerInv` | src/service/sending.rs:278-301 | a successful response keeps it |
| `SendingSafety.MarkInsertKeepsHandlerInv` | src/database/key_value/sending.rs:96-111 | it holds even between the two writes of marking a request active |
| `SendingSafety.StepKeepsHandlerInv` | src/service/sending.rs:174-302 | every step of the sender keeps, for every destination: at most 30 active, a future exactly when Running or Retrying, its events equal to the active set |
| `SendingTheorems.RunInvariant` | src/service/sending.rs:174-440 | every state of every run satisfies the handler, no-loss, no-stranding and backoff invariants |
| `SendingTheorems.NothingIsLost` | src/service/sending.rs:245-302 | in every run with crashes and restarts a request, once enqueued, is queued, active, or was in a transaction that returned Ok since |
| `SendingTheorems.StartUpDropsNothing` | src/service/sending.rs:185-213 | no destination ever has more than 30 active requests, so the "Dropping some current events" branch never runs |
| `SendingTheorems.StatusMirrorsFutures` | src/service/sending.rs:205-302 | between events: a status exactly when something is active, one future exactly when not Failed, its events the active set |
| `SendingTheorems.OnlyRunningRequestsFail` | src/service/sending.rs:261-274 | a failing request's destination is always Running or Retrying: the "not even running" branch is dead |
| `SendingTheorems.NothingIsStranded` | src/service/sending.rs:278-352 | a request enqueued since the last crash and still queued has a status for its destination or an unconsumed message |
| `SendingTheorems.FailuresAreSpaced` | src/service/sending.rs:383-400 | failure n comes at least the sum of min(30·i², 86400) seconds, i < n, after the step at which the destination first failed, and below 2^45 s nothing overflows |
| `SendingTheorems.BackoffDoesNotOverflow` | src/service/sending.rs:383-392 | below 2^45 s of accumulated rest the product fits 64 bits and the count 32 |
| `SendingLaws.ReceiveExactly` | src/service/sending.rs:310-440 | in every run a message starts its destination if that has no status, retries all its active requests under the same count if it failed at least min(30·n², 86400) seconds ago, and changes nothing else and in no other case |
| `SendingLaws.FailuresAreCounted` | src/service/sending.rs:261-274 | in every run the count in a status is the number of failures since the destination was last without one |
| `SendingLaws.FailureTimeIsTheLast` | src/service/sending.rs:261-274 | in every run the time of a failure is that of the last failed response |
| `SendingRuns.FollowsIsRun` | src/service/sending.rs:174-302 | steps taken one after the other from the start are a run, so the theorems about runs apply to them |
| `SendingFailures.SuccessKeepsTheFailureCount` | src/service/sending.rs:278-301 | in every run, from a success to the handler's next rest: the status is gone if and only if nothing was queued when the handler scanned, and otherwise is what it was before |
| `SendingFailures.CountSurvivesSuccess` | src/service/sending.rs:261-301 | a run exists in which a retry succeeds and the next failure is still counted as the second |
| `SendingStranding.ResumedExactly` | src/service/sending.rs:185-213 | in every run start-up takes a destination up again if and only if something was active for it, whatever is queued |
| `SendingStranding.RestartStrandsExactly` | src/service/sending.rs:185-213 | in every run, from a crash to the next start, what was queued for a destination for which nothing is enqueued meanwhile is stranded if and only if nothing was active for it |
| `SendingStranding.StrandedUntilEnqueued` | src/service/sending.rs:174-353 | in every run what is queued for a destination with no status, no active request and no message stays exactly so, through time, responses and restarts, until something is enqueued for that destination |
| `SendingStranding.CrashStrands` | src/service/sending.rs:185-213 | any request that is accepted just before a crash comes to be in that position |
| `SendingService.Service.QueueRequests` | src/database/key_value/sending.rs:55-80 | every key of the batch holds its request's value and no other key changes; keys parse back to their requests, EDU keys are new; the invariant holds with the state after the enqueue step |
| `SendingService.Service.DeleteActiveRequest` | src/database/key_value/sending.rs:39-41 | the key is gone and nothing else |
| `SendingService.Service.ClearOneRequest` | src/database/key_value/sending.rs:43-53 | one delete of a batch is one step of the protocol |
| `SendingService.Service.DeleteAllActiveRequestsFor` | src/database/key_value/sending.rs:43-53 | exactly the keys under the destination's prefix are gone, through protocol steps |
| `SendingService.Service.MarkAsActive` | src/database/key_value/sending.rs:96-111 | each key moves from one tree to the other with its value, through protocol steps |
| `SendingService.Service.HandleResponse` | src/service/sending.rs:245-302 | after a success the destination's active keys are gone, its thirty smallest queued keys, or all, have moved to the active tree, and their events are handed out in key order; a failure leaves both trees; the response and follow-up steps are performed and the shared invariant kept |
| `SendingService.Service.HandleReceiver` | src/service/sending.rs:310-353 | hands out events if and only if the destination has no status or failed at least min(30·n², 86400) seconds ago: the new request with the EDUs found, or all active events in key order; performs the receive step and its follow-ups and keeps the shared invariant |
| `SendingService.Service.SendQueued` | src/service/sending.rs:280-301 | moves the destination's thirty smallest queued keys and hands out their events in key order, or drops the status when there are none |
| `SendingService.Service.SendNew` | src/service/sending.rs:418-439 | for a vacant destination the new request alone moves and becomes the future, with the found EDUs for a server |
| `SendingService.Service.Post` | src/service/sending.rs:602-617 | a message joins the channel, and the invariant is kept |
| `SendingService.Service.Crash` | src/service/sending.rs:185-213 | the status and the channel are lost, the trees stay, and the invariant is kept |
| `SendingService.Service.GroupActive` | src/service/sending.rs:185-203 | the start-up loop computes the protocol's grouping of all active requests |
| `SendingService.Service.Restart` | src/service/sending.rs:185-213 | start-up changes neither tree, starts one transaction per destination with exactly its active requests, in key order, and keeps the invariant |
| `SendingDriver.Process.Queue` | src/service/sending.rs:589-618 | a batch extends the process's run by the enqueue step |
| `SendingDriver.Process.Receive` | src/service/sending.rs:216-242 | a message extends it by the receive step and its follow-ups |
| `SendingDriver.Process.Respond` | src/service/sending.rs:216-242 | a response extends it by the response step and its follow-ups |
| `SendingDriver.Process.Start` | src/service/sending.rs:174-213 | a start extends it by the start step over a scan of the active tree |
| `SendingDriver.Process.Run` | src/service/sending.rs:174-242 | any sequence of calls, with crashes and restarts between them, leaves the code in a state some run of the protocol leads to |
| `SendingDriver.Process.NothingIsLostFromTheTrees` | src/service/sending.rs:174-302 | after any such sequence the bytes of every request ever enqueued are in one of the trees, or it was delivered since |
| `LockTable.RunInvariant` | src/utils/on_demand_hashmap.rs:36-114 | every interleaving of reads, inserts, locks, drops and cleanups keeps the table and cleanup invariants |
| `LockTable.TokensAreUnique` | src/utils/on_demand_hashmap.rs:256-281 | in every run two tasks never hold a token for one key |
| `LockTable.TakenExactly` | src/utils/on_demand_hashmap.rs:256-281 | in every run a mutex is taken if and only if some task has it locked: dropping a token frees it |
| `LockTable.AcquireExactly` | src/utils/on_demand_hashmap.rs:256-281 | in every run a task that waits for a key can take its mutex if and only if no task has a token for the key |
| `LockTable.OneLiveValuePerKey` | src/utils/on_demand_hashmap.rs:54-114 | all owners of a key's value own the same one, and it is the one in the map |
| `LockTable.LiveEntriesStay` | src/utils/on_demand_hashmap.rs:36-52 | an entry is removed only by the cleaner and replaced only by an insertion, and only when dead |
| `LockTable.DeadStaysDead` | src/utils/on_demand_hashmap.rs:54-114 | in every run a value that nobody owns any more never has an owner again |
| `LockTable.DeadEntriesAreDueOrRaced` | src/utils/on_demand_hashmap.rs:193-215 | in every run a dead entry has a cleanup coming, or its last owner released it after the cleaner had handled that owner's message |
| `LockTable.DrainExact` | src/utils/on_demand_hashmap.rs:143-157 | draining the queue leaves exactly the live entries and those without a message |
| `LockTable.DrainLeavesLiveKeys` | src/utils/on_demand_hashmap.rs:143-157 | draining leaves exactly the live keys if and only if every dead entry has a message; without the race it does |
| `LockTable.RaceLeavesDeadEntry` | src/utils/on_demand_hashmap.rs:193-215 | for every key a run exists that leaves a dead entry nobody will remove |
| `StateDiffCodec.CompressRoundTrip` | src/service/rooms/state_compressor.rs:97-128 | a compressed state event is read back unchanged |
| `StateDiffCodec.SaveStateDiff` | src/database/key_value/rooms/state_compressor.rs:46-66 | the written value is the encoding of the diff in some order of its sets |
| `StateDiffCodec.EncodedLayout` | src/database/key_value/rooms/state_compressor.rs:46-66 | the value is the parent or 0, the added events, and, if any were removed, eight zero bytes and those |
| `StateDiffCodec.CompressedAt` | src/database/key_value/rooms/state_compressor.rs:46-66 | event i takes bytes 16i to 16i + 16: its key, then its id |
| `StateDiffCodec.GetStateDiff` | src/database/key_value/rooms/state_compressor.rs:10-44 | the loop computes the decoding of parent, added and removed events |
| `StateDiffCodec.StoredDiff` | src/database/key_value/rooms/state_compressor.rs:9-66 | what any written diff is read back as: parent 0 becomes none, no added key is 0, and the sets are unchanged if none was |
| `StateDiffCodec.ZeroKeyIsLost` | src/database/key_value/rooms/state_compressor.rs:22-36 | whatever bytes are stored, no added event with key 0 is read from them; so one that was written never comes back |
| `StateDiffCodec.StateDiffRoundTrip` | src/database/key_value/rooms/state_compressor.rs:9-66 | a diff survives storage, in every iteration order, if and only if its parent is not hash 0 and no added key is 0 |
| `StateStore.MergeIntoParent` | src/service/rooms/state_compressor.rs:169-190 | the two loops compute the merged diff, whatever order they run in |
| `StateStore.MergedDiffIsExact` | src/service/rooms/state_compressor.rs:169-190 | exact diffs compose: the merged diff is exactly the one from grandparent to target |
| `StateStore.ReplayExactly` | src/service/rooms/state_compressor.rs:42-93 | replaying a diff keeps what its parent has or it adds, unless it removes it |
| `StateStore.DepthIsHighestFitting` | src/service/rooms/state_compressor.rs:150-267 | an exact diff is put on the highest of at most three layers on which its square is below twice the distance from the next higher place times the layer's size |
| `StateStore.StateCompressor.LoadInfo` | src/service/rooms/state_compressor.rs:42-93 | replaying the stored bytes, with or without cached layers, rebuilds the layers the hash stands for; an unknown hash is an error |
| `StateStore.StateCompressor.SaveStateFromDiff` | src/service/rooms/state_compressor.rs:150-267 | the layer the diff ends up on, what its stored bytes are read back as there, and that it is still the exact diff to the target; at most four layers; no other hash changes |
| `StateStore.StateCompressor.SaveAgainst` | src/database.rs:704-758 | the computed diff is the exact one against the previous state as it is read back, and is put as high as it fits |
| `StateStore.SavedExactly` | src/service/rooms/state_compressor.rs:150-267 | upon sound layers a saved state is read back, with sound layers, if and only if it has no key 0 and is not a small change to hash 0 |
| `StateMigration.TableIsSortedByHash` | src/database.rs:760-766 | iterating the old table visits the hashes in ascending order, so groups are contiguous |
| `StateMigration.RowsExactly` | src/database.rs:760-766 | the rows are exactly the entries of the old table |
| `StateMigration.PreviousExactly` | src/database.rs:704-779 | the state a group is saved against is that of the last group of its room before it |
| `StateMigration.HandleState` | src/database.rs:704-779 | a finished group is saved against its room's latest state and becomes the latest; what is preserved so far stays decided by the groups so far |
| `StateMigration.MigrateRows` | src/database.rs:760-817 | for any rows sorted by hash, every hash is handled once, with exactly its entries, in the chain of its room; all are read back if and only if all survive |
| `StateMigration.Migrate` | src/database.rs:694-822 | exactly the old hashes are stored, each upon layers of its room's state before it; all stand for their old states if and only if no entry has key 0 and no state is a small change to a preceding state of hash 0 |
| `StateMigration.UsualTablesSurvive` | src/database.rs:694-822 | a table without hash 0 and without key 0 loses nothing |
| `StateMigration.ZeroKeyLosesAState` | src/database.rs:694-822 | any entry with key 0 makes some state unreadable |
| `StateMigration.ZeroHashLosesAState` | src/database.rs:694-822 | one event added to the single event of hash 0 is enough to lose a state |
| `AccountDataKeys.PrefixIsFree` | src/database/key_value/account_data.rs:110-126 | a key under a user's prefix is that room's and user's |
| `AccountDataKeys.IndexKeyInjective` | src/database/key_value/account_data.rs:25-41 | index keys determine room, user and type |
| `AccountDataKeys.DataKeyInjective` | src/database/key_value/account_data.rs:25-38 | data keys determine room, user, type and count |
| `AccountDataKeys.FirstPossibleSplitsByCount` | src/database/key_value/account_data.rs:119-126 | a data key is at or above the scan's start if and only if its count is above `since` |
| `AccountData.UpdateRefines` | src/database/key_value/account_data.rs:50-63 | an update keeps the two trees in one-to-one agreement with the map of last values |
| `AccountData.ChangeKeysExact` | src/database/key_value/account_data.rs:119-126 | the scan yields exactly the data keys of the slots updated after `since` |
| `AccountData.Database.Update` | src/database/key_value/account_data.rs:18-66 | valid data replaces the slot's value under a new count; data without type or content is refused and changes only the counter |
| `AccountData.Database.Get` | src/database/key_value/account_data.rs:70-97 | the value stored last, if any |
| `AccountData.Database.ChangesSince` | src/database/key_value/account_data.rs:101-159 | exactly the types last updated after `since`, with their current values |
| `AccountDataRaces.RunInvariant` | src/database/key_value/account_data.rs:50-63 | in every interleaving of updates of a slot, with crashes, each data key is live, left by a crash or some update's to remove, and the index points to a live one |
| `AccountDataRaces.IndexLeadsToTheLastPointed` | src/database/key_value/account_data.rs:50-97 | in every interleaving the index leads to a value: that of the update that wrote the index last |
| `AccountDataRaces.GetFindsExactly` | src/database/key_value/account_data.rs:70-97 | in every run, a `get` that looks the index up at one step and the data at a later one finds that value if and only if no update removed it in between |
| `AccountDataRaces.GetMayMiss` | src/database/key_value/account_data.rs:70-97 | for any two values a run exists in which such a `get` finds nothing although the slot has a value at every step |
| `AccountDataRaces.OneDataKeyExactly` | src/database/key_value/account_data.rs:50-63 | with no update under way the slot has exactly the data key of its index if and only if no update was overtaken between its look-up and its index write, and no crash interrupted one |
| `AccountDataRaces.OrderlyExactly` | src/database/key_value/account_data.rs:50-63 | the byte trees of a slot refine a map of last values if and only if the slot has just that data key |
| `AccountDataRaces.OrderlyUnlessDisturbed` | src/database/key_value/account_data.rs:50-63 | both together: in every run the trees are as serial updates leave them if and only if nothing was overtaken or interrupted |
| `AccountDataRaces.RaceKeepsTheOlder` | src/database/key_value/account_data.rs:50-63 | for any two values a run exists after which both have a data key and the index points to the one with the smaller count |
| `MissingEvents.GetMissingEvents` | src/api/server_server.rs:1168-1241 | terminates with the complete walk to the end of the queue or to the limit; an error means that the walk, below the limit, came to an evil or unreadable event |
| `MissingEvents.ResponseIsDetermined` | src/api/server_server.rs:1172-1237 | there is only one complete walk of a query |
| `MissingEvents.ErrorsAreMet` | src/api/server_server.rs:1172-1205 | such an event is reachable and of another room, or its room, or its parents if it was to be sent, cannot be read |
| `MissingEvents.ReturnedEventsAreReached` | src/api/server_server.rs:1175-1236 | returned events are visible, in the room, not earliest, and reachable from a latest event through such events; at most `limit` |
| `MissingEvents.ShortResponsesAreComplete` | src/api/server_server.rs:1172-1237 | a response below the limit holds exactly the reachable sendable events |
| `MissingEvents.RepeatsExactly` | src/api/server_server.rs:1172-1237 | a complete response repeats no event if and only if each sendable event is led to in one way: one path, and once among the latest events or the parents it is found in |
| `MissingEvents.NoForksNoRepeats` | src/api/server_server.rs:1172-1237 | then no response repeats an event, complete or not |
| `MissingEvents.DiamondRepeats` | src/api/server_server.rs:1217-1236 | two latest events with one parent: the parent comes back twice |
| `CommonElements.Advance` | src/utils.rs:128-140 | advancing one stream finds the target exactly when the stream has it, and skips nothing later targets need |
| `CommonElements.AllContain` | src/utils.rs:126-141 | the short-circuiting `all` answers membership in all streams and leaves every stream usable |
| `CommonElements.CommonElements` | src/utils.rs:113-143 | for any total `check_order`: the result is the first stream filtered by membership in all others; none exactly when there is no stream |
| `CommonElements.CommonHas` | src/utils.rs:113-143 | an element is in the result, as often as in the first stream, if and only if all others have it |
| `CommonElements.CommonIsSorted` | src/utils.rs:113-143 | the result is sorted by the same order, whichever it is |
| `CommonElements.KeyOrderIsLawful` | src/database/key_value/rooms/search.rs:92-97 | the byte order of the trees and its reverse are such orders |
| `SearchMerge.Best` | src/api/client_server/search.rs:84-88 | `max_by_key` picks a stream whose head is at least every other head |
| `SearchMerge.Merge` | src/api/client_server/search.rs:82-92 | the results are the largest min(n, total) elements of the multiset union, descending |
| `SearchMerge.LargestIsUnique` | src/api/client_server/search.rs:82-92 | there is only one such list of each length |
| `SearchMerge.FullMerge` | src/api/client_server/search.rs:53-92 | descending streams always have a full merge |
| `SearchMerge.SearchPage` | src/api/client_server/search.rs:53-135 | a page is the window of the full merge at `skip`, with the token of the next one exactly when more follow |
| `SearchMerge.PagesAreTheMerge` | src/api/client_server/search.rs:53-135 | for every limit, the first n pages chained by `next_batch` are one page of n times the size: no gap, no repeat |
| `SearchMerge.ChainIsComplete` | src/api/client_server/search.rs:53-135 | when there is no further token, the client has everything from `skip` on |
| `SearchMerge.TokenExactly` | src/api/client_server/search.rs:134-135 | the n-th token is n pages further, while something lies beyond it |
| `SearchMerge.ChainEndsExactly` | src/api/client_server/search.rs:53-135 | a client that feeds every `next_batch` back comes to an end if and only if the limit is positive or nothing lies beyond its first token |
| `Watchers.TriggeredExact` | src/database/abstraction/watchers.rs:40-48 | a wake collects exactly the prefixes of its key that have a channel |
| `Watchers.Table.Watch` | src/database/abstraction/watchers.rs:19-37 | a watcher gets the prefix's channel, or a new one; this is the watch step |
| `Watchers.Table.Collect` | src/database/abstraction/watchers.rs:39-48 | the loop collects the prefixes with a channel, shortest first |
| `Watchers.Table.Fire` | src/database/abstraction/watchers.rs:50-57 | the loop removes the collected prefixes still present and signals their channels; this is the fire step |
| `Watchers.RunInvariant` | src/database/abstraction/watchers.rs:18-58 | in every run an unsignalled watcher's channel is in the table under its prefix, and no channel there was sent on |
| `Watchers.NoLostWakeUp` | src/database/abstraction/watchers.rs:18-58 | in every interleaving a watcher on a prefix of k registered before `wake(k)` starts is signalled when it returns |
| `Watchers.NoSpuriousWakeUp` | src/database/abstraction/watchers.rs:18-58 | a watcher is signalled only after a wake on a key it prefixes fired since it registered |
| `Watchers.LateWatcherMayBeMissed` | src/database/abstraction/watchers.rs:39-57 | for every key a watcher registered after the collection can be left unsignalled |
| `SendIdempotence.KeyIsInjective` | src/database/key_value/transaction_ids.rs:6-42 | keys are equal if and only if user, device (missing counts as empty) and transaction id are |
| `SendIdempotence.TransactionIds.AddTxnId` | src/database/key_value/transaction_ids.rs:6-24 | records the response under the transaction's key and changes no other transaction |
| `SendIdempotence.TransactionIds.ExistingTxnId` | src/database/key_value/transaction_ids.rs:26-42 | the recorded response, if any |
| `SendIdempotence.StepKeepsInv` | src/api/client_server/message.rs:32-112 | every step keeps: appended events of a key are in flight, recorded, or lost, and replies carry the recorded one |
| `SendIdempotence.AtMostOneEvent` | src/api/client_server/message.rs:32-112 | in every interleaving a transaction used in one room has appended exactly one event per request lost between append and record, and one more if and only if a request has recorded its event or is about to, never both |
| `SendIdempotence.RepliesAgree` | src/api/client_server/message.rs:48-112 | all successful replies carry the same event, appended for that transaction, even with lost requests and to-device reuse |
| `SendIdempotence.IdempotentExactlyInOneRoom` | src/api/client_server/message.rs:32-112 | two sends under one key append at most one event in every run if and only if they are for one room or one is refused as encrypted |
| `SendIdempotence.TwoRoomsRace` | src/api/client_server/message.rs:32-112 | for any two rooms a run exists that appends twice |
| `SendIdempotence.LostRequestsAppendAgain` | src/api/client_server/message.rs:81-108 | a run exists in which a lost request's retry appends a second event |
| `SendIdempotence.TableHoldsLastRecord` | src/database/key_value/transaction_ids.rs:6-42 | in every run the table holds, for each key, what the last request that recorded it recorded |
| `SendIdempotence.ChecksAnswerTheLastRecord` | src/api/client_server/message.rs:39-75 | in every run what a request answers at its check is decided by the last request that recorded its key, in whichever room: a send replies with that send's event, or with an error if it was a to-device request; a to-device request is done; then neither appends or records anything. Without a record both go on; an encrypted send is refused where encryption is |
| `SendIdempotence.WaitingSendsGoOnExactly` | src/api/client_server/message.rs:32-110 | in every run a waiting send can take its room's token if and only if no send of the room has it |
| `SigningKeys.AcceptedExactly` | src/service/globals.rs:463-492 | a key is accepted if and only if the reply is still valid and the key is current or not yet expired, with the old key's bytes if both |
| `SigningKeys.ServersAreFilteredApart` | src/service/globals.rs:447-460 | each server's keys are accepted exactly as if it were alone |
| `SigningKeys.UpdatedExactly` | src/database/key_value/globals.rs:244-335 | for every time, which key an update leaves accepted under an id, and with which bytes, in terms of the stored reply and the new one |
| `SigningKeys.DroppedKeyExpires` | src/database/key_value/globals.rs:299-312 | a key that the origin drops is accepted exactly until the stored reply would have run out, while the new one is valid |
| `SigningKeys.UpdateRetractsOnlyRelisted` | src/database/key_value/globals.rs:244-335 | below both validity times an update retracts a key if and only if the reply lists it as old and expired by then, and it is no longer current |
| `SigningKeys.UpdateAcceptsOnlyListed` | src/database/key_value/globals.rs:244-335 | what an update newly accepts is listed by the reply |
| `SigningKeys.UnmentionedKeysKeepTheirBytes` | src/database/key_value/globals.rs:284-325 | an unmentioned key stays accepted, with the same bytes if and only if no origin reply retires it over a different unexpired key |
| `SigningKeys.ReusedIdIsShadowed` | src/database/key_value/globals.rs:284-335 | any origin that takes an id up again for another key brings the store there, from a first reply: the old bytes are accepted, until a reply without the id brings back the new ones |
| `SigningKeys.AcceptanceSurvivesUpdates` | src/database/key_value/globals.rs:244-335 | over any sequence of valid replies that do not list it as expired, an accepted key stays accepted |
| `SigningKeys.KeyIdsAreNeverForgotten` | src/database/key_value/globals.rs:244-335 | over any sequence of updates no key id once stored or listed is forgotten |
| `SigningKeys.KeyStore.AddFromTrusted` | src/database/key_value/globals.rs:244-282 | a trusted server's reply extends the stored keys; a first reply is stored as it is |
| `SigningKeys.KeyStore.AddFromOrigin` | src/database/key_value/globals.rs:284-335 | the loop retires exactly the keys the origin no longer lists, at the stored validity time |
| `SigningKeyRaces.IdsAreKeptExactly` | src/database/key_value/globals.rs:244-335 | in every interleaving of reads and writes no key id is ever forgotten if and only if no write overlooks an id stored since it read |
| `SigningKeyRaces.SerialUnlessOvertaken` | src/database/key_value/globals.rs:244-335 | in every run without an overtaken write the stored reply is that of the updates one after the other, in the order of their writes |
| `SigningKeyRaces.OnlyOvertakenWritesForget` | src/database/key_value/globals.rs:244-335 | a write that forgets an id was overtaken |
| `SigningKeyRaces.RaceForgetsKeys` | src/database/key_value/globals.rs:244-335 | two first replies at once: a run exists that forgets the keys of one |
| `SlidingSync.MergeIsSticky` | src/service/users.rs:86-148 | every parameter of a list is the request's value, or the cached one when that is empty |
| `SlidingSync.Clamp` | src/api/client_server/sync.rs:1409-1425 | a clamped range lies in the joined rooms, and is unchanged if it did |
| `SlidingSync.SliceExactly` | src/api/client_server/sync.rs:1409-1425 | a range stands for exactly the rooms at its places, up to the last joined one; beyond all rooms for the last, and if it ends before it begins for the one it begins at |
| `SlidingSync.ListWindowExactly` | src/api/client_server/sync.rs:1401-1464 | the window of a list is the rooms that one of its ranges covers, and none for a list of invites |
| `SlidingSync.ListsAreTheRequests` | src/service/users.rs:86-148 | the lists served are those of the request, each with the request's own ranges |
| `SlidingSync.KnownExactly` | src/service/users.rs:239-249 | a room is known once it was in a window, under the last update's `pos` if it was in that window and 0 otherwise |
| `SlidingSync.StickyParameters` | src/service/users.rs:62-148 | over any run each parameter of each list is its last non-empty value since the last restart |
| `SlidingSync.StickyExtensions` | src/service/users.rs:160-187 | the same for the extension settings |
| `SlidingSync.KnownRoomsOfList` | src/service/users.rs:216-250 | over any run a list's known rooms are decided by the windows it had since the last restart; the reserved list has the subscribed rooms of each request as windows, after those of a client list of that name |
| `SlidingSync.KnownRoomHasLastPos` | src/service/users.rs:216-250 | over any run and for every list a room's known number is the `pos` of the last window if the room was in it, else 0, or absent if it was in none |
| `SlidingSync.SentRoomIsKnownExactly` | src/api/client_server/sync.rs:1401-1516 | over any run, a room that a request sends as part of a list is known under its `pos` afterwards if and only if the list does not have the reserved name, the room is subscribed to, or `pos` is 0; otherwise it is known under 0 |
| `SlidingSync.SubscriptionsAreTheLast` | src/api/client_server/sync.rs:1502-1525 | over any run a room's subscription is the last one given, unless unsubscribed since |
| `SlidingSync.SubscribedRoomsExactly` | src/api/client_server/sync.rs:1478-1516 | over any run the rooms remembered as subscribed are those that exist and whose last subscription was not withdrawn |
| `SlidingSyncRoute.AddedSummarises` | src/api/client_server/sync.rs:1427-1451 | one more ask keeps: smallest since, largest limit, all required state |
| `SlidingSyncRoute.TodoSummarises` | src/api/client_server/sync.rs:1396-1500 | in whatever order asks are met, the entries sum them up |
| `SlidingSyncRoute.WantsExactly` | src/api/client_server/sync.rs:1401-1500 | what is asked of a room: by each list that shows it and by its subscription, the required state, a limit of 10 unless given and of 100 at most, and the number it is known under, or 0 |
| `SlidingSyncRoute.AskRange` | src/api/client_server/sync.rs:1409-1451 | one range asks for exactly the rooms it covers |
| `SlidingSyncRoute.AskList` | src/api/client_server/sync.rs:1401-1464 | the window is the union of the ranges, and each of its rooms is asked for |
| `SlidingSyncRoute.AskSubscriptions` | src/api/client_server/sync.rs:1478-1500 | exactly the subscribed rooms that exist are asked for |
| `SlidingSyncRoute.Unsubscribe` | src/api/client_server/sync.rs:1502-1505 | the loop removes exactly the unsubscribed rooms from both collections |
| `SlidingSyncRoute.MergeLists` | src/service/users.rs:86-148 | the loop fills up every list from the cache as it was and caches it |
| `SlidingSyncRoute.Users.UpdateRequestWithCache` | src/service/users.rs:62-190 | returns the filled-up request and the known rooms as they were; caches lists, subscriptions and extensions |
| `SlidingSyncRoute.Users.UpdateSubscriptions` | src/service/users.rs:192-214 | replaces the subscriptions and nothing else |
| `SlidingSyncRoute.Users.UpdateKnownRooms` | src/service/users.rs:216-250 | both loops together set rooms in the window to `pos` and all others known to 0 |
| `SlidingSyncRoute.Users.SyncEvents` | src/api/client_server/sync.rs:1396-1525 | panics if and only if a list has a range to serve and no room is joined, and says what is cached then; otherwise the cache becomes that of the request served, and each room's entry is the min since, max limit and union of required state over exactly the lists that show it and its subscription |
| `SlidingSyncRoute.Users.SyncEventsOnce` | src/api/client_server/sync.rs:1396-1525 | without a connection id nothing is kept and nothing counts as known; panics in the same cases |
| `Timeline.LessIsStrictOrder` | src/service/rooms/timeline.rs:84-93 | the order of counts is strict and total: that of the integers, backfilled events before 0 and the later fetched the earlier |
| `Timeline.LoadTimeline` | src/api/client_server/sync.rs:1055-1097 | the newest min(limit, n) events after `since`, ascending, limited exactly when n exceeds the limit |
| `Timeline.NewestIsUnique` | src/api/client_server/sync.rs:1055-1097 | that determines the response: the events, their order and whether it is limited |
| `SyncResponse.ComputeDelta` | src/api/client_server/sync.rs:740-767 | the loop sends the current events the saved state lacks, or all of them for `full_state` |
| `SyncResponse.ResponseIsCurrent` | src/api/client_server/sync.rs:516-529 | everything a response carries is current |
| `SyncResponse.ResponseExactly` | src/api/client_server/sync.rs:516-767 | exactly which events a response carries, in every case: for a joined user and a changed state those the saved state lacks or has otherwise, and the members that wrote |
| `SyncResponse.FoldIsExact` | src/api/client_server/sync.rs:641-767 | a client that held the saved state holds the current one after folding if and only if no state key vanished |
| `SyncResponse.FullStateExactly` | src/api/client_server/sync.rs:516-767 | asking for the full state gives it if and only if the state changed since the token, there is none, or there are new messages and the user had not joined or all of it belongs to members that wrote |
| `SyncResponse.SufficesExactly` | src/api/client_server/sync.rs:641-767 | whatever the room's state is by then, the next response brings a client up to date if and only if the saved state is part of what it holds, or the saved state lacks the user's membership and a key |
| `ChainedSync.AnswerWasRead` | src/api/client_server/sync.rs:516-1008 | an answer was computed from the state at an earlier step, since when the device did nothing |
| `ChainedSync.ClientsHoldTheStateRead` | src/api/client_server/sync.rs:516-1008 | after every response of every run without token clashes the client holds the state its sync read |
| `ChainedSync.SaveIsSafeExactly` | src/api/client_server/sync.rs:1002-1008 | a save leaves the next response of every device right if and only if it does not clash |
| `ChainedSync.OneDeviceIsEnough` | src/api/client_server/sync.rs:1002-1008 | runs of one device that gets all its answers have no clashes |
| `ChainedSync.QuietIsEnough` | src/api/client_server/sync.rs:1002-1008 | runs without a state change inside a sync have no clashes |
| `SyncClashes.ClashLosesAnEvent` | src/api/client_server/sync.rs:1002-1008 | for any two different states a run of two devices exists that leaves one with the old state |
| `SyncClashes.LostAnswerLosesAnEvent` | src/api/client_server/sync.rs:1002-1008 | for any two different states a run of one device exists in which one lost answer leaves it with the old state |

## Left out

- HTTP, routing, TLS, server discovery, request signing, JSON, state resolution, authentication and push rules: foreign code or plumbing.
- The database engines: a tree is an ordered map of byte strings, writes succeed, a batch is atomic.
- EDUs chosen by `select_edus` and their counters: they are not persisted, so the sender's claims are about stored requests only; delivery is at least once.
- `SendingService.Service.QueueRequests`: not for PDU ids of 8 bytes, which would collide with EDU counters (real ids are two or more 8-byte numbers), nor for empty EDUs (they are serialised JSON); the counter does not overflow. The messages that follow the batch are steps of their own.
- `SendingTheorems.NothingIsStranded`: says who will look at a queue, not when; nothing here claims that steps eventually happen.
- `LockTable.TokensAreUnique`: the table is a state machine over values; Rust's lock, channel and reference-count primitives are its atomic steps.
- `StateStore.StateCompressor.LoadInfo`: the LRU order of the cache is replaced by evicting anything at any time.
- `StateStore.StateCompressor.SaveStateFromDiff`: for a hash that is not stored yet, as its callers see to; sums of diff sizes do not overflow; `save_state` around it, which looks hashes up by content, is not part of this model.
- `SearchMerge.SearchPage`: `skip + limit` does not overflow; filtering by visibility after the merge and the search index itself are not part of this model.
- `MissingEvents.GetMissingEvents`: events, their rooms and their visibility are given by the query; requests of servers that are not in the room are refused before the loop.
- `AccountData.Database.Update`: one update at a time; `AccountDataRaces` says what interleaved updates of one slot do, for the slot's own keys.
- `SigningKeys.KeyIdsAreNeverForgotten`: for updates one after the other; `SigningKeyRaces.IdsAreKeptExactly` is about interleaved ones.
- `AccountData.Database.ChangesSince`: `since` is below the largest counter, as `since + 1` in the source demands.
- `SendIdempotence.RepliesAgree`: event ids are positions in the log, so their parsing from stored bytes is not modelled.
- `SigningKeys.KeyStore.AddFromOrigin`: a stored reply that no longer parses counts as absent in the source; here stored replies always parse.
- `SlidingSyncRoute.Users.SyncEvents`: serves the requests of a connection one at a time; the `lists` part of the answer, loading the rooms, device lists and the other extensions are not part of this model.
- `ChainedSync.ClientsHoldTheStateRead`: without lazy loading, for one room, folding the `state` part of responses; every state event is stored; the current state, the saved state and the member events of senders are read at one moment between the token and the save; state keys do not vanish (`FoldIsExact` says what happens when they do).
- `StateMigration.Migrate`: rows have the sizes the old version wrote, and every event has a room; the source panics otherwise.
- `SendingDriver.Process.Run`: calls follow one another. A crash between two writes of one call, and an enqueue between the scan and the marking, are steps of the protocol and covered by its theorems, but the byte trees at those moments are not exposed. Events that cannot happen at the moment, such as batches that would overflow the counter, are skipped.
- `Watchers.NoLostWakeUp`: stays within the table; when a sync handler polls its watcher is not modelled.
- Other migrations, admin commands, media, presence, typing and receipts: they would only add easier members.
