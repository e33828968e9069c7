# A verified model of the MMO server's core

This project models the stateful and the encoding parts of a game server written in Go, and
proves what they promise. Seven parts of the server are covered:

- **AOI grid and player manager.** The spatial index of `pkg/aoi` and the player registry of
  `pkg/sync` that drives it. `CellTable` is the table of cells without any geometry, `AoiGrid`
  the cell arithmetic and whole runs of the index, `AoiManager` the queries, `PlayerState` the
  registry call by call, `PlayerRoster` what its calls mean. A position update runs without the registry's lock: `PlayerMoves` takes
  it apart into its critical sections, with `MoveLedger` as the account of moves half done, and
  `PlayerOverlaps` shows what operations of one player do that overlap.
- **Asynchronous database engine** (`pkg/db/async.go`). `AsyncDb` is batches, timers, the
  bounded queue, workers and retries as one step system, `AsyncOutcomes` what an operation is told,
  `AsyncOrder` in which order operations are served, `AsyncLosses` what is lost, `AsyncDrain` why
  the engine comes to rest, `AsyncEngine` its methods, `FlushWaits` the callers that wait for it.
- **Write-back cache** (`pkg/db/cache_sync.go`). `EntityKeys` holds the key strings,
  `FlushBatches` the cutting of a flush into batches, `WriteBack` concurrent writers and
  flushes, `CacheSync` the cache in front and the synchroniser itself, `CacheRace` reads and
  writes of one entity that overlap.
- **Redis lease lock** (`pkg/redis/lock.go`). `LeaseStore` is the store with all clients,
  `RenewalSchedule` the timing of renewals, `RenewerRegistry` the renewers of one process,
  `HeldLock` all three together, `RedisLock` the lock object.
- **Load balancers** (`pkg/protocol/router.go`, `pkg/rpc/load_balancer.go`), in
  `CumulativeScan` and `LoadBalancers`; `BalancedCalls` is about many calls with one list.
- **Codecs.** `Bytes` holds big-endian numbers and length-prefixed fields, `RpcProtocol` the
  RPC wire form, `InternalMessage` the internal message format, `ProtocolConverter` the binary
  and text forms of the converters.
- **Pending calls** (`pkg/rpc/client_standalone.go`), in `PendingCalls`.

`Counting` counts occurrences in sequences.

Code that changes things in place is modelled by classes and methods, each tied to a function
of the old state; what the source promises is then proved about these functions. A method is one
call that nobody interrupts. What goroutines do to each other is modelled by step systems, in
which a step is one critical section, one channel operation or one command to the database or
the store; the exceptions are listed under "Left out". Redis, the database and timers are small
state machines. Coordinates are reals and times are integers. Random tokens are numbers drawn
once. Whether a cache, a database or a store answers is a parameter.

## Where the code does not do what it says

Each of these is a lemma, with the exact condition under which the promise does hold.

- The internal message's header constant is 20, its fixed fields take 22 bytes. Both sizes are
  modelled: `InternalMessage.RoundTripIff`, `InternalMessage.PayloadFate`. Data of 20 or 21
  bytes passes the length test and is then sliced beyond its end: the process panics when the
  slice has no capacity for 22 bytes, and refuses the data when it has
  (`InternalMessage.DecodeWithin`).
- Adding an id that is in the index already counts a player twice or leaves it in two cells:
  `AoiGrid.AddIff`. A player who moves out of the arena stays in the cell it left:
  `PlayerState.UpdatePositionIff`. The index is right again exactly when the next move leads back
  into that cell (`PlayerState.ReturnIff`); unregistering first leaves the player behind
  (`PlayerState.LeftInIndex`).
- Operations of one player that overlap break the index within the arena. Unregistering during a
  move leaves the player behind exactly when the move changes its cell
  (`PlayerOverlaps.UnregisteredInMoveIff`), and two moves at once count it twice
  (`PlayerOverlaps.MovedTwiceAtOnce`). An entry left behind stays while its id is not registered
  again (`PlayerOverlaps.StrayStays`). What callers must not do is
  exact: `PlayerMoves.InterleavedConsistent`, `PlayerOverlaps.RightIffStrict`.
- Weighted selection gives the instances that have a weight their share exactly when no weight is
  negative: `LoadBalancers.FairnessIff`, and over whole calls `BalancedCalls.FairCallsIff`.
- A batch or a retry that finds the queue full loses operations that were accepted, without
  telling anybody: `AsyncLosses.DroppedIff`, `AsyncLosses.SilentLossIff`. A flush that waits for
  one never returns: `FlushWaits.NeverReturns`, `FlushWaits.NeverStuckIff`.
- A write between the claim and the removal of the same entity is lost, exactly when another
  value of the entity is in flight: `WriteBack.WriteSurvivesIff`, `WriteBack.LostUpdate`. A failed
  batch is never retried: `WriteBack.NeverRetried`.
- Reading a deleted entity before the flush brings the old row back: `CacheSync.ReadIff`,
  `CacheSync.ReadKeepsIff`. A delete whose cache error is ignored leaves a stale row:
  `CacheSync.DeleteCoherentIff`. An immediate write is undone by an older dirty entry:
  `CacheSync.ImmediateIff`, `CacheSync.ImmediateUndone`. A read that overlaps a write of the same
  entity can put the old row over the new one, and two writes can cross:
  `CacheRace.CoherentIffStrict`.
- Entity types with colons can make two entities share a key: `EntityKeys.KeysTellApartIff`.
- A refresh sends whole milliseconds, so for other timeouts delays under a third of the timeout
  do not keep the lock: `RenewalSchedule.ContinuityIff`, `RenewalSchedule.ThirdIsNotEnough`. A
  client cannot count the timeout it asked for either: `LeaseStore.CountingTimeoutIff`. A
  refresh for less than a millisecond gives the lock up: `LeaseStore.TinyRefreshLetsGo`.
- Stop requests name a key, so one meant for an older lock stops a newer renewer, even one that
  a release sends late: `RenewerRegistry.KeepsRenewingIff`, `HeldLock.HolderKeepsIff`,
  `RenewerRegistry.ReacquiredTooSoon`, `RenewerRegistry.SlowRelease`.

## Model

| member | source | states |
|---|---|---|
| `AoiGrid.CellIff` | pkg/aoi/aoi.go:72-92 | every position of the world is in the square of exactly one cell, one cell width a side counted from the lower corner with the last row open, and that is its cell |
| `AoiGrid.IndexDrift` | pkg/aoi/aoi.go:72-92 | two offsets at most d apart have cell indices at most ceil(d / gridWidth) apart, also when the index is clamped to the last row |
| `AoiGrid.ClampFires` | pkg/aoi/aoi.go:43-92 | inside the world the clamp never fires on X, and fires on Z exactly beyond the X extent, because the cell width comes from X alone |
| `AoiGrid.DistanceAxes` | pkg/aoi/aoi.go:154-178 | the squared distance is the sum of the squared differences of all three axes, the same in both directions, and zero only between equal positions |
| `AoiGrid.CloseIsNear` | pkg/aoi/aoi.go:154-178 | points within a 3-D distance have cells within the rounded-up range on both axes, whatever the two extents |
| `AoiGrid.AddIff` | pkg/aoi/aoi.go:181-200 | adding an entity leaves the index right if and only if its id is free, or is a non-player's in the same cell |
| `AoiGrid.RemoveKeeps` | pkg/aoi/aoi.go:203-225 | removing a member leaves the index right for the others, counts included |
| `AoiGrid.MoveIff` | pkg/aoi/aoi.go:228-268 | a reported move leaves the index right if and only if the new position is in the world |
| `AoiGrid.StrangerKeeps` | pkg/aoi/aoi.go:181-268 | objects that are not members can change without concerning the index |
| `AoiGrid.RefersKept` | pkg/aoi/aoi.go:181-268 | no operation makes the index refer to an object that does not exist |
| `AoiGrid.StepKeeps` | pkg/aoi/aoi.go:181-268 | every disciplined event keeps the index right for who is then in |
| `AoiGrid.ReachableIndexed` | pkg/aoi/aoi.go:181-268 | after any run in which ids enter once and moves stay in the world: each entity is in the one cell of its current position, no other entries, and every playerCount is the number of players in its cell |
| `CellTable.ReentryIff` | pkg/aoi/aoi.go:181-200 | entering under a taken id is right exactly when it lands in the old bearer's cell and the old bearer is no player |
| `CellTable.FaithfulUnique` | pkg/aoi/aoi.go:43-69 | a set of members with homes has exactly one right table |
| `AoiManager.AOIManager.constructor` | pkg/aoi/aoi.go:43-69 | the loops build the empty table with all its cells, for every world, and it is right for no members when the world has an extent and a cell |
| `AoiManager.AOIManager.GetGrid` | pkg/aoi/aoi.go:72-92 | none exactly outside the world, else the cell whose square holds the position on both axes |
| `AoiManager.AOIManager.AddEntity` | pkg/aoi/aoi.go:181-200 | the table after an add, and that it fails exactly outside the world |
| `AoiManager.AOIManager.RemoveEntity` | pkg/aoi/aoi.go:203-225 | the table after a removal, unchanged when the entity is not in its cell |
| `AoiManager.AOIManager.UpdateEntity` | pkg/aoi/aoi.go:228-268 | the table after a reported move that nobody interrupts, unchanged within a cell or when either position is outside |
| `AoiManager.AOIManager.TakeOut` | pkg/aoi/aoi.go:248-257 | the critical section of the old cell |
| `AoiManager.AOIManager.PutIn` | pkg/aoi/aoi.go:259-265 | the critical section of the new cell |
| `AoiManager.AOIManager.GetSurroundingGridsByRange` | pkg/aoi/aoi.go:95-113 | exactly the cells of the table whose column and row are each at most the range away, each once |
| `AoiManager.AOIManager.GetSurroundingEntities` | pkg/aoi/aoi.go:127-151 | exactly the members whose cell is within the range, each once |
| `AoiManager.AOIManager.GetEntitiesByDistance` | pkg/aoi/aoi.go:154-178 | for distances not below zero exactly the members that a scan over all positions finds within the 3-D distance, each once |
| `AoiManager.AOIManager.GetNearbyPlayers` | pkg/aoi/aoi.go:271-287 | the sum of the cells' counts is the number of players whose cell is within the range |
| `AoiManager.WithinIsNearby` | pkg/aoi/aoi.go:154-178 | the cells searched miss nobody within the distance |
| `AoiManager.SumIsPlayers` | pkg/aoi/aoi.go:271-287 | over distinct cells the counts add up to the players at home in them |
| `PlayerState.RegisterKeeps` | pkg/sync/player_state.go:70-111 | registering keeps index, players and subscriber lists consistent |
| `PlayerState.UnregisterKeeps` | pkg/sync/player_state.go:114-148 | unregistering keeps them consistent, and afterwards no list mentions the player |
| `PlayerState.UpdatePositionIff` | pkg/sync/player_state.go:172-194 | a move keeps them consistent if and only if it stays in the arena |
| `PlayerState.SubscriptionsKeep` | pkg/sync/player_state.go:245-289 | subscribing and unsubscribing take effect, leave every other subscriber and list as it was and keep every list free of duplicates |
| `PlayerState.UndoRegister` | pkg/sync/player_state.go:70-148 | unregistering undoes registering in players and index, and in the lists exactly when none named the player before |
| `PlayerState.RunConsistent` | pkg/sync/player_state.go:70-289 | after any sequence of whole calls with moves in the arena the grid holds exactly the registered players, each in one cell, players and subscribers have the same keys, and lists are duplicate-free |
| `PlayerState.LeftInIndex` | pkg/sync/player_state.go:114-194 | after a move out of the arena, unregistering leaves the player in the grid |
| `PlayerState.ReturnIff` | pkg/sync/player_state.go:172-194 | after a move out of the arena, the next move makes everything consistent again if and only if it leads into the cell that was left |
| `PlayerState.PlayerStateManager.RegisterPlayer` | pkg/sync/player_state.go:70-111 | the whole new state: a new player object at the origin with an empty list, nothing for a known id |
| `PlayerState.PlayerStateManager.UnregisterPlayer` | pkg/sync/player_state.go:114-148 | the whole new state, with the loop over all lists: the id leaves players and lists, nobody else does |
| `PlayerState.PlayerStateManager.UpdatePlayerPosition` | pkg/sync/player_state.go:172-194 | a call that nobody interrupts stores exactly the position given in exactly this player, even when the index refuses the move |
| `PlayerState.PlayerStateManager.SubscribeToPlayer` | pkg/sync/player_state.go:245-266 | the subscriber joins the list of the target and no other, with failure exactly for an unknown target |
| `PlayerState.PlayerStateManager.UnsubscribeFromPlayer` | pkg/sync/player_state.go:269-289 | the subscriber leaves the list of the target and no other, with failure exactly for an unknown target |
| `PlayerState.PlayerStateManager.GetNearbyEntities` | pkg/sync/player_state.go:408-448 | in a consistent state exactly the other players within sight, each once |
| `PlayerRoster.RunIsReplay` | pkg/sync/player_state.go:70-289 | after any calls, in the arena or out of it, the players, their positions and their subscribers are those of a replay on plain maps: spawned at the origin, moved to the position given, gone when unregistered |
| `PlayerRoster.ApplyMeans` | pkg/sync/player_state.go:70-289 | each call changes the maps as its name says, and nothing else |
| `PlayerMoves.StepKeeps` | pkg/sync/player_state.go:70-194 | every critical section of every call, moves of others in between, keeps that the table shows each player where its own call has left it |
| `PlayerMoves.InterleavedConsistent` | pkg/sync/player_state.go:70-194 | for every interleaving of register, unregister, subscribe, unsubscribe and the sections of all moves in which one player's own operations do not overlap: whenever no move is half done, the grid holds exactly the registered players, each in the cell of its position |
| `PlayerMoves.SettledConsistent` | pkg/aoi/aoi.go:228-268 | a table that is behind only for moves half done is right when there is none |
| `PlayerOverlaps.Uninterrupted` | pkg/sync/player_state.go:172-194 | the sections of a move one after the other, in any state of the other moves, are the move in one step, also out of the arena |
| `PlayerOverlaps.UnregisteredInMoveIff` | pkg/sync/player_state.go:114-194 | from every consistent state, a player unregistered after any section of a move in the arena is left in the grid if and only if the move changes its cell |
| `PlayerOverlaps.StrayStays` | pkg/sync/player_state.go:70-194 | an entry whose player is gone stays in its cell through every run in which the id is not registered again |
| `PlayerOverlaps.StrayOutside` | pkg/sync/player_state.go:114-194 | moving out of the arena and unregistering leaves such an entry |
| `PlayerOverlaps.MovedTwiceAtOnce` | pkg/sync/player_state.go:172-194 | from every consistent state, two overlapping moves of one player count it twice in the last one's cell, if that is another than the one left |
| `PlayerOverlaps.RightIffStrict` | pkg/sync/player_state.go:70-194 | every permitted run is right whenever no move is half done, if and only if it is forbidden to unregister a player during its move, to move it twice at once and to move it out of the arena |
| `AsyncDb.BatchedIff` | pkg/db/async.go:496-511 | what is batched: queries that start with SELECT and go on, commands that start with INSERT, UPDATE or DELETE |
| `AsyncDb.SameBatchIff` | pkg/db/async.go:514-521 | statements share a batch if and only if they are equal or agree on their first 20 characters |
| `AsyncDb.EnqueueAllShape` | pkg/db/async.go:405-416 | a batch goes into the queue in order as far as there is room, and the rest is lost |
| `AsyncDb.AddToBatchKeeps` | pkg/db/async.go:419-441 | adding keeps every batch nonempty, below BatchSize, sorted by its key and timed by an armed timer |
| `AsyncDb.FullBatch` | pkg/db/async.go:419-476 | adding moves a batch on if and only if it fills it, then in order and with exactly BatchSize operations, or one where that is less |
| `AsyncDb.RunTimerKeeps` | pkg/db/async.go:444-476 | so does any timer function, its own, late or stale |
| `AsyncDb.FlushKeeps` | pkg/db/async.go:479-493 | so does a flush in any order with any timers stopped too late, and it leaves no batch |
| `AsyncDb.NotStranded` | pkg/db/async.go:419-476 | every batch has a timer that will still run and will move exactly its operations on |
| `AsyncDb.StepCount` | pkg/db/async.go:299-493 | no step changes how often an operation is in the system, except its submission by one |
| `AsyncDb.StepKeeps` | pkg/db/async.go:161-493 | every step keeps: batches timed, every submitted operation in exactly one place, retry bounds, the counters, the queue's capacity |
| `AsyncDb.ReachableInv` | pkg/db/async.go:161-493 | the same in every reachable state, for every interleaving, including QueuedOperations = queue + in flight + CompletedOperations + RetryCount |
| `AsyncDb.SentAndCalledBack` | pkg/db/async.go:321-402 | an operation goes to the pool at most MaxRetries + 1 times, exactly so often when it is reported failed, and is called back or dropped at most once |
| `AsyncOutcomes.ProcessTally` | pkg/db/async.go:321-384 | what each outcome adds to the account of its operation and of no other: cancelled is called back and not sent, success is sent and called back, failure is sent and retried or called back as failed |
| `AsyncOutcomes.OutcomesDecide` | pkg/db/async.go:299-402 | in every run the numbers of sends, retries, failures and callbacks of an operation follow from how often it was cancelled, succeeded and failed |
| `AsyncOutcomes.ToldIff` | pkg/db/async.go:321-402 | in every run an operation is called back as cancelled, as failed or with success if and only if it was cancelled, failed more often than it may be retried, or succeeded, and only as one of these |
| `AsyncOrder.FirstInFirstOut` | pkg/db/async.go:299-416 | in every run what was in the queue followed by what entered it is what was handed to workers followed by what is in it |
| `AsyncLosses.DroppedIff` | pkg/db/async.go:405-416 | a step loses an operation if and only if it offers it to a full queue |
| `AsyncLosses.DropFreeIff` | pkg/db/async.go:161-493 | no run that submits at most n operations loses any, if and only if the queue can hold n |
| `AsyncLosses.SilentLossIff` | pkg/db/async.go:366-476 | some run loses an operation that was accepted, if and only if operations can be batched or can be retried |
| `AsyncLosses.RunDropsNothing` | pkg/db/async.go:161-493 | a run that submits no more operations than the queue can hold loses none |
| `AsyncDrain.StepDecreases` | pkg/db/async.go:299-476 | every step of workers, timers and batch loops makes a measure of remaining retries and places smaller |
| `AsyncDrain.DrainBound` | pkg/db/async.go:299-476 | without new submissions or flushes at most Measure steps are possible |
| `AsyncDrain.QuietSettled` | pkg/db/async.go:299-476 | when none is possible any more, every submitted operation was called back or dropped exactly once |
| `FlushWaits.AnsweredIff` | pkg/db/cache_sync.go:835-850 | in every run of a flush, other callers and the engine, once the engine is at rest the flush is answered if and only if its statement was not lost |
| `FlushWaits.NeverReturns` | pkg/db/cache_sync.go:835-850 | a flush whose statement was lost does not return in any run that follows |
| `FlushWaits.NeverStuckIff` | pkg/db/cache_sync.go:642-947 | no flush ever waits for a lost statement, if and only if operations can be neither batched nor retried |
| `AsyncEngine.LoopIsRun` | pkg/db/async.go:456-476 | the loop over a batch, uninterrupted, is the run of its single steps |
| `AsyncEngine.AsyncDB.EnqueueOperation` | pkg/db/async.go:405-416 | the new queue and counter, and an error exactly when the operation did not go in |
| `AsyncEngine.AsyncDB.ProcessBatch` | pkg/db/async.go:456-476 | the batch leaves the table and goes through the queue operation by operation |
| `AsyncEngine.AsyncDB.AddToBatch` | pkg/db/async.go:419-441 | the new batches, timers and queue |
| `AsyncEngine.AsyncDB.ProcessBatchByTimer` | pkg/db/async.go:444-453 | the timer step and then the whole loop over its batch |
| `AsyncEngine.AsyncDB.ProcessPendingBatches` | pkg/db/async.go:479-493 | all timers stopped and all batches taken, each key once: the flush step and then the whole loop |
| `AsyncEngine.AsyncDB.Submit` | pkg/db/async.go:161-217 | batched without error when batching applies, else enqueued with an error exactly for a full queue: the submit step and then the whole loop |
| `AsyncEngine.AsyncDB.ProcessOperation` | pkg/db/async.go:321-384 | the new account of the operation for each outcome, with all counters |
| `EntityKeys.SameKeyIff` | pkg/db/cache_sync.go:962-964 | two different entities share a key exactly when one type is the other plus a colon and more, and the names make up for it |
| `EntityKeys.KeysTellApartIff` | pkg/db/cache_sync.go:962-964 | keys are injective on a set of types if and only if none extends another past a colon |
| `EntityKeys.ColonFreeSeparate` | pkg/db/cache_sync.go:962-964 | types without colons are such a set |
| `EntityKeys.KeyForms` | pkg/db/cache_sync.go:957-964 | the two keys of one entity, written out |
| `EntityKeys.CacheKeySame` | pkg/db/cache_sync.go:957-964 | cache keys coincide exactly when dirty keys do |
| `FlushBatches.SlicesCover` | pkg/db/cache_sync.go:672-688 | the slices put together are the entries in order |
| `FlushBatches.CountBounds` | pkg/db/cache_sync.go:674-681 | the ceiling division counts exactly the slices that start inside |
| `FlushBatches.Slice` | pkg/db/cache_sync.go:674-687 | the loop with its start and end indices yields these slices |
| `FlushBatches.GroupByType` | pkg/db/cache_sync.go:664-668 | each group is the entries of its type in order, and no entry is left out |
| `FlushBatches.BatchFilled` | pkg/db/cache_sync.go:672-688 | of the batches of one type all but the last have BatchSize entries |
| `FlushBatches.Split` | pkg/db/cache_sync.go:664-688 | every claimed entry is in exactly one batch, of its own type and of 1 to BatchSize entries, and no batch is begun before those of its type are full |
| `WriteBack.PutLook` | pkg/db/cache_sync.go:456-496 | a deferred write changes "dirty over database" at its own entity and nowhere else |
| `WriteBack.StepKeeps` | pkg/db/cache_sync.go:642-802 | with patient writers every entry in flight stays in the table, unchanged and in flight once, and what was written is in the database |
| `WriteBack.StepAgrees` | pkg/db/cache_sync.go:456-802 | each step does to "dirty over database" what it does to a plain map: flush steps nothing |
| `WriteBack.RunAgrees` | pkg/db/cache_sync.go:456-802 | the same over whole concurrent runs, failing batches included |
| `WriteBack.FlushedIsReplay` | pkg/db/cache_sync.go:642-802 | once nothing is dirty the database equals all writes replayed in order |
| `WriteBack.ClaimsDisjoint` | pkg/db/cache_sync.go:648-657 | two flushes never claim the same entry, whatever runs between their claims |
| `WriteBack.NeverRetried` | pkg/db/cache_sync.go:648-657 | an entry whose batch failed stays pending through every run until its entity is written again |
| `WriteBack.WriteSurvivesIff` | pkg/db/cache_sync.go:648-799 | a deferred write stays visible through every run of claims, stores, failures, removals and other writes if and only if no other value of its entity is in flight when it is made |
| `WriteBack.CarriedWins` | pkg/db/cache_sync.go:757-799 | a value in flight can always be stored and taken out together with whatever newer value the table has |
| `WriteBack.LostUpdate` | pkg/db/cache_sync.go:793-799 | a newer write made after the claim of an older one can be removed unwritten |
| `CacheSync.FlushInvisible` | pkg/db/cache_sync.go:642-706 | a whole flush, successful or not, changes nothing that is seen |
| `CacheSync.FlushEmptiesIff` | pkg/db/cache_sync.go:642-706 | a flush leaves nothing dirty exactly when every batch succeeds and no earlier entry was pending |
| `CacheSync.LastFlush` | pkg/db/cache_sync.go:642-706 | after any patient concurrent run a last such flush makes the database equal to the replay |
| `CacheSync.ReadIff` | pkg/db/cache_sync.go:183-277 | Get answers "dirty over database" if and only if it does not read a deleted entity that the cache does not answer and whose row is still there |
| `CacheSync.ReadKeepsIff` | pkg/db/cache_sync.go:183-277 | Get leaves the cache coherent under the same condition, or when the cache refuses the row |
| `CacheSync.SetCoherent` | pkg/db/cache_sync.go:456-496 | a deferred Set keeps the cache coherent |
| `CacheSync.DeleteCoherentIff` | pkg/db/cache_sync.go:550-582 | a deferred Delete does exactly when the cache dropped the row or had none |
| `CacheSync.FlushCoherent` | pkg/db/cache_sync.go:642-706 | a flush keeps the cache coherent |
| `CacheSync.ImmediateIff` | pkg/db/cache_sync.go:480-482 | an immediate Set takes effect if and only if no older dirty entry says otherwise |
| `CacheSync.ImmediateCoherentIff` | pkg/db/cache_sync.go:473-482 | an immediate Set keeps the cache coherent under the same condition |
| `CacheSync.ImmediateUndone` | pkg/db/cache_sync.go:480-482 | the next flush that stores the older entry overwrites the immediate write |
| `CacheSync.GetAnswersLastWrite` | pkg/db/cache_sync.go:183-277 | after any sequential run of deferred writes, reads, evictions and flushes, Get answers the last write if and only if it is not that stale read |
| `CacheSync.DirtiedAllLook` | pkg/db/cache_sync.go:499-627 | SetMulti and DeleteMulti change exactly the named entities to what they say |
| `CacheSync.CachedAllReads` | pkg/db/cache_sync.go:499-547 | SetMulti leaves each of the rows in the cache under its own key and no other entity of the type changed |
| `CacheSync.SetMultiCoherent` | pkg/db/cache_sync.go:499-547 | SetMulti keeps the cache coherent |
| `CacheSync.DeleteMultiCoherentIff` | pkg/db/cache_sync.go:585-627 | DeleteMulti keeps the cache coherent exactly when none of the entities stays in it |
| `CacheSync.ImmediateMultiIff` | pkg/db/cache_sync.go:499-627 | the immediate forms take effect exactly where no older dirty entry says otherwise |
| `CacheSync.CacheSynchroniser.Set` | pkg/db/cache_sync.go:456-496 | the cache, the database and the dirty table after a Set, deferred or immediate, and every error path |
| `CacheSync.CacheSynchroniser.SetMulti` | pkg/db/cache_sync.go:499-547 | the new layers, deferred or immediate, nothing for no entities or a failing cache, and what was written before the first failure |
| `CacheSync.CacheSynchroniser.Delete` | pkg/db/cache_sync.go:550-582 | the same for a Delete, a failing cache ignored |
| `CacheSync.CacheSynchroniser.DeleteMulti` | pkg/db/cache_sync.go:585-627 | the new layers, deferred or immediate, cache failures ignored |
| `CacheSync.CacheSynchroniser.Get` | pkg/db/cache_sync.go:183-277 | the cache answers first, then a dirty entry with data, then the database; what was found is left in the cache and no other row is touched; a cache that cannot be read or written and a query that fails |
| `CacheSync.CacheSynchroniser.ClaimEntries` | pkg/db/cache_sync.go:648-657 | exactly the new entries, each once, all now pending |
| `CacheSync.CacheSynchroniser.FlushBatch` | pkg/db/cache_sync.go:757-802 | fails exactly when one of its entities cannot be stored, and removes its entries exactly when all were |
| `CacheSync.CacheSynchroniser.Flush` | pkg/db/cache_sync.go:642-706 | a whole flush claims all new entries, cuts them into batches and tries each: exactly the batches whose entities can all be stored leave the table, and it succeeds exactly when that is all of them |
| `CacheRace.CoherentIffStrict` | pkg/db/cache_sync.go:183-488 | the cache has no row or the right one whenever nothing is under way, in every permitted run, if and only if neither a read nor another write of the entity may overlap a write of it |
| `CacheRace.StaleFill` | pkg/db/cache_sync.go:217-262 | a Get that read before a Set and fills the cache after it leaves the old row |
| `CacheRace.CrossedWrites` | pkg/db/cache_sync.go:473-488 | two Sets that reach the cache and the dirty table in different orders leave a wrong row |
| `LeaseStore.MutualExclusion` | pkg/redis/lock.go:131-252 | in every run of clients acquiring, releasing, refreshing and timing out, with delayed or lost answers, at most one token per key is counted on at any time |
| `LeaseStore.StepSound` | pkg/redis/lock.go:131-252 | every step keeps that a client still counting on its lease has it |
| `LeaseStore.AcquireIff` | pkg/redis/lock.go:131-164 | acquiring succeeds, with a fresh token, exactly when nobody holds the key, and changes no lease otherwise |
| `LeaseStore.CountingTimeoutIff` | pkg/redis/lock.go:147-148 | the lease granted covers the timeout asked for exactly when that is whole milliseconds or less than one |
| `LeaseStore.LeaseExpires` | pkg/redis/lock.go:131-164 | in every run in which the holder does not refresh and its timeout passes, it has lost the lock, and the key can be acquired unless somebody else has done so |
| `LeaseStore.HeldExactly` | pkg/redis/lock.go:131-164 | a holder that does nothing has the lock exactly as long as the lease was granted for, through every run of the others |
| `LeaseStore.Leased` | pkg/redis/lock.go:147-148 | the lease granted is whole milliseconds, less than one short of the timeout and never longer, except one millisecond for less than one |
| `LeaseStore.HolderOnly` | pkg/redis/lock.go:167-252 | Release and Refresh change the store only while their token is the live holder's, and never another key |
| `LeaseStore.TinyRefreshLetsGo` | pkg/redis/lock.go:226-229 | after a successful refresh the lock is still held exactly when the timeout is at least a millisecond |
| `LeaseStore.Undisturbed` | pkg/redis/lock.go:131-252 | no step of another token changes a live lease |
| `RenewalSchedule.IntervalRule` | pkg/redis/lock.go:86-90 | the renewal interval is the least of the configured one and a third of each timeout, or a third of the lock's timeout where nothing usable is configured, and it is positive exactly from three nanoseconds on |
| `RenewalSchedule.Continuity` | pkg/redis/lock.go:294-343 | renewals in time, never two missed in a row, keep the lock through every run of the other clients |
| `RenewalSchedule.DelayUnderThird` | pkg/redis/lock.go:294-343 | for whole milliseconds a delay under a third of the timeout suffices |
| `RenewalSchedule.AutoRenewalKeeps` | pkg/redis/lock.go:86-343 | with the interval the lock chooses and a timeout in whole milliseconds, renewals delayed by less than a third of the timeout, never two missed in a row, keep the lock |
| `RenewalSchedule.ContinuityIff` | pkg/redis/lock.go:205-343 | no punctual run loses the lock if and only if two intervals and the delay stay below the whole milliseconds of the timeout |
| `RenewalSchedule.ThirdIsNotEnough` | pkg/redis/lock.go:226-229 | a timeout and a delay under its third that violate this |
| `RenewerRegistry.KeepsRenewingIff` | pkg/redis/lock.go:167-361 | a new renewer goes on until its own stop in every run if and only if at its start no older renewer of the key is running, no stop for the key is waiting and none is still to be sent |
| `RenewerRegistry.RunKnown` | pkg/redis/lock.go:294-361 | in every run an entry of the table has a running renewer or a stop request on its way, and no channel is closed twice |
| `RenewerRegistry.ReacquiredTooSoon` | pkg/redis/lock.go:346-361 | release and re-acquire at once: the new lock's renewer is stopped and the old one runs on |
| `RenewerRegistry.SlowRelease` | pkg/redis/lock.go:183-193 | a release that sends its request late stops the renewer of a lock acquired since, although nothing of the old lock runs or waits |
| `HeldLock.HolderKeeps` | pkg/redis/lock.go:131-361 | leases, clients, renewers and clock together: a holder whose process is clean of the key and whose renewals come in time has its lease live and its renewer going in every run, until it releases |
| `HeldLock.HolderKeepsIff` | pkg/redis/lock.go:131-361 | no run loses the lock if and only if the process was clean of the key when the renewer started |
| `RedisLock.RedisLock.constructor` | pkg/redis/lock.go:77-103 | the configured interval is cut to a third of the default timeout |
| `RedisLock.RedisLock.LockKeysApart` | pkg/redis/lock.go:279-281 | different keys have different keys in the store |
| `RedisLock.RedisLock.TryAcquire` | pkg/redis/lock.go:131-164 | success exactly when the key is free; a lease of the timeout cut to whole milliseconds; no lock of another key touched; the registry's new state |
| `RedisLock.RedisLock.StartAutoRenew` | pkg/redis/lock.go:294-317 | the registry's new state and the ticking interval |
| `RedisLock.RedisLock.ReleaseScript` | pkg/redis/lock.go:167-188 | success exactly for the live holder, whose lease alone goes, and a stop request to send only then |
| `RedisLock.RedisLock.Release` | pkg/redis/lock.go:167-202 | the script and the request, with nothing in between |
| `RedisLock.RedisLock.Refresh` | pkg/redis/lock.go:205-252 | success exactly for the live holder, who then has the timeout cut to whole milliseconds; no lock of another key touched |
| `RedisLock.RedisLock.RenewalTick` | pkg/redis/lock.go:320-334 | a renewer goes on unless its refresh is refused, and then has its key to ask for |
| `RedisLock.RedisLock.HandleStop` | pkg/redis/lock.go:352-361 | one request stops the renewer the table has for the key |
| `CumulativeScan.HitsAreWeights` | pkg/protocol/router.go:145-151 | of the targets below the total exactly Weight reach each index |
| `CumulativeScan.ScanBrackets` | pkg/protocol/router.go:145-151 | the index reached is the one whose running total passes the target first |
| `CumulativeScan.ScanFinds` | pkg/protocol/router.go:145-155 | a target below the total never reaches the fallback |
| `CumulativeScan.Fairness` | pkg/protocol/router.go:109-155 | over any stretch of choices from any counter value each index gets its share, exactly after whole rounds |
| `LoadBalancers.AvailableTimes` | pkg/protocol/router.go:77-131 | every instance that is up is a candidate, as often as it is listed, and no other is |
| `LoadBalancers.AvailableInOrder` | pkg/protocol/router.go:77-131 | the candidates are in the order of the instances |
| `LoadBalancers.WeightedLoadBalancer.SelectInstance` | pkg/protocol/router.go:109-155 | the selected instance, one that is up whenever there is one, and the service's counter one higher |
| `LoadBalancers.WeightedFairness` | pkg/protocol/router.go:109-155 | W consecutive selections from any counter value pick each up instance exactly Weight times |
| `LoadBalancers.FairnessIff` | pkg/protocol/router.go:109-155 | with a positive total the instances whose weight is not negative all get their weight in a round, if and only if no weight is negative |
| `LoadBalancers.ZeroWeightsTakeTurns` | pkg/protocol/router.go:133-139 | a zero total makes the weighted balancer take turns |
| `LoadBalancers.RoundRobinLoadBalancer.SelectInstance` | pkg/protocol/router.go:65-93 | the selected instance, one that is up whenever there is one, and the service's counter one higher |
| `LoadBalancers.RoundRobinSelector.Select` | pkg/rpc/load_balancer.go:122-134 | the selected instance and the advanced index |
| `LoadBalancers.RoundRobinEven` | pkg/protocol/router.go:65-93 | over any stretch no candidate is more than one turn ahead, and a round visits each once |
| `LoadBalancers.TurnsGoRound` | pkg/protocol/router.go:88-92 | turns begin with the first candidate and go round in order |
| `BalancedCalls.FairCallsIff` | pkg/protocol/router.go:109-155 | for any list and counters: as many calls as the weights of the instances that are up add up to select each of them that has a weight exactly that often, if and only if none that is up has a negative one |
| `BalancedCalls.RoundVisitsEach` | pkg/protocol/router.go:65-155 | as many calls as instances are up select each of them once, by turns or with weights that add up to zero |
| `LoadBalancers.WeightedSelect` | pkg/rpc/load_balancer.go:139-172 | the selected index is the first whose running effective weight exceeds the draw, never the fallback |
| `LoadBalancers.DrawShare` | pkg/rpc/load_balancer.go:139-172 | exactly max(1, weight) draws of all below the total select an instance |
| `Bytes.ValueOfBigEndian` | pkg/rpc/protocol.go:24-50 | reading a big-endian number gives back what was written |
| `Bytes.ValueConcat` | pkg/rpc/protocol.go:24-50 | numbers are read from the most significant byte on |
| `Bytes.FieldLayout` | pkg/rpc/protocol.go:24-50 | a field is its length followed by its bytes |
| `Bytes.DecodeEncodedFields` | pkg/rpc/protocol.go:53-86 | reading length-prefixed fields gives back what was written, whatever follows |
| `RpcProtocol.RoundTrip` | pkg/rpc/protocol.go:24-170 | Unmarshal inverts Marshal for all fields under 4 GiB, also with bytes following |
| `RpcProtocol.RoundTripIff` | pkg/rpc/protocol.go:24-170 | a packet comes back if and only if every field is under 4 GiB |
| `RpcProtocol.ParsedReencodes` | pkg/rpc/protocol.go:53-170 | whatever Unmarshal accepts, its Marshal is a prefix of the input |
| `RpcProtocol.AcceptedIff` | pkg/rpc/protocol.go:53-170 | data is accepted exactly when it starts with the wire form of a packet |
| `RpcProtocol.PrefixFree` | pkg/rpc/protocol.go:24-122 | no packet's wire form begins another's with as many fields |
| `RpcProtocol.WireVectors` | pkg/rpc/protocol.go:24-122 | a small request and a small response byte by byte |
| `RpcProtocol.ProtocolRPCRequest.MarshalBinary` | pkg/rpc/protocol.go:24-50 | the buffer filled at a moving offset is number, service method and arguments |
| `RpcProtocol.ProtocolRPCRequest.UnmarshalBinary` | pkg/rpc/protocol.go:53-86 | the fields set are those of the packet read, with each error case, in bounds for every input |
| `RpcProtocol.ProtocolRPCResponse.MarshalBinary` | pkg/rpc/protocol.go:89-122 | the same for number, service method, error and reply |
| `RpcProtocol.ProtocolRPCResponse.UnmarshalBinary` | pkg/rpc/protocol.go:125-170 | the same for responses |
| `InternalMessage.EncodeIff` | pkg/protocol/message.go:108-121 | a message is written if and only if header and payload fit into 10 MiB and both service names into 32 bytes, and which error it is otherwise |
| `InternalMessage.HeaderLayout` | pkg/protocol/message.go:143-151 | where each fixed field is in the bytes written |
| `InternalMessage.NamesLayout` | pkg/protocol/message.go:153-179 | behind the header come source, destination, correlation and session, each after its length, and the payload |
| `InternalMessage.DecodeOfEncode` | pkg/protocol/message.go:108-266 | for either header size exactly what Decode makes of every message Encode accepts |
| `InternalMessage.RoundTripIff` | pkg/protocol/message.go:50-266 | when a message comes back unchanged: at 22 bytes whenever ids fit 16 bits and the length is right, at 20 only if the source name is as long as the payload modulo 65536 |
| `InternalMessage.PayloadFate` | pkg/protocol/message.go:143-160 | at 20 bytes the payload is intact, cut short or refused exactly as the source name's length equals, is below or exceeds the payload's modulo 65536 |
| `InternalMessage.LostPayload` | pkg/protocol/message.go:143-160 | a message that loses its payload |
| `InternalMessage.EncodeOfDecode` | pkg/protocol/message.go:108-266 | what Decode accepts and Encode can write is written as it was read |
| `InternalMessage.DecodeWithin` | pkg/protocol/message.go:182-208 | spare capacity changes only what happens to 20 or 21 bytes: refused and not a panic |
| `InternalMessage.Encode` | pkg/protocol/message.go:108-179 | the buffer filled at a moving offset, overlap included, and each size error |
| `InternalMessage.Decode` | pkg/protocol/message.go:182-266 | the message read at a moving offset, and each error, for every capacity of the slice |
| `ProtocolConverter.FromInternalBinary` | pkg/protocol/converter.go:503-512 | the buffer filled is flags, types and payload |
| `ProtocolConverter.FrameRoundTrip` | pkg/protocol/converter.go:246-268 | both directions of the binary conversion are inverse, and exactly frames of five bytes or more are accepted |
| `ProtocolConverter.FrameLayout` | pkg/protocol/converter.go:246-268 | which message five given bytes and a payload are read as |
| `ProtocolConverter.ForwardedFrame` | pkg/protocol/converter.go:369-386 | a client frame passed on in the internal format arrives cut to a multiple of 65536 payload bytes at header size 20, and whole at 22 |
| `ProtocolConverter.Alphabet` | pkg/protocol/converter.go:618-625 | the symbols are table 1 of RFC 4648 in order |
| `ProtocolConverter.Base64Vectors` | pkg/protocol/converter.go:618-625 | two test vectors of section 10 of RFC 4648 |
| `ProtocolConverter.Base64RoundTrip` | pkg/protocol/converter.go:618-625 | base64 with padding (section 4 of RFC 4648) decodes to what was encoded |
| `ProtocolConverter.TextRoundTrip` | pkg/protocol/converter.go:464-625 | parsing the printed "S:M:base64" gives back both types and the payload, for all 16-bit types and payloads |
| `ProtocolConverter.PrintedMessage` | pkg/protocol/converter.go:618-625 | a whole message in the text form |
| `ProtocolConverter.TextDistinguishes` | pkg/protocol/converter.go:618-625 | two messages print alike exactly when types and payload agree |
| `PendingCalls.StepKeeps` | pkg/rpc/client_standalone.go:127-250 | every step keeps: numbers unique, pending calls untouched, one carrier per call with its own reply and an empty channel |
| `PendingCalls.Correlation` | pkg/rpc/client_standalone.go:127-250 | in every interleaving a call returns only the reply with its number, is sent at most one, which always finds room, Done is closed at most once, and its number is not pending once it has returned |
| `PendingCalls.ReceivedArrives` | pkg/rpc/client_standalone.go:127-243 | in every run after the lookup in which the call does not give up, the reply is with its courier, for whom the channel has room, or in the channel, from which the call returns exactly it, or returned |
| `PendingCalls.SpentForGood` | pkg/rpc/client_standalone.go:135-146 | a number never becomes pending again, so a second reply to it changes nothing |
| `PendingCalls.SimpleClient.Open` | pkg/rpc/client_standalone.go:167-181 | a call under a fresh number is pending |
| `PendingCalls.SimpleClient.ProcessResponse` | pkg/rpc/client_standalone.go:127-164 | the reply goes to the pending call with its number and closes it once, any other reply changes nothing |

## Left out

- pkg/gateway, pkg/network: sockets, TLS, WebSocket and QUIC sessions.
- pkg/security/crypto.go: library calls that cannot be seen.
- pkg/rpc/conn_manager.go, grpc_client.go, grpc_server.go and rpc.go: they rest on gRPC and reflection.
- pkg/redis/pubsub.go, pkg/redis/cache.go and both connection_pool.go: thin wrappers over client libraries.
- The JSON and Protobuf forms of pkg/protocol/converter.go, and its processors and registries.
- SQL text, row scanning and number conversion in pkg/db/cache_sync.go: a row is one opaque value. An UPDATE of a row that does not exist creates it in the model and does nothing in SQL.
- GetMulti of pkg/db/cache_sync.go.
- Close and WaitForCompletion of pkg/db/async.go, the cache synchroniser's Close and its flush loop.
- An operation queue of size zero: a send to an unbuffered channel succeeds only when a worker is waiting, the model loses it.
- The moment between a send to the operation queue and its counter's increment: both are one step.
- float32 rounding, counter overflow, clocks, logging and averaged statistics.
- Acquire's waiting loop and IsLocked of pkg/redis/lock.go, whose answers follow from `Taken` and `Live`.
- The limit of 100 waiting stop requests of pkg/redis/lock.go: the model's queue is unbounded.
- `RedisLock.RedisLock.TryAcquire`: demands that the timeout in use, its own or the default, is above zero; otherwise a lease would not expire.
- `RedisLock.RedisLock.Refresh`: demands the same.
- proto_define, pkg/metrics, pkg/config, cmd, tools, examples, scripts and docs.
- `AoiManager.AOIManager.constructor`: demands a cell count that is not negative, where the source panics.
- `AoiManager.AOIManager.UpdateEntity`: one uninterrupted call; its sections interleaved are in `PlayerMoves`.
- `PlayerState.PlayerStateManager.UpdatePlayerPosition`: one uninterrupted call; its sections interleaved are in `PlayerMoves`. The subscribers' callbacks, and the errors they return, are not modelled.
- `PlayerState.RunConsistent`: runs of whole calls; interleavings are in `PlayerMoves.InterleavedConsistent`.
- In `PlayerMoves`, UnregisterPlayer is one step, although it reads the position and locks the cell one after the other under the manager's lock: between the two only moves of the same player matter.
- In `CacheRace`, Get's look at the dirty table and its query are one step, writes are deferred ones, and flushes do not show, as `WriteBack.RunAgrees` has it for patient writers.
- `RedisLock.RedisLock.Release`: one uninterrupted call; its two halves are steps of `RenewerRegistry`.
- `FlushBatches.Split`: demands BatchSize of at least 1; the source divides by zero for 0, and for less panics on a type with one entry and flushes no other.
- `LoadBalancers.WeightedSelect`: the random source is a parameter that answers below its argument.
