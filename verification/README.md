# FreakV, verified

A Dafny model of the hard parts of FreakV, a sharded in-memory key-value store, and proofs about
it. `dafny verify dfyconfig.toml` checks all of it.

* **The asynchronous MSET protocol** (`Txn`, `KeyCell`, `Mset*`). Two-phase commit across shards
  with per-key locks, wound-wait preemption, sorted wait queues, early commit and shared `ack` and
  `fin_ack` counters. `KeyCell` is what one shard keeps about one key; `MsetCore` puts the keys
  together; `MsetEngine` adds FIFO channels, PREPARE loops, FIN tasks, admission and replies, every
  handler as steps that interleave. `MsetRequests` ties the MSETs to the requests that clients issued.
  `MsetTheorems` has the results over all runs: one serial order, the commit point, exact counters,
  no deadlock, and the tables at rest equal to a serial execution of the requests in commit order.
  `MsetLiveness` proves that every schedule does come to rest, with every request answered once;
  `MsetReplies` that every reply to a read is up to date; `MsetObjects` has no dirty reads, exact
  lock bits and an account of every object; `MsetReads` an account of every read.
* **Structures that must behave like simple ones.** The chained hash table with in-place
  incremental doubling (`HashTable`, `HashTableOps`, `HashTableCrowd`), the open-addressed lock table
  with tombstones (`LockTable`), the wait queue as a linked list and as groups (`WaitList`,
  `WaitQueue`), also against the model of a key that the MSET protocol uses (`WaitDrain`), the
  indexed TTL heap and the shard operations that keep it in step with the table (`TtlIndex`,
  `ShardTtl`), which give the same answers on the hash table (`ShardTable`).
* **The SPSC queue and its wake-up handshake** (`Spsc`, `Wake`), each access to shared memory a step
  of its own, and the two together (`Mail`).
* **Two buddy allocators** on shared geometry and index-linked lists (`BuddyMath`, `BuddyBlocks`,
  `IndexLists`, `BuddyCore`): one that merges lazily and hands out spans of any length
  (`LazyBuddy`), one that merges eagerly (`EagerBuddy`), in chunks (`SlabArena`) with page descriptors
  (`SlabPages`) under size-class pools and large allocations (`Slab`, `SlabOps`).
* **The resumable RESP2 parser** (`Resp`, `RespParser`, `RespConnection`) with the memory it asks the
  allocator for (`RespMemory`): what it makes of one command (`RespCommand`), of any list of commands
  however it is cut into reads (`RespFlow`, `RespTheorems`, `RespCuts`), of commands, inline pings and
  blank lines mixed (`RespInline`) and of any bytes at all (`RespSafety`).
* **Snapshot compaction** (`Compaction`).

Concurrent protocols are transition systems whose every run is covered. Sequential code that
changes state is a class or a loop proved against functions of the values involved.

## What does not hold

Where a property fails for the code as it is, the code was kept, a lemma or method builds a failing
case, and the condition under which the property holds is proved.

* A rehash tick drops the primary entry of a bucket when its new bucket is occupied and no overflow
  slot can be had (`HashTableCrowd.TickMayForget`), and in no other case
  (`HashTableOps.Table.MigrateNext`, and for whole ticks `HashTableOps.Table.Tick`).
* An MSET that names a new key again loses the bucket's lock bit, or leaves the table with an object
  that nobody owns (`KeyCellLaws.PrepareExposes`), and a read can then show an uncommitted value
  (`MsetDirtyRead.RepeatedNewKeyIsReadDirty`). Every other PREPARE keeps the lock exact
  (`KeyCellLaws.PrepareLocked`), and without such a step no read of the key is dirty
  (`MsetObjects.NoDirtyReads`); loaded keys and keys that no MSET names twice never see one
  (`MsetObjects.OrdinaryKeysAreSafe`).
* A waiting MSET command may point at a destroyed object until it is promoted
  (`KeyCellLaws.ThirdMsetDangles`, and `KeyCellLaws.WaiterMayDangle` in general); no object in
  use has been destroyed (`MsetObjects.NothingInUseIsDestroyed`).
* Reopening wait groups can invert arrival order (`WaitQueue.ReopenMayReorder`), if and only if the
  reopened group is the later one (`WaitQueue.MergeKeepsOrder`); nothing calls that operation at
  present.
* The parser does not reproduce every list of commands. It does so if and only if every command has
  between 1 and 2^24 arguments and the read buffer is replaced at most 15 times
  (`RespTheorems.HandsOutExactly`); `RespFlow.Moves` counts that from the lengths of commands and
  reads alone.
  * An empty array `*0` stops the parser for good, and an argument behind one finds no array if no
    command before it had arguments (`RespSafety.ZeroCountFaults`).
  * A header with a count above 2^24 closes the connection; above 2^30, as in the 13 bytes
    `*1073741825\r\n`, the doubling of the argument array overflows to zero and never ends
    (`RespSafety.LargeCountFails`, `RespMemory.DoublingEnds`).
  * The buffer starts over only when the socket is drained where a command ends. A stream of small
    commands whose drains all end inside a command doubles it each time it fills, and after 2^28
    bytes the connection is closed; the same bytes cut at command ends are handed out
    (`RespCuts.CutDecides`, `RespFlow.LagOverflows`). Inline pings never let it start over: a
    connection without any request is closed before 2^28 bytes (`RespSafety.NoRequestNoRoom`).
  * A drain inside the word of an inline ping closes the connection (`RespInline.CutPingIsLost`), and
    one inside the line ends behind it is harmless only if the rest of them are blank lines;
    `RespInline.ItemsAreHandedOut` has the exact condition for streams that the first buffer holds.
* A locked key holds back active expiry of everything due after it (`ShardTtl.LockedKeyHoldsBack`);
  `ShardTtl.NothingHeldBack` and `ShardTtl.OneLockHoldsBack` say exactly when nothing is held back.
* EXPIRE drops the lock bit of a locked key (`ShardTtl.ExpireUnlocks`), and a deadline of the largest
  64-bit number reads back as a missing key (`ShardTtl.LargestDeadlineSticks`); the contract of
  `ShardTtl.Shard.Expire` says exactly when it refuses.

Removal from the lock table is documented as backshift deletion (`core/lock_manager.h:110-113`); the
code leaves tombstones, and the model follows the code.

## Model

| member | source | states |
|---|---|---|
| `Txn.OlderIsStrictTotalOrder` | core/txn.h:39-47 | transaction ids are strictly and totally ordered: time stamp, then pipeline slot, then connection |
| `Txn.OlderMeans` | core/txn.h:39-47 | an earlier time stamp has priority; on a tie an earlier pipeline slot, and then a lower connection |
| `Txn.OldestExists` | core/txn.h:39-47 | every non-empty set of transactions has an oldest member, which wound-wait relies on |
| `KeyCell.InsertAt` | core/lock_manager.c:252-289 | where a group enters the sorted wait queue: everything before is older, the group at that place is not |
| `KeyCellLaws.PrepareRoles` | core/mset_exec.c:652-944 | who holds and who waits after PREPARE of one key, for each of its five outcomes, for every transaction |
| `KeyCellLaws.PrepareShape` | core/mset_exec.c:652-944 | PREPARE keeps the lock entry well formed: sorted queue without duplicates, holder and waiters distinct and not yet installed |
| `KeyCellLaws.PrepareLocked` | core/mset_exec.c:652-944 | PREPARE keeps the lock exact, on new keys, through wounds, and for repeated keys, unless it replaces the tentative object of a new key |
| `KeyCellLaws.PrepareExposes` | core/mset_exec.c:720-771 | and in that case it never does: the lock bit is lost or the table keeps an object that nobody owns |
| `KeyCellLaws.RepeatedKeyLock` | core/mset_exec.c:720-737 | naming a key twice in one MSET keeps the bucket locked if and only if the key existed before; on a new key the uncommitted value becomes readable |
| `KeyCellLaws.FinishRoles` | core/mset_exec.c:391-483 | FIN installs the holder's value and promotes exactly the first closed group, for every transaction |
| `KeyCellLaws.FinishShape` | core/mset_exec.c:391-483 | FIN keeps the lock entry well formed |
| `KeyCellLaws.FinishLocked` | core/mset_exec.c:391-483 | FIN leaves the lock bit exact, with a waiter promoted or not |
| `KeyCellLaws.FinishDestroys` | core/mset_exec.c:402-476 | FIN destroys the value it supersedes, if there is one, and nothing else |
| `KeyCellLaws.ReadIsStable` | core/mset_exec.c:1339-1386 | where the lock is exact, a key that passes the lock check has no lock entry, and the table shows the value last installed by FIN |
| `KeyCellLaws.DeferKeeps` | core/mset_exec.c:1339-1386 | deferring a read changes no holder, no waiter and no object |
| `KeyCellLaws.WaiterMayDangle` | core/mset_exec.c:300-306 | a waiting command's own old-object pointer may name a destroyed object until the command is promoted |
| `KeyCellLaws.ThirdMsetDangles` | core/mset_exec.c:300-306 | three MSETs on a loaded key of which the first finishes: such a pointer arises |
| `MsetCoreLaws.CommittedHoldsAll` | core/mset_exec.c:177-202 | an MSET at `ack == total` holds or has finished every one of its keys |
| `MsetCoreLaws.HolderAcked` | core/mset_exec.c:836-882 | a holder has at least one acknowledged pair, so taking an acknowledgement back from a wounded holder never underflows |
| `MsetCoreLaws.QueuedIsYounger` | core/mset_exec.c:836-944 | a command that is made to wait is younger than the holder, unless the holder has committed |
| `MsetCoreLaws.PrepareKeeps` | core/mset_exec.c:652-944 | PREPARE of one key keeps the whole protocol invariant: sound and complete commands, exact `ack`, wait order, commit log, install order |
| `MsetCoreLaws.FinishKeeps` | core/mset_exec.c:391-483 | FIN of one key keeps the whole protocol invariant, promotion of a waiter included |
| `MsetCoreLaws.BeginKeeps` | core/mset_exec.c:1124-1254 | dispatching an MSET keeps the protocol invariant |
| `MsetCoreLaws.ReadKeeps` | core/mset_exec.c:1339-1386 | a read, answered or deferred, keeps the protocol invariant |
| `MsetValues.PrepareValues` | core/mset_exec.c:652-944 | each pending command carries the value of the last pair prepared for its key, duplicate keys included |
| `MsetValues.FinishValues` | core/mset_exec.c:391-483 | what FIN installs is the value of the last pair that names the key |
| `MsetLine.LineDispatch` | core/mset_exec.c:1208-1248 | a dispatched MSET goes behind everything its connection dispatched before, on every shard |
| `MsetLine.LineDeliver` | core/mset_exec.c:1268-1284 | PREPARE batches are taken up per shard in the order in which their coordinator sent them |
| `MsetTasks.TaskReady` | core/mset_exec.c:177-202 | the acknowledgement that completes an MSET starts FIN at the coordinator, directly or by message |
| `MsetTasks.TaskSendFin` | core/mset_exec.c:225-243 | FIN goes to every shard that still has unfinished keys of the MSET |
| `MsetTasks.TaskEnd` | core/mset_exec.c:500-596 | a FIN run ends only when no key of the MSET is left on its shard |
| `MsetFin.FinClose` | core/mset_exec.c:551-570 | the shard's count of finished pairs moves to `fin_ack` without loss or double counting |
| `MsetFin.OkClose` | core/mset_exec.c:551-570 | exactly the shard that completes `fin_ack` replies, or sends the one FIN_ACK |
| `MsetFin.OpenIsIncomplete` | core/mset_exec.c:551-570 | as long as a shard has pairs to report, `fin_ack` is below the total |
| `MsetFin.CompleteMeansInstalled` | core/mset_exec.c:551-570 | `fin_ack == total` implies that every pair is installed |
| `MsetAdmission.AdmBegin` | core/mset_exec.c:1134-1150 | admission keeps `mset_inflight` equal to the live coordinated MSETs and within the limit |
| `MsetAdmission.AdmReply` | core/mset_exec.c:39-56 | the +OK gives the admission back |
| `MsetAdmission.AdmResume` | core/mset_exec.c:1053-1111 | a parked request is admissible when its turn comes |
| `MsetInvariant.StepKeeps` | core/mset_exec.c:177-1386 | every event of the engine keeps the full invariant: dispatch, PREPARE, batches, ACK, early commit, FIN, FIN_ACK, admission, reads |
| `MsetInvariant.RunKeeps` | core/mset_exec.c:177-1386 | the full invariant holds in every state of every run |
| `MsetProgress.QuietCommitted` | core/mset_exec.c:836-944 | in an engine without pending work every MSET has committed: the oldest waits for nobody |
| `MsetProgress.QuietIsDone` | core/mset_exec.c:500-642 | in an engine without pending work every MSET has been answered once and holds no lock |
| `MsetProgress.DeadlockFree` | core/mset_exec.c:836-944 | a state with an unanswered or parked MSET has an enabled step of the engine's own |
| `MsetTheorems.CommitIsFinal` | core/mset_exec.c:177-202 | `ack == total` is never undone, in any run |
| `MsetTheorems.CommitPoint` | core/mset_exec.c:598-607 | when `ack` reaches the total the MSET holds all its keys on all shards at once, and each until its own FIN; nothing of it is installed before |
| `MsetTheorems.SerialOrder` | core/mset_exec.c:391-483 | two MSETs that wrote the same two keys were installed in the same order on both, in any run |
| `MsetTheorems.CountersAreExact` | core/mset_exec.c:551-570 | `ack` is prepared pairs less waiting commands, `fin_ack` adds up to the total, at most one +OK and only then, `mset_inflight` exact and bounded; duplicate keys included |
| `MsetTheorems.NeverStuck` | core/mset_exec.c:836-944 | no reachable state with unfinished work is stuck |
| `MsetTheorems.SerialPrefix` | core/mset_exec.c:391-483 | a key that FIN of the first n commits has reached holds what executing the requests of these commits, with the pairs their clients sent, makes of the loaded data |
| `MsetTheorems.RestIsSerial` | core/mset_exec.c:391-483 | at rest every key is unlocked and shows what executing the requests that clients issued, in commit order, makes of the loaded data; every request that is not parked is in the log once, and nothing else |
| `MsetTheorems.UnlockedIsSerial` | core/mset_exec.c:391-483 | at any moment an unlocked key shows the serial result of all requests committed so far |
| `MsetRequests.MsetsAreRequests` | core/mset_exec.c:1124-1254 | in every run each MSET has the pairs of the request that brought it, computed from the events alone; no request is dispatched twice, and each is dispatched or parked; loaded values are never replaced |
| `MsetRequests.ParkedInLine` | core/mset_exec.c:1003-1095 | parked requests are taken up in the order in which they were parked |
| `MsetRequests.MsetsAreStamped` | core/mset_exec.c:1124-1254 | an MSET carries the time stamp of the step that dispatched it |
| `MsetReplies.ReadShowsStable` | core/mset_exec.c:1339-1386 | where the lock is exact, a read of a key with a lock entry joins the open group of its shard and gets no reply yet; any other is answered at once with the value last installed by FIN |
| `MsetReplies.RepliesAreFresh` | core/mset_exec.c:1330-1386 | every reply to a read, at once or drained by FIN, shows what executing exactly the requests committed at that moment makes of the loaded data, unless an MSET has named the key again while it was new |
| `MsetReplies.EveryReplyIsFresh` | core/mset_exec.c:1330-1386 | so every reply of a run was right at the moment it was given |
| `MsetReplies.FinishIsFresh` | core/mset_exec.c:278-373 | reads drained by FIN see the value just installed, which is the serial result of all commits |
| `MsetReplies.AnsweredIsVisible` | core/mset_exec.c:177-202 | an MSET that has got its +OK is among the commits that every later read sees |
| `MsetLiveness.StepLowers` | core/mset_exec.c:177-1386 | every step of the engine itself lowers a rank: parked requests, pairs to prepare, keys to finish, FIN runs and messages under way; a wound creates no new work |
| `MsetLiveness.EveryMsetIsAnswered` | core/mset_exec.c:255-268 | if no more requests arrive, every schedule comes to rest after finitely many steps, with exactly one +OK for every request that a client issued, and the tables holding what executing exactly these requests, in commit order, makes of the loaded data |
| `MsetObjects.NoDirtyReads` | core/mset_exec.c:1339-1386 | in any run every reply to a read, immediate or drained, is the loaded value or the value of a committed MSET, if no PREPARE so far has replaced the tentative object of the key while it was new |
| `MsetObjects.ObjectsAreAccountedFor` | core/mset_exec.c:391-483 | under the same condition the lock bit is exact, and an object has been destroyed exactly once if a later FIN superseded it or a later pair of its MSET replaced it, and never otherwise; duplicate keys included |
| `MsetObjects.NothingInUseIsDestroyed` | core/mset_exec.c:409-437 | under the same condition no object that is in the table, is the stable value, or belongs to a pending command has been destroyed |
| `MsetObjects.OrdinaryKeysAreSafe` | core/mset_exec.c:652-944 | the condition holds in any run for every key that was loaded and every key that no MSET names twice |
| `MsetObjects.PrepareDestroys` | core/mset_exec.c:718-771 | PREPARE destroys only the object of the pair that a repeated key replaces |
| `MsetReads.ReadsAreAccountedFor` | core/mset_exec.c:1339-1386 | in any run every read that was issued is answered, deferred behind the lock or under way, exactly as often as it was issued |
| `MsetReads.RestAnswersReads` | core/mset_exec.c:279-389 | at rest every read has been answered exactly once for each time it was issued |
| `MsetReads.FinishHolds` | core/mset_exec.c:279-389 | FIN answers exactly the deferred reads it no longer holds |
| `MsetDirtyRead.RepeatedNewKeyIsReadDirty` | core/mset_exec.c:720-737 | for every MSET that names a new key twice and has a key on another shard there is a run in which a GET is answered with a value of that MSET while it has not committed |
| `WaitList.SplitIsInsertAt` | core/lock_manager.c:252-289 | the position found on the linked list is the position of the value-level queue |
| `WaitList.PositionIsInsertAt` | core/lock_manager.c:252-289 | and so is the position that groups of commands use |
| `WaitList.Queue.InsertSorted` | core/lock_manager.c:252-289 | sorted insertion with the tail shortcut keeps a well-formed doubly linked list and its order |
| `WaitList.Queue.Detach` | core/lock_manager.c:291-304 | detaching keeps the list well formed and sorted and removes exactly that node |
| `WaitQueue.Entry.AddRegular` | core/lock_manager.c:308-334 | a regular command goes to the end of its shard's open group and no other; nothing else changes |
| `WaitQueue.Entry.AddMset` | core/lock_manager.c:338-371 | an MSET closes its shard's open group and enters the sorted queue; no command is lost or duplicated |
| `WaitQueue.Entry.FindTxn` | core/lock_manager.c:375-413 | a closed group of the transaction is found if and only if one of its MSETs waits |
| `WaitQueue.Entry.RemoveQueuedRegular` | core/lock_manager.c:417-437 | taking a regular command out of a closed group removes exactly that command |
| `WaitQueue.Entry.RemoveAnchor` | core/lock_manager.c:453-478 | taking the MSET out reopens the group in front of its shard's open group; exactly that MSET is gone |
| `WaitQueue.Entry.RemoveOpen` | core/lock_manager.c:438-451 | taking a command out of an open group removes exactly that command |
| `WaitQueue.MergeKeepsOrder` | core/lock_manager.c:467-476 | the merge keeps arrival order if and only if the reopened group is the earlier one |
| `WaitQueue.ReopenMayReorder` | core/lock_manager.c:453-478 | when the MSETs of two groups leave, the earlier first, the later read is put in front of the earlier one |
| `WaitQueue.AddTwoPairs` | core/lock_manager.c:308-371 | two reads and two MSETs that arrive lead to such groups |
| `WaitQueue.NoSuchMset` | core/lock_manager.c:375-413 | the anchors of closed groups are the only MSETs waiting |
| `WaitDrain.Enqueue` | core/mset_exec.c:930-942 | PREPARE that waits, and a wounded holder: the command joins the wait queue where the model of the key puts it |
| `WaitDrain.Defer` | core/mset_exec.c:1384 | a deferred read joins the open group that the model of the key names |
| `WaitDrain.Drain` | core/mset_exec.c:278-373 | the drain of FIN answers exactly the reads, and promotes exactly the command, that the model of the key does, and leaves the rest waiting |
| `LockTable.Table.FindSlot` | core/lock_manager.c:42-66 | the probe loop finds an object exactly when the table holds it, through tombstones |
| `LockTable.Table.Lookup` | core/lock_manager.c:159-166 | lookup agrees with the map |
| `LockTable.Table.ProbeInsert` | core/lock_manager.c:181-216 | insertion finds the existing entry, or the first tombstone of the probe sequence, or without one its first never-used slot |
| `LockTable.Table.Insert` | core/lock_manager.c:170-216 | below the occupancy limit a new key always finds a slot; counters stay exact |
| `LockTable.Table.Remove` | core/lock_manager.c:231-248 | removal leaves a tombstone, all others stay reachable; the last removal wipes the tombstones |
| `LockTable.Table.UpdatePtr` | core/lock_manager.c:220-227 | retargeting an entry to another object of the same key keeps it reachable |
| `LockTable.InsertRefines` | core/lock_manager.c:76-99 | filling a slot that is not live keeps every entry reachable along its probe sequence |
| `LockTable.HashBits` | core/lock_manager.c:15-21 | control byte and first group agree for two hashes if and only if their low nineteen bits do |
| `LockTable.TombstonePassed` | core/lock_manager.c:181-216 | if no never-used slot ends the probe sequence of a table below its limit, a tombstone was passed |
| `HashTable.LockBitIsInvisible` | core/lock_manager.h:34-46 | the lock bit changes neither key matching nor bucket placement |
| `HashTable.Pack` | hashtable/htable.h:123-126 | a packed meta word is never the empty mark and never locked |
| `HashTable.DoubledIndex` | hashtable/htable.c:214-234 | doubling sends an entry to the same index or to the one `old_cap` above |
| `HashTable.Alloc` | hashtable/htable.c:25-57 | an overflow slot can be had exactly when the free list or the arena has room; slots are conserved |
| `HashTable.MigrateKeeps` | hashtable/htable.c:214-264 | migrating one bucket keeps the map and every overflow slot, except for the primary entry in the branch where no slot can be had |
| `HashTableOps.FindInChain` | hashtable/htable.c:80-97 | the first node of the chain that matches, or none |
| `HashTableOps.Table.Lookup` | hashtable/htable.c:271-291 | at any stage of a doubling the routing finds a key exactly when the map has it |
| `HashTableOps.Table.MigrateNext` | hashtable/htable.c:214-258 | one bucket is migrated; an entry is forgotten if and only if its new bucket is taken and no overflow slot is left |
| `HashTableOps.Table.Tick` | hashtable/htable.c:214-264 | a tick migrates up to 64 buckets and forgets exactly the primary entries of those that are starved when their turn comes, so nothing if 64 overflow slots can still be had; buckets and pool are those of migrating bucket by bucket; it finishes the doubling on time |
| `HashTableOps.Table.StartRehash` | hashtable/htable.c:202-212 | starting a doubling leaves the map as it is |
| `HashTableOps.Table.Put` | hashtable/htable.c:319-359 | SET, NX and XX as map updates, after a tick that forgets exactly what it dooms and a doubling that starts exactly at the load limit; what is refused, replaced, inserted or out of memory, and where an inserted entry goes, at any stage of a doubling |
| `HashTableCrowd.TickMayForget` | hashtable/htable.c:232-241 | where the next bucket is starved, setting any other key takes out a key that was there |
| `HashTableCrowd.Crowd` | hashtable/htable.c:319-359 | twenty-one SETs on a new table, nothing deleted, lead to such a table |
| `HashTableOps.Table.Get` | hashtable/htable.c:361-371 | GET finds nothing if the key is missing or its deadline has been reached, and the object otherwise; an expired entry stays |
| `HashTableOps.Table.GetLazy` | hashtable/htable.c:373-391 | the lazy GET removes an entry whose deadline has been reached, unless it is locked, and nothing else; any entry that stays is returned |
| `HashTableOps.Table.SetLockStatus` | hashtable/htable.c:393-404 | setting a lock bit changes nothing but that bit |
| `HashTableOps.Table.LockStatus` | hashtable/htable.c:406-413 | reads the lock bit of a present key |
| `HashTableOps.Table.Take` | hashtable/htable.c:415-425 | takes the key out of the map and returns its object |
| `HashTableOps.Table.TakeIfUnlocked` | hashtable/htable.c:427-449 | takes the key only if it still holds the expected object and is not locked |
| `HashTableOps.Table.Unlink` | hashtable/htable.c:296-314 | unlinking keeps the map and returns the overflow slot |
| `ShardTable.Get` | core/shard.c:279-289 | GET on the hash table and GET on the map of the shard, whose expiry is written separately, give the same answer and remove the same key |
| `ShardTable.Set` | core/shard.c:218-274 | SET stores on both or on neither, unless the table forgets keys on the way |
| `ShardTable.Delete` | core/shard.c:291-297 | DEL removes the key from both |
| `ShardTable.SetLock` | hashtable/htable.c:393-404 | the lock bit is set on both |
| `Spsc.StepKeeps` | core/spsc.h:81-123 | every sub-step of push and pop keeps the ring invariant |
| `Spsc.PoppedIsPrefix` | core/spsc.h:81-123 | in every interleaving popped messages are the first published ones, in order |
| `Spsc.PoppedWasSent` | core/spsc.h:81-123 | what is popped is what the events sent, in order; a push without memory takes back its own message alone, every other one is published or under way |
| `Spsc.NeitherSideWaits` | core/spsc.h:81-123 | a push or pop under way can always take a step, and ends after at most six |
| `Spsc.EmptyMeansDrained` | core/spsc.h:106-111 | a pop finds nothing exactly when everything pushed has been popped |
| `Spsc.NeverOverwrites` | core/spsc.h:85-102 | the producer never writes over an unread message and never enters a segment that has one, even with a stale view of the consumer |
| `Spsc.ExpandKeeps` | core/spsc.h:88-97 | splicing in a segment keeps the ring and all unread messages |
| `Spsc.AdvanceKeeps` | core/spsc.h:113-118 | publishing the consumer's segment frees exactly the one it left |
| `Wake.StepKeeps` | core/shard.c:702-779 | every step of senders and receiver keeps the handshake invariant |
| `Wake.NoLostWakeup` | core/shard.c:28-55 | a non-empty queue that the receiver has left has a wake-up pending or owed by its sender |
| `Wake.OwedWakeupIsPaid` | core/shard.c:28-55 | an owed wake-up is paid by the sender alone in at most two steps |
| `Wake.EveryMessageIsRead` | core/shard.c:28-55 | once senders stop publishing, every schedule of senders and receiver ends with all messages read and the receiver asleep |
| `Mail.StepKeeps` | core/spsc.h:81-138 | queues and handshake together, every step of a push, a pop and the handshake interleaved: the handshake counts exactly the messages pushed and not popped |
| `Mail.EveryMessageArrives` | core/shard.c:28-55 | once senders stop publishing, every schedule ends with the receiver asleep and exactly the messages that were sent to each queue popped, in order, but for a push still under way |
| `BuddyMath.BuddyHalves` | mem/mem_buddy.h:226-231 | a block and its buddy are the two halves of the next larger block |
| `BuddyMath.CeilLog` | mem/mem_buddy.h:125-129 | the smallest order whose block has at least n pages |
| `BuddyMath.ShiftDivides` | mem/mem_buddy.h:208-229 | shifting by an order divides by the block size, and aligned means divisible |
| `BuddyBlocks.BuddyTest` | mem/mem_buddy.h:226-229 | if the first page of a block's buddy is free, it starts a free block of at most that order, so the merge test is exact |
| `BuddyBlocks.RunInBlock` | mem/mem_buddy.h:219-244 | without free buddy pairs below an order, an aligned free run of that order lies inside one block |
| `IndexLists.FreeLists.Push` | mem/mem_buddy.h:149-159 | pushing on an index-linked free list prepends to the sequence and keeps all links |
| `IndexLists.FreeLists.Remove` | mem/mem_buddy.h:131-147 | removing a node keeps all links and removes exactly that node |
| `BuddyCore.PageTable.TakeBlock` | mem/mem_buddy.h:265-285 | takes the first block of the smallest order that has one; exactly its upper halves become blocks; fails only if no list has a block |
| `LazyBuddy.FreeSpan` | mem/mem_buddy.h:190-217 | a freed span of any length becomes aligned blocks that tile exactly its pages, each the largest that fits |
| `LazyBuddy.FastPathIndex` | mem/mem_buddy.h:192-194 | the order that the fast path computes is that of a free list if and only if the span has fewer than 2^21 pages |
| `LazyBuddy.AllocatedFits` | mem/mem_buddy.h:259-266 | every span that was ever allocated is below that bound |
| `LazyBuddy.AllocSpan` | mem/mem_buddy.h:259-298 | exactly n contiguous pages leave the free set, from the front of the smallest block that suffices; halves and the rounding tail are blocks again; fails only if no block is large enough |
| `LazyBuddy.CoalesceOrder` | mem/mem_buddy.h:221-240 | merging one order terminates, leaves no free buddy pair of it, and keeps the free pages |
| `LazyBuddy.Coalesce` | mem/mem_buddy.h:219-244 | merging up to an order keeps the free pages; without success no pairs are left below it |
| `LazyBuddy.CheckSpan` | mem/mem_buddy.h:246-257 | the check says yes if and only if an aligned free run of the rounded size exists, and then allocation succeeds |
| `EagerBuddy.AllocBlock` | memory/slab.c:140-169 | exactly one aligned block of the rounded size leaves the free set, if and only if some aligned run of that size is free; no two free buddies coexist |
| `EagerBuddy.FreeBlock` | memory/slab.c:114-138 | the returned pages are free again and no two free buddies coexist |
| `EagerBuddy.NewChunk` | memory/slab.c:97-112 | a new chunk has all pages free in one block |
| `EagerBuddy.AllFreeIsOneBlock` | memory/slab.c:114-138 | when all pages of a chunk are free the single top-order block is back |
| `EagerBuddy.AllocThenFree` | memory/slab.c:114-169 | allocating and releasing a block restores the set of free pages |
| `Slab.ClassOf` | memory/slab.h:114-120 | the smallest size class that holds the request |
| `Slab.FewestPages` | memory/slab.c:424-428 | no fewer pages would hold a large allocation with its header |
| `Slab.PagesFitCast` | memory/slab.c:427-428 | the page count of a large request survives its cast to 32 bits if and only if the request stays below about 2^44 bytes |
| `Slab.SpanPagesTable` | memory/slab.c:171-189 | pages asked for in each size class, as numbers |
| `Slab.SpareSpansTable` | memory/slab.c:191-199 | unused spans kept in each size class, as numbers |
| `Slab.LiveApart` | memory/slab.c:322-451 | live allocations, small and large, never overlap |
| `Slab.HeadersApart` | memory/slab.c:439-450 | no live allocation overlaps the header of a large one |
| `Slab.TakeKeeps` | memory/slab.c:344-355 | taking a slot keeps the memory invariant |
| `Slab.GiveKeeps` | memory/slab.c:357-366 | giving a slot back keeps the memory invariant |
| `Slab.NewSpanKeeps` | memory/slab.c:287-311 | a new span in unused pages keeps the memory invariant |
| `Slab.DropSpanKeeps` | memory/slab.c:313-320 | releasing a span without live slots leaves nothing behind |
| `SlabOps.Allocator.AllocSmall` | memory/slab.c:322-355 | the first free slot of the first partly used span, else of an unused one, else of a new one from the chunks, and no other span changes; succeeds exactly if one of these can be had; lists stay exact |
| `SlabOps.Allocator.FreeSmall` | memory/slab.c:357-380 | the slot is gone from the live set; the span goes back to its chunk exactly if it was the last slot in use and enough unused spans are kept |
| `SlabOps.Allocator.AllocLarge` | memory/slab.c:424-451 | a large allocation gets a block of its own from the chunks, exactly if one can be had |
| `SlabOps.Allocator.FreeLarge` | memory/slab.c:526-538 | its block goes back to the chunk and its bytes are no longer counted |
| `SlabOps.Allocator.Alloc` | memory/slab.c:416-451 | succeeds exactly if a span has a free slot or the chunks have the pages; charged is the smallest class that holds the request, or the request itself, apart from every live allocation, over the real chunk allocators; `total_allocated` is the sum over live allocations |
| `SlabOps.Allocator.Free` | memory/slab.c:509-538 | release by address alone: the page descriptor leads to the span or to the large header, the allocation is gone, everything else stays; addresses in unused pages are ignored |
| `SlabPages.MaskFindsHead` | memory/slab.c:527 | clearing the low bits of any page of a large block gives its first page |
| `SlabPages.LivePage` | memory/slab.c:514-534 | the descriptor of the page of a live allocation leads to its span or its header |
| `SlabPages.TakenIsFresh` | memory/slab.c:265-285 | a block that the chunks hand out overlaps no span and no large allocation |
| `SlabPages.RegionIsBlock` | memory/slab.c:313-320 | the block of a span or large allocation is one that its chunk takes back: whole, aligned, in range and not free |
| `SlabPages.NewSpanPages` | memory/slab.c:305-310 | a new span keeps the page invariant: every page of every chunk is free or described, and not both |
| `SlabPages.DropSpanPages` | memory/slab.c:313-320 | so does releasing a span |
| `SlabArena.Arena.Take` | memory/slab.c:265-285 | the chunks are tried in order, then a new one; succeeds exactly if an aligned free run of the rounded size exists or a chunk can be made |
| `SlabArena.Arena.Give` | memory/slab.c:114-138 | a block returns to its chunk; no other page changes |
| `Resp.DecimalRoundTrip` | protocol/resp_handler.h:1158-1162 | reading the digits that were written gives the number back |
| `Resp.DecimalIsShort` | protocol/resp_handler.h:107-125 | no leading zeros are written |
| `Resp.U64Dec` | protocol/resp_handler.h:107-125 | writes exactly the decimal digits of a 64-bit number |
| `RespParser.ReadLength` | protocol/resp_handler.h:1156-1165 | the length loop computes the number function |
| `RespParser.MovedIsSame` | protocol/resp_handler.h:40-68 | moving the buffer changes neither the arguments found nor the bytes still to parse |
| `RespCommand.NumberRead` | protocol/resp_handler.h:1156-1165 | a length line is read as soon as its line feed has arrived and never misread before |
| `RespCommand.HeaderTurn` | protocol/resp_handler.h:1148-1172 | the header of a command, whatever comes behind it and wherever the bytes end: not all there, the command in progress, an empty one passed over, or too many arguments |
| `RespCommand.LastTurnEnds` | protocol/resp_handler.h:1194-1248 | a command is handed out exactly when its last argument is complete, with exactly its arguments, and the parser stands behind it |
| `RespInline.ItemsAreHandedOut` | protocol/resp_handler.h:1103-1248 | commands, inline pings in any case and blank lines mixed, however cut, on streams that the first buffer holds: one request for each command and one pong for each ping, in order, if and only if the commands are handled and no drain falls where the parser gives up; a part of them in any case |
| `RespInline.WholeStream` | protocol/resp_handler.h:1103-1248 | so for every such stream that has been read before the socket is drained |
| `RespInline.CutPingIsLost` | protocol/resp_handler.h:1121-1147 | a drain inside the word ping loses it, wherever the cut is |
| `RespInline.OtherBytesClose` | protocol/resp_handler.h:1120-1147 | any first byte but a star, a carriage return or the word ping closes the connection and hands out nothing |
| `RespInline.FirstBytesClose` | protocol/resp_handler.h:1120-1147 | so for the first bytes of a connection |
| `RespTheorems.HandsOutExactly` | protocol/resp_handler.h:1072-1248 | however the bytes of a command list are cut into reads, exactly that list is handed out if and only if every command has between 1 and 2^24 arguments and the buffer is replaced at most 15 times, as the account of `RespFlow.Moves` counts it; otherwise a part of the list, and if the buffer alone is to blame the connection is closed |
| `RespTheorems.DrainFollows` | protocol/resp_handler.h:1103-1248 | the parse loop hands out exactly the commands that are complete, and stands where an account of lengths alone says it stands |
| `RespFlow.LagFills` | protocol/resp_handler.h:35-77 | bytes of drains that never end where a command ends fill one buffer after the other, each twice as large |
| `RespFlow.LagOverflows` | protocol/resp_handler.h:1077-1087 | 2^28 such bytes need a sixteenth move, whatever the commands |
| `RespCuts.CutDecides` | protocol/resp_handler.h:35-88 | any stream of small commands: cut at their ends it is handed out whole, cut inside them the same bytes close the connection |
| `RespCuts.PingsDecide` | protocol/resp_handler.h:35-88 | one such stream, of pings |
| `RespSafety.SessionSafe` | protocol/resp_handler.h:1103-1207 | whatever bytes arrive, every request handed out has between 1 and 2^24 arguments, every argument stored has a place and lies in the buffer; a fault happens only behind a count of zero, before the first request |
| `RespSafety.NoRequestNoRoom` | protocol/resp_handler.h:35-88 | whatever bytes arrive, a connection on which no request has been handed out is closed before it has received 2^28 of them |
| `RespSafety.ZeroCountFaults` | protocol/resp_handler.h:1194-1199 | an argument behind a count of zero finds no array, if no command before it had arguments |
| `RespSafety.LargeCountFails` | protocol/resp.h:42-62 | a header with a count above 2^24 closes the connection, and one above 2^30 never returns |
| `RespMemory.DoublingEnds` | protocol/resp.h:45-47 | doubling a power of two in 32 bits reaches the count if and only if it is at most 2^30 |
| `RespMemory.EnsuredWhen` | protocol/resp.h:42-62 | argument places can be had exactly for up to 2^24 arguments |
| `RespMemory.DoublingLoop` | protocol/resp.h:45-47 | the loop on wrapping integers finds the first power of two that suffices, or comes to zero, where it stays |
| `RespMemory.GrantedUpTo` | memory/slab.c:139-145 | the allocator can grant a request if and only if it fits into a chunk with its header |
| `RespMemory.GrantedIsMet` | memory/slab.c:262-284 | and it then does, as long as another chunk can be made |
| `RespConnection.Connection.Grow` | protocol/resp_handler.h:35-68 | growing doubles the buffer until the bytes fit, moves the command in progress and shifts its argument places; refused exactly when the allocator cannot grant it |
| `RespConnection.Connection.EnsureArgv` | protocol/resp.h:42-62 | room for the arguments of a command: kept, doubled, refused or never decided |
| `RespConnection.Connection.Parse` | protocol/resp_handler.h:1103-1248 | the parse loop computes the drained parser state |
| `RespConnection.Connection.HandleRead` | protocol/resp_handler.h:1072-1248 | the read handler, from the first read to the end of the parse loop, is a session of the parser model |
| `TtlIndex.Index.Push` | core/ttl_index.h:73-90 | push adds the deadline and keeps heap order and back-pointers; it comes to the top only if it is before all others |
| `TtlIndex.Index.Update` | core/ttl_index.h:92-100 | update changes one deadline and keeps heap order and back-pointers |
| `TtlIndex.Index.Remove` | core/ttl_index.h:102-114 | removal drops one deadline and keeps heap order and back-pointers |
| `TtlIndex.Index.Peek` | core/ttl_index.h:116-118 | peek gives the earliest deadline |
| `TtlIndex.Index.Pop` | core/ttl_index.h:123-138 | pop takes an earliest deadline |
| `TtlIndex.SwapUp` | core/ttl_index.h:34-42 | exchanging a node with its larger parent moves the fault up |
| `TtlIndex.SwapDown` | core/ttl_index.h:44-56 | exchanging a node with its smaller child moves the fault down |
| `ShardTtl.Shard.Set` | core/shard.c:218-274 | SET keeps table and index coherent; conditional forms as map updates |
| `ShardTtl.Shard.Get` | core/shard.c:279-289 | GET removes an expired unlocked key from table and index |
| `ShardTtl.Shard.Delete` | core/shard.c:291-297 | DEL keeps table and index coherent |
| `ShardTtl.Shard.Expire` | core/shard.c:309-336 | EXPIRE and PERSIST keep table and index coherent; exactly when they refuse; the lock bit is dropped |
| `ShardTtl.Shard.DrainOne` | core/shard.c:368-387 | one round removes an earliest due unlocked key, puts a locked one back, or stops because nothing is due |
| `ShardTtl.Shard.Drain` | core/shard.c:364-389 | at most as many keys as the limit go, only unlocked ones past their deadline, none later than a locked key that is due, and for every moment before which no due key is locked all that were due before it, if the work limit allows; a single locked key does not hold back keys due at the same moment |
| `ShardTtl.NothingHeldBack` | core/shard.c:364-389 | with enough work no unlocked due key is left if and only if all were due before the first locked one (no unlocked key being due at that very moment) |
| `ShardTtl.OneLockHoldsBack` | core/shard.c:364-389 | with one locked key at the first locked deadline and enough work, no unlocked due key is left if and only if none was due after it, equal deadlines included |
| `ShardTtl.LockedKeyHoldsBack` | core/shard.c:377-381 | a locked key that is due before all others keeps every one of them from expiring, whatever the work limit |
| `ShardTtl.TwoKeys` | core/shard.c:218-274 | two SETs and a lock lead there |
| `ShardTtl.Shard.SetLock` | hashtable/htable.c:393-404 | setting a lock bit changes nothing else |
| `ShardTtl.ExpireUnlocks` | core/shard.c:309-336 | EXPIRE drops the lock bit of a key that was locked |
| `ShardTtl.LockedKey` | core/shard.c:218-274 | a SET and a lock lead there |
| `ShardTtl.LargestDeadlineSticks` | core/shard.c:313-315 | a key with the largest 64-bit deadline reads as missing: EXPIRE and PERSIST refuse and change nothing |
| `ShardTtl.FarKey` | core/shard.c:309-336 | a SET and an EXPIRE lead there |
| `ShardTtl.StoreCoherent` | core/shard.c:218-274 | storing an object and fixing the index accordingly keeps an object in the index with deadline e if and only if its bucket has expire e other than 0 |
| `Compaction.Mark` | core/snapshot.c:538-549 | a slot is new exactly the first time, and always beyond the filter |
| `Compaction.FirstRecordCounts` | core/snapshot.c:955-970 | of the records of a slot, in the order in which a file has them, the first is what the file says of the slot |
| `Compaction.NoRecordNoMeaning` | core/snapshot.c:955-970 | without a record a file says nothing of a slot |
| `Compaction.CompactFile` | core/snapshot.c:611-660 | one pass keeps the first live record of each slot and drops empty page records |
| `Compaction.Compact` | core/snapshot.c:551-738 | the new base has the kept records of the delta, then those of the old base, with right counts |
| `Compaction.LastWriterWins` | core/snapshot.c:611-722 | the new base means the merge of delta and base at a slot if and only if the filter covers the slot or no tombstone has to hide a live record |
| `Compaction.CompactionMerges` | core/snapshot.c:551-738 | for a delta of committed pages and a base without tombstones the new base means the merge of both at every slot, with no condition on the filter |
| `Compaction.CommittedIsFiltered` | core/snapshot.c:575-581 | the filter has a bit for every slot of every committed page |
| `Compaction.NewBaseIsClean` | core/snapshot.c:629-633 | no tombstones and at most one record for each slot that the filter covers |
| `Compaction.FoldIsReplay` | core/snapshot.c:551-738 | folding any sequence of deltas that the serializer writes, from no base or one without tombstones, is replaying them in order with tombstones erased, at every slot; no tombstone is left |
| `Compaction.DeletionMayBeUndone` | core/snapshot.c:541-542 | the bound on pages is needed: a delta with a page beyond the filter deletes a slot that the new base still has; it is not one the serializer writes |

## Left out

- Allocation failure inside MSET handlers: PREPARE acknowledges a pair without linking a command; the protocol is stated for successful allocation.
- MSET identities: the code passes pointers to records and pipeline slots that are reused; the model gives each MSET a fresh identity.
- MSET handlers are modelled on values and as interleaved steps, not as in-place updates of linked records; the linked wait list has its own model in `WaitList`.
- Deferred writers and deletes during the drain of a wait queue; only reads are deferred.
- MsetObjects.ObjectsAreAccountedFor: says nothing about a key once an MSET has named it again while it was new.
- Connections on per-shard ports, which bypass the lock check.
- MsetCore.Settle: a preemption takes back the victim's acknowledgement and counts the winner's in one step; the code does so with two atomic operations (`core/mset_exec.c:899` and, through `core/mset_exec.c:180`, `core/mset_exec.c:934`), between which the steps of other shards can fall.
- Weak memory orders: each atomic access is one sequentially consistent step.
- HashTable: overflow slots are counted, not identified; the arena grows up to a fixed number of slots, refusals inside the reservation are not modelled; one value type; key lengths are not truncated to 16 bits; masks are remainders.
- HashTable flush, destruction and random sampling, and the bucket scan for expiry, which has no caller.
- LockTable: requires the hash passed to be the object's own, and objects inserted or retargeted not to be in the table already under another entry; the group array of an entry is reduced to whether it could be allocated.
- KeyCell.Prepare: a command that waits after an early commit records the current object; the code keeps the one read before, which the commit has destroyed. Until promotion replaces it, the code only asks whether it is there, and both are.
- WaitQueue.Entry.RemoveAnchor: groups are sequences of commands, not linked lists of them.
- Wake: the queues are counts of unread messages; their contents are in `Spsc`, and both together in `Mail`.
- RespInline.ItemsAreHandedOut: streams with inline pings or blank lines that do not fit into the first buffer; for commands alone `RespTheorems.HandsOutExactly` has no such bound.
- ShardTable.Set: says nothing of the map once a tick of the table has forgotten keys, which `HashTableOps.Table.Tick` pins down.
- WaitDrain: the wait queue part of PREPARE, deferred reads and FIN; the look-up of the lock entry and the update of the hash table are in `LockTable` and `HashTableOps` and are not joined with the model of a key.
- LazyBuddy.FreeSpan: requires an aligned power of two to have fewer than 2^21 pages, as every caller's span does (`LazyBuddy.AllocatedFits`; the heap grows by huge pages); at 2^21 pages the fast path would index past the lists (`LazyBuddy.FastPathOverflows`).
- LazyBuddy: span size and offset fields of allocated pages, which the allocator itself does not read.
- SlabOps.Allocator.AllocLarge: does not model the cast of the page count to 32 bits (`memory/slab.c:427-428`); requests for which it matters, of about 2^44 bytes and more (`Slab.PagesFitCast`), are refused here and would get too small a block there.
- SlabOps.Allocator.Alloc: as `SlabOps.Allocator.AllocLarge` for such requests.
- SlabOps: mapping memory for a chunk is a parameter; statistics, realloc, calloc and prewarming; an address that is neither live nor in an unused page is outside the contract of `SlabOps.Allocator.Free`.
- RespParser: dispatch, the pipeline and replies, and with them the pause of the parse loop behind an MSET that has to wait for admission; read errors and the end of the stream. Counts and lengths are read without overflow; above 2^31 - 1 the code's signed integers overflow, which C leaves undefined.
- RespParser.Reset: a request is handed out as a copy of its arguments. The code hands out pointers into the read buffer (`protocol/resp_handler.h:447-476`) and, once the buffer is used up, writes the next bytes over it from the start without looking at its reference count (`protocol/resp_handler.h:73-77`); when a pending request still finds its bytes there is not modelled.
- RespMemory.Granted: a request that fits into a chunk is taken to be met, which is so as long as another chunk can be made (`RespMemory.GrantedIsMet`); a shard that has run out of memory is not modelled.
- ShardTtl.OneLockHoldsBack: one locked key at the first locked deadline; if several are locked at that very deadline, which of the keys due then is reached depends on their places in the heap.
- ShardTtl: the table is the map that `HashTableOps` refines, without entries lost in a starved tick; growth of the heap array succeeds; LRU lists, reference counts and snapshot marks.
- Compaction: files are records, not bytes; input and output errors and truncated files. A slot is a place in memory: that a restarted shard gives the places of an old base new meanings is not modelled.
- Restore, the snapshot thread's races with the shard, and the span pools of `mem/mem_pool.c`.
- Hash functions, which are arbitrary functions here, sockets, timers, files and start-up.
