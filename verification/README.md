# kmsvc: a verified model of the message plane and of the queue operator

kmsvc offers SQS-style queues on Kafka. A queue is a set of *shards*, each a Kafka topic that owns a range of the hash
space. The *message plane* sends, receives, deletes and redelivers messages and keeps its bookkeeping in Redis. The
*queue operator* reconciles a queue's status: it splits busy shards, drains old ones and publishes the shard map by
which messages are routed.

This project models both and proves what they keep. `dafny verify dfyconfig.toml` checks all of it.

## How the model is built

**Message plane.** `Store` has one function per Redis command; a Lua script or a MULTI pipeline is one command.
`RedisQueue.Queue` is the same state as an object whose methods update it in place, each proved equal to its function.
`Protocol` is the interleaved machine: every call of a Go function is a process with a program counter, every step is
one command of one process, or a move of the environment (clock tick, expiry of a lock or of an in-flight hash, a call
that fails or crashes). `Next` is total, so every sequence of steps is a run, and "in every run" means for every list of
steps. A ghost history records tracked and resolved offsets, outcomes per handle, and lock tenures. Steps read it for two
things only: a handle that was issued is not issued again, and the next tenure gets the next number.
`Calls` and `ReceiveMessages` have the Go functions themselves, as methods proved against functions, and the `...IsARun`
lemmas tie them to the machine. The theorems are in `CommitSafety`, `CommitOrder`, `Outcomes`, `Attempts`, `Reachability`,
`Stranding`, `Visibility`, `Fifo`, `FifoInFlight` and `FifoLimits`, and for a call or a sweep that nothing interferes with
in `ReceiveLaws`, `ReceivedMessages` and `Sweeps`.

**Control plane.** A status is what a legal history of three moves leaves: the first shard is created, an Active shard is
split, a Closing shard is closed (`ShardTree`). `ShardInvariants`, `ShardRuns`, `ShardTopics`, `ShardIdentity` and
`ShardLimits` prove what every legal history keeps. `Reconcile` says what one reconcile does, error exits and lost
writes included;
`QueueReconciler.QueueReconciler` is the reconciler with its loops, proved equal to it; `ReconcileMoves` proves that every
exit is a legal history, and `ReconcileSplitting`, `ReconcileLaws`, `ReconcileTopics`, `ReconcileRoutes`,
`ReconcileRetention`, `ReconcileDeletions`, `ReconcileOutcomes` and `LostWrites` prove what follows; `ReconcileLimits`, `ReconcileFork` and
`ReconcileStops` have runs of a few reconciles.

**Routing.** `Murmur`, `Topology` and `Router` have the hash on 32-bit words, the choice of shard and partition and the
published map; `Sending` has SendMessage, `SendingLogs` what the logs of any queue hold, and `SendingPath` what it means for
one FIFO group.

## Assumptions

- Receipt handles are fresh; they end in a UUID. `MaxReceiveCount`, `MaxShards`, the split cooldown and
  `PartitionsPerShard` do not change during a run.
- `AddPending` of a record never tracked before comes after all lower offsets of its partition, where a theorem names
  `TracksInLogOrder`. The exact condition, and a run in which two overlapping receives break it, are proved.
- The clock is read in whole seconds by the operator; a sample of a shard is not taken before its cooldown was checked.
- There is one clock; an expiry may come at any time after its deadline, which includes the moment itself.

## What does not hold

- `internal/core/queue/receive_message.go:157-158` says that the caller keeps draining after a handle that is gone. The
  loop stops at the first handle that cannot be handed out (lines 93-95), so each costs a whole round
  (`ReceiveLaws.BlockedHeadsCostRounds`).
- MaxReceiveCount bounds how often a message is handed out (`Attempts.HandOutsInEveryRun`), but a FIFO message that was
  parked because its group was locked uses up an attempt all the same, and can be dead-lettered without anybody having
  received it (`Attempts.DeadLetteredUnseen`).
- A receive call that is past its lock returns its message even if that has been acked meanwhile: a message can be handed out
  after its own ack (`Attempts.HandedOutAfterItsAck`).
- `internal/core/queue/fifo.go:13-20` promises that two messages of a group are never in flight at once. Two runs of
  `FifoLimits` break it: ChangeMessageVisibility does not renew the lock, and a redelivery takes the lock before it sets the
  deadline, so that the lock runs out first. In a third, a slow call is about to hand out while another handle holds the
  lock. The exact condition on a step is `FifoInFlight.OneInHandIffGuarded`, and runs whose steps stay within their own
  locks keep the promise (`FifoInFlight.OneInHandInCoveredRuns`). Without any condition `Fifo.LockExcludesOthers` holds.
- Two overlapping receives can track records out of log order, and a restart can then skip one
  (`CommitOrder.OverlappingReceivesCanSkip`). The condition under which tracking is safe is exact
  (`CommitOrder.FirstTrackingIsSafeIff`).
- A receive call that fails while it holds a popped handle may leave the message where no reaper and no receive call finds
  it. It then stays so until its hash expires, unless its earlier consumer acks it or changes its visibility, or the call
  that first stored it was slow and is refused its lock (`Stranding.StrandedUntil`, `Stranding.FailStrandsIff`).
- The shard map is published before the status is written. A lost write takes routes back up the tree: exactly the keys
  of the shards that were split, because the next reconcile cannot split them again (`LostWrites.LostWriteTakesRoutesBack`;
  an instance is `ReconcileLimits.RoutesCanGoBack`). When no write is lost they only go down.
- IDs are never reused in persisted statuses, but after a lost write a published ID comes to stand for another range
  when the lost reconcile and the next one both split something (`LostWrites.LostSplitsGiveIdsAway`; a run is
  `ReconcileFork.IdStandsForAnotherRange`). If either splits nothing, every ID keeps its range
  (`LostWrites.CommonIdsKeepRanges`).
- `internal/operator/shard_drain.go:16-19` speaks of the retention window since a shard stopped being a write target; the
  code counts from its creation (line 35), so a topic can be deleted too early. Exactly when is
  `ReconcileDeletions.DeletedTooEarlyIff`, whatever happens in the rest of the pass: an error at a later shard leaves the
  shard Closing without its messages (`ReconcileStops.DeletedAndStillClosing`). Exactly when the shard is also closed is
  `ReconcileRetention.ClosedTooEarlyIff`; `ReconcileLimits.SplitAndDeletedInOnePass` and
  `ReconcileLimits.DeletedASecondAfterItsSplit` are instances.
- Keys can be routed to topics that do not exist: those of the shards a pass has just added
  (`ReconcileTopics.RoutedTopicExistsIff`), and those a pass has deleted before it failed to publish
  (`ReconcileTopics.RoutedTopicIsLeftIff`, `ReconcileLimits.RoutedToADeletedTopic`).
- The key space is twice as wide as the masked hash. After the first split the upper child has one hash value
  (`ShardLimits.FirstSplitIsLopsided`). With MaxShards above 32 a range can become empty.
- A send that is unroutable, or whose produce fails, keeps its deduplication claim, and retries are answered as duplicates
  (`Sending.FailedSendIsNotRetried`; exactly when a send is a duplicate is `Sending.DuplicateIff`).

## Model

| member | source | states |
|---|---|---|
| RedisQueue.Queue.AddPending | internal/redis/watermark.go:14-20 | the pending set gains the offset and nothing else changes |
| RedisQueue.Queue.LeastPending | internal/redis/watermark.go:25-34 | the least pending offset of the partition, if there is one |
| RedisQueue.Queue.SetWatermark | internal/redis/watermark.go:38-44 | the stored watermark is replaced and nothing else changes |
| RedisQueue.Queue.AcquireFIFOLock | internal/redis/watermark.go:66-72 | a free lock is taken with its time to live, a held one is left alone |
| RedisQueue.Queue.PutInFlight | internal/redis/inflight.go:28-50 | hash and visibility entry appear together; the hash lives a minute longer |
| Store.AckLeavesNothing | internal/redis/lua/ack.lua:11-37 | after an ack nothing is left of a live message, its lock is gone unless another handle holds it, and no other handle, offset or lock changes; a dead one is not touched |
| Store.ReapLeaves | internal/redis/lua/reap.lua:13-49 | a reap always takes the handle off the index; on the last attempt nothing is left, else the message is at the tail of the redeliver list with its count raised, still pending, its time to live unchanged |
| Store.LoadedTellsOutcome | internal/redis/inflight.go:52-75 | loading a handle gives the record last put under it with the count of its last redelivery, and nothing once it was acked or dead-lettered |
| RedisQueue.Queue.ExtendVisibility | internal/redis/inflight.go:79-92 | moves the visibility deadline of a live handle only, and not the hash's |
| RedisQueue.Queue.PopRedeliverable | internal/redis/reaper.go:120-129 | takes the head of the redeliver list |
| RedisQueue.Queue.PushRedeliverable | internal/redis/reaper.go:136-141 | adds at the tail of the redeliver list |
| RedisQueue.Queue.Ack | internal/redis/lua/ack.lua:11-37 | ack.lua: hash, visibility entry and pending offset go together, the lock only if this handle holds it |
| RedisQueue.Queue.Reap | internal/redis/lua/reap.lua:13-49 | reap.lua: gone, dead-letter or redeliver, with the count raised and the lock compared before it is deleted |
| CommitSafety.LedgerRefinement | internal/core/queue/receive_message.go:181-222 | the machine refines unseen, outstanding, resolved: only tracking and only acks and dead-letter reaps move an offset, everything else stutters |
| CommitSafety.LedgerInEveryRun | internal/redis/lua/ack.lua:23-27 | coupling invariant in every run: tracked and unresolved means pending, whatever the order of tracking |
| CommitSafety.MinPendingIsSafe | internal/redis/watermark.go:22-34 | the least pending offset is a commit point that skips no outstanding record |
| CommitSafety.CommitsKept | internal/core/queue/delete_message.go:57-75 | every step keeps every commit point safe, also a minimum that was read long before it is committed |
| CommitSafety.RestartSkipsNothingInEveryRun | internal/core/queue/delete_message.go:31-75 | in every run that tracks new records above the commit points, everything tracked below the committed offset is resolved |
| CommitOrder.LogOrderMakesRestartsSafe | internal/core/queue/delete_message.go:51-75 | records tracked in log order suffice: a restart never skips an unresolved tracked record, in any interleaving |
| CommitOrder.FirstTrackingIsSafeIff | internal/core/queue/receive_message.go:182-184 | the exact condition: tracking a new record is safe in all continuations if and only if it lies below no committed offset and no minimum on its way |
| CommitOrder.CommitsWereSeenInEveryRun | internal/core/queue/delete_message.go:58-72 | a commit point is always an offset that was tracked |
| CommitOrder.WatermarksWereSeenInEveryRun | internal/core/queue/delete_message.go:65-67 | a stored watermark is always one below an offset that was tracked |
| CommitOrder.OverlappingReceivesCanSkip | internal/core/queue/receive_message.go:114-128 | a run of two overlapping receives after which a restart skips a tracked record |
| Outcomes.OutcomesInEveryRun | internal/redis/lua/reap.lua:29-49 | per handle in every run: one terminal outcome, one DLQ send at most, at most max(1, MaxReceiveCount) non-gone reaps, receive count one more than its redeliveries |
| Outcomes.DeadLetteredOnLastAttempt | internal/redis/lua/reap.lua:40-45 | a reaped message is dead-lettered if and only if it has used its last attempt |
| Attempts.HandOutsInEveryRun | internal/core/queue/receive_message.go:143-222 | per handle in every run: hand-outs, places on the redeliver list and calls that carry it are together at most one more than its redeliver replies, so it is handed out at most max(1, MaxReceiveCount) times |
| Attempts.DeadLetteredUnseen | internal/core/queue/receive_message.go:204-218 | a run in which a parked FIFO message is dead-lettered without ever having been handed out |
| Attempts.HandedOutAfterItsAck | internal/core/queue/receive_message.go:152-178 | a run in which a message is handed out after it was acked |
| Visibility.NotReapedBeforeDeadline | internal/redis/reaper.go:103-118 | whatever other calls, sweeps, expiries and crashes do, a message that is not touched keeps its place in the index and gets no reply of the reaper until its deadline |
| Reachability.NoneStrandedInEveryRun | internal/core/queue/receive_message.go:143-179 | every live message is in vis_index, on the redeliver list or held by a call, unless a call failed while holding it |
| Reachability.WithinReachUnlessCallsFail | internal/core/queue/receive_message.go:143-179 | without failing calls no live message is ever stranded |
| Stranding.StrandedUntil | internal/redis/inflight.go:77-92 | the fate of a stranded message under every step: only a visibility change, or the slow first call being refused its lock, brings it back, only an ack or its hash expiry ends it |
| Stranding.FailStrandsIff | internal/core/queue/receive_message.go:143-179 | a failing call strands the live message it holds if and only if that is in neither vis_index nor the redeliver list and no other call holds it |
| Stranding.StrandedAndBroughtBack | internal/core/queue/receive_message.go:143-155 | a run that strands a message, and its first consumer bringing it back |
| Fifo.FifoInEveryRun | internal/redis/watermark.go:63-72 | locks are the open tenures, each ended tenure ended by its time to live or by its own holder's ack or reap |
| Fifo.LockExcludesOthers | internal/core/queue/receive_message.go:162-173 | while a handle's lock stands, any call handing out that group is that handle's, or lost an earlier lock for a reason of its own |
| Fifo.OneCallStandsInItsLock | internal/core/queue/receive_message.go:204-219 | two calls of one group never both stand in their lock |
| FifoInFlight.OneInHandInCoveredRuns | internal/core/queue/fifo.go:13-20 | in every run that hands out, and sets deadlines, only within a message's own lock, no two messages of a group are delivered, live and invisible at once |
| FifoInFlight.OneInHandIffGuarded | internal/core/queue/receive_message.go:162-178 | the exact condition on a hand-out, redelivery or visibility change: no such continuation has two in hand if and only if the group's lock lasts to the new deadline and is the message's own or that of a message that is gone |
| FifoLimits.ExtendedMessageLosesItsLock | internal/core/queue/change_visibility.go:20-29 | a run with two messages of one group in flight and invisible at once |
| FifoLimits.SlowCallOutlivesItsLock | internal/core/queue/fifo.go:13-26 | a run in which a slow call is about to hand out under a lock that another handle holds by then |
| FifoLimits.LateExtensionOutlivesItsLock | internal/core/queue/receive_message.go:162-178 | a run with two messages of one group in hand, although nobody changed a visibility and each was handed out under its own lock |
| Calls.HandOutRedeliverable | internal/core/queue/receive_message.go:143-179 | pop, load, lock or park, extend, return: the state and the reply of an uninterrupted call |
| ReceivedMessages.RedeliveredSaysWhatIsStored | internal/core/queue/receive_message.go:143-179 | a redelivered message is the head of the list, with the stored body and receive count, invisible from now on |
| ReceivedMessages.RedeliveredCountInEveryRun | internal/core/queue/receive_message.go:178 | in every run its receive count is one more than its redeliveries and at most max(1, MaxReceiveCount) |
| Calls.RedeliverCallHasItsMessage | internal/core/queue/receive_message.go:143-179 | the machine's call has in hand what the call function returns, body and count |
| Calls.RedeliverCallIsARun | internal/core/queue/receive_message.go:143-179 | the machine's steps of the call, run in a row, do what the call does |
| Calls.HandOutFresh | internal/core/queue/receive_message.go:181-222 | track, store, lock or park, return: the state and the reply of an uninterrupted call |
| ReceivedMessages.FreshRecordIsStored | internal/core/queue/receive_message.go:181-222 | a record is pending at its own offset and stored with its own place, value and, on a FIFO queue, key; it is handed out exactly when that key was free, and else parked; a standard queue takes no lock |
| Calls.FreshCallIsARun | internal/core/queue/receive_message.go:181-222 | the machine's steps of the call, run in a row, do what the call does |
| Calls.AdvanceWatermark | internal/core/queue/delete_message.go:57-75 | stores the minimum less one and commits the minimum, and does nothing when nothing is pending |
| Calls.AdvanceCommitsLeast | internal/core/queue/delete_message.go:57-75 | the committed offset is the least pending one, the watermark one less, and no other partition changes |
| Calls.DeleteLeavesNothing | internal/core/queue/delete_message.go:31-75 | nothing is left of a live message, and the least of the others pending in its partition is committed, if there are any |
| Calls.DeleteMessage | internal/core/queue/delete_message.go:31-49 | acks a live handle and advances its partition, and is a no-op on a dead one |
| Calls.DeleteCallIsARun | internal/core/queue/delete_message.go:31-75 | the machine's steps of the call, run in a row, do what the call does |
| Calls.RunSweep | internal/core/reaper/reaper.go:58-93 | reaps the batch in order, sends each dead letter once with its body and group, counts the actions, stops at a failed send |
| Sweeps.SweepDoes | internal/core/reaper/reaper.go:58-93 | told by the state it finds: how far a sweep of distinct handles gets, which letters it sends and with what, how many actions it counts, and what it adds to the redeliver list, all in the order of the batch |
| Calls.SweepCallIsARun | internal/core/reaper/reaper.go:44-78 | the machine's steps of a sweep, run in a row, do what it does, DLQ sends included |
| ReceiveMessages.ReceiveMessage | internal/core/queue/receive_message.go:54-141 | the long-poll loop: rounds until a message is found, a poll fails or the wait is over |
| ReceiveMessages.DrainRedeliverable | internal/core/queue/receive_message.go:88-97 | the inner loop over the redeliver list, which stops at the first refusal |
| ReceiveMessages.TakeFresh | internal/core/queue/receive_message.go:114-129 | the inner loop over the records, which skips unknown topics and stops when there is no room |
| ReceivedMessages.TakenAreChosen | internal/core/queue/receive_message.go:114-129 | the fresh messages of a round are, in fetch order, the records of known topics whose key is not locked and did not come earlier, while there is room |
| ReceivedMessages.ReceivedSayWhatIsStored | internal/core/queue/receive_message.go:87-141 | every message of a call says the body and count stored for its handle, and every new handle stands for a fetched record |
| ReceivedMessages.OneRecordPerKey | internal/core/queue/receive_message.go:181-222 | on a FIFO queue a call returns at most one fetched record of a key, and none of a key that was locked |
| ReceiveLaws.ReceiveConserves | internal/core/queue/receive_message.go:87-130 | per handle: on the list plus fresh before equals on the list plus handed out after; only dead handles vanish |
| ReceiveLaws.DeliverableMeansProgress | internal/core/queue/receive_message.go:87-140 | with a deliverable message behind k others, more than k rounds and no failing poll among the first k + 1, some message is returned, whatever is fetched |
| ReceiveLaws.BlockedHeadsCostRounds | internal/core/queue/receive_message.go:87-140 | that message is the first one returned if and only if there are more than k polls, the first k neither fail nor fetch anything but records of unknown topics and locked groups, and the next fails only if the list alone fills the call |
| ReceiveLaws.ReceiveOnePerGroup | internal/core/queue/receive_message.go:143-222 | one call returns at most one message per group and none of a locked group |
| Decimal.AtoiItoa | internal/operator/queue_controller.go:324-332 | parsing a printed shard number gives it back |
| Decimal.ItoaIsDecimal | internal/operator/shard_split.go:73-79 | what is printed is the decimal numeral: digits by place value, without a leading zero |
| Decimal.AtoiReads | internal/operator/queue_controller.go:326-330 | what is read as a number, and as which: an optional sign, at least one digit, a value in the range of int |
| Decimal.SuccessorReads | internal/operator/queue_controller.go:331 | what is printed for the successor is the next int, the largest wrapping to the smallest |
| ShardTree.MaxIdIsLargest | internal/operator/queue_controller.go:324-332 | the largest of the IDs that can be read, or -1 |
| Murmur.ComputeMurmur2 | internal/kafka/topology.go:52-92 | block loop and fall-through tail equal the recursive little-endian definition for every length, all indices in bounds |
| Murmur.MixTail | internal/kafka/topology.go:75-85 | the fall-through switch mixes in the little-endian value of the last bytes |
| Murmur.KafkaValues | internal/kafka/topology.go:49-92 | three keys have the hash values that Kafka's own partitioner gives them |
| Murmur.HashKeyIsRemainder | internal/kafka/topology.go:94-105 | the hash of a key is its murmur2 value modulo 2^31 |
| Topology.TopicNamesAre | internal/kafka/topology_test.go:5-24 | the names of a standard and a FIFO queue's shards |
| Topology.TopicNamesDiffer | internal/kafka/topology.go:24-30 | within a queue equal topic names mean equal shard IDs, of either kind of queue |
| Topology.SplitHashRangeHalves | internal/kafka/topology.go:146-150 | on a proper range the midpoint does not wrap and halves it, the odd key going up |
| Topology.ActiveShards | internal/kafka/topology.go:118-129 | the loop keeps the shards that may be written to, in order |
| Topology.WriteTargetsMembers | internal/kafka/topology.go:118-129 | a shard is a write target if and only if it is listed and its phase is empty or Active |
| Topology.SelectShard | internal/kafka/topology.go:131-144 | the first shard in the list that covers the hash, or none covers it |
| Topology.PartitionIsRemainder | internal/kafka/topology.go:152-162 | the partition is the remainder of the hash by the number of partitions, six if that is not positive |
| Topology.KeysShareAPartitionIff | internal/kafka/topology.go:152-162 | two keys share a partition if and only if their hashes differ by a multiple of the number of partitions |
| Topology.PartitionValues | internal/kafka/topology.go:152-162 | the partitions of three keys |
| ShardInvariants.HistoryKeepsInv | internal/operator/shard_split.go:39-84 | in every reachable status: the Active ranges partition the key space, every other shard has exactly two children cut at the midpoint, IDs are positions, parents come first, shards are twice the Active ones less one |
| ShardInvariants.MoveKeepsInv | internal/operator/shard_split.go:71-82 | each of the three moves keeps that invariant |
| ShardInvariants.ShardsAreBounded | internal/operator/shard_split.go:22-46 | at most MaxShards - 1 splits and 2 MaxShards - 1 shards in a queue's life |
| ShardRuns.HistoryExtends | internal/operator/shard_drain.go:20-48 | shards are never removed or renamed, and phases only move Active, Closing, Closed |
| ShardRuns.KeysOnlyDescend | internal/operator/shard_split.go:71-82 | over any stretch of a history a key stays with its shard while that is Active, and otherwise has gone to a descendant |
| ShardRuns.DrainsMoveNoKey | internal/operator/shard_drain.go:20-48 | the whole range of a shard being closed is owned by Active descendants, and closing it changes no owner |
| ShardRuns.DepthBounds | internal/operator/shard_split.go:47-49 | a shard at depth d is at least (2^32 - 1) / 2^d wide, at least d cooldowns younger than the first shard, and d is below MaxShards |
| ShardTopics.HistoryKeepsNames | internal/operator/queue_controller.go:126-136 | every topic is the one named after its shard |
| ShardTopics.TopicsDiffer | internal/kafka/topology.go:24-30 | no two shards of a reachable status share a topic |
| ShardTopics.ClosedTopicsNeverReturn | internal/operator/queue_controller.go:138-153 | no later shard that is not Closed has the topic of a Closed one |
| ShardIdentity.SameSplitsSameRanges | internal/operator/shard_split.go:71-82 | two histories that make the same first m splits give the first 2m + 1 IDs the same ranges |
| ShardIdentity.DifferentSplitsDifferentRanges | internal/operator/shard_split.go:71-82 | where two histories first differ, as after a lost status write, the next two IDs stand for disjoint ranges |
| ShardLimits.NoEmptyRangeIffCapAtMost32 | internal/kafka/topology.go:148-150 | no history creates an empty range if and only if MaxShards is at most 32 |
| ShardLimits.FirstSplitIsLopsided | internal/kafka/topology.go:94-105 | once split, every key but those with one hash value is owned below shard 1 |
| Router.PublishedMembers | internal/operator/queue_controller.go:214-226 | the published map lists exactly the shards that are not Closed |
| Router.RouteShardIs | internal/operator/queue_controller.go:219-225 | the map lists a shard with its own ID, topic, phase and range |
| Router.RouteForSend | internal/core/queue/shard_router.go:33-43 | no map, no covering shard, or the selected one |
| Router.RouteIsFirst | internal/core/queue/shard_router.go:33-43 | by any map, whatever its order and ranges, to the first shard that may be written to and contains the hash; it fails only if there is none, or no map |
| Router.NotClosedMembers | internal/core/queue/shard_router.go:48-60 | exactly the listed shards that are not Closed are consumed, each as often as it is listed |
| Router.ConsumableShards | internal/core/queue/shard_router.go:48-60 | the listed shards that are not Closed, in order, or an error without a map |
| Router.PublishedIsConsumable | internal/core/queue/shard_router.go:45-60 | a consumer subscribes to all of a map the operator published |
| Router.RoutesToTheOwner | internal/kafka/topology.go:121-144 | by any listing of a reachable status every key routes to exactly one shard, its owner, whatever the order |
| Router.RoutesOnlyDescend | internal/core/queue/shard_router.go:33-43 | between two maps of one history a route stays or goes to a descendant |
| Sending.SendMessageService.SendMessage | internal/core/queue/send_message.go:50-110 | size, meta, group, deduplication, route, partition, produce, in that order, with every early exit |
| Sending.SendMessageService.TryDedup | internal/redis/dedup.go:15-21 | the first claim succeeds and every later one does not |
| SendingLogs.SentIff | internal/core/queue/send_message.go:50-110 | on a queue of either kind a send is accepted if and only if nothing speaks against it; its own body is then the last record at its key's place, the reply is that record's offset, and otherwise no log changes |
| SendingLogs.RefusedBecause | internal/core/queue/send_message.go:50-104 | which reason a refusal gives |
| SendingLogs.LogsAreTheSends | internal/core/queue/send_message.go:85-110 | after any run, on a queue of either kind, each log has gained exactly the accepted messages routed there, in send order |
| SendingLogs.OffsetStandsForMessage | internal/core/queue/send_message.go:101-109 | the offset in a reply stands for the message ever after |
| Sending.GroupSharesOneLog | internal/core/queue/send_message.go:85-110 | over a run of sends that maps lead to one topic, a group's records are in one partition, exactly the accepted ones in send order |
| Sending.GroupStaysWithItsOwner | internal/core/queue/send_message.go:85-101 | a group keeps its topic while its owner is Active, and otherwise moves down the tree |
| SendingPath.RecordsAreTheJournal | internal/core/queue/send_message.go:85-110 | over any run, resharding included, a group's records at a topic are its accepted messages routed there, in send order, in one partition only |
| SendingPath.GroupFollowsOnePath | internal/core/queue/send_message.go:85-101 | if the maps of a run belong to one history, each message of a group goes to the topic of an earlier one or to a descendant's |
| Sending.DuplicateIff | internal/core/queue/send_message.go:63-83 | a send is answered as a duplicate, after any run, if and only if deduplication applies and an earlier send, successful or not, made its claim and the window has not ended since |
| Sending.FailedSendIsNotRetried | internal/core/queue/send_message.go:68-104 | after a send that was unroutable or failed to produce, every retry within the window, whatever happens between, is a duplicate of a record that does not exist |
| ReconcileMoves.PlanIsLegal | internal/operator/shard_split.go:32-84 | decisions made on the list as it was at the start are legal on the list that grows, and the running count is right |
| ReconcileMoves.PlanStaysBetween | internal/operator/shard_split.go:39-46 | a pass splits only shards it began with, each at most once and in order |
| ReconcileMoves.PassIsLegal | internal/operator/queue_controller.go:93-119 | wherever a pass stops, the status it would write comes from legal moves |
| ReconcileMoves.PersistedStatusIsReachable | internal/operator/queue_controller.go:193-199 | after any series of reconciles, with any errors and lost writes, the persisted status is that of a legal history |
| ReconcileMoves.PersistedStatusKeepsInv | internal/operator/queue_controller.go:93-123 | so the persisted shards always partition the key space |
| ReconcileSplitting.PassSplitsExactly | internal/operator/shard_split.go:39-84 | a shard is split if and only if it is Active, past its cooldown and its rate has reached the threshold, no sampling failed before it, and all such shards before it leave room |
| ReconcileSplitting.OverThresholdIsRate | internal/operator/shard_split.go:58-69 | the comparison is that of the rate since the last sample, in records of 1024 bytes per second, with the threshold |
| ReconcileSplitting.PassRemembersExactly | internal/operator/shard_split.go:51-83 | what is remembered after the splits: nothing of a shard that was split, the new sample of one that was sampled, and else what was known |
| ReconcileSplitting.SplitPassCloses | internal/operator/shard_split.go:71-84 | exactly the shards a pass splits become Closing, and the others it began with stay as they were |
| ReconcileOutcomes.OutcomeTells | internal/operator/queue_controller.go:93-123 | which outcome a pass has, and the status, samples and map it leaves at each of its exits |
| ReconcileOutcomes.WrittenIff | internal/operator/queue_controller.go:83-123 | what a reconcile writes and reports when the first checks or the write fail |
| ReconcileOutcomes.NewQueueBeginsWith | internal/operator/queue_controller.go:93-95 | the one shard of a new queue |
| ReconcileLaws.EnsureAddsOpenTopics | internal/operator/queue_controller.go:138-153 | only topics of shards that are not Closed are created, and all of those if nothing fails |
| ReconcileLaws.DrainPassCloses | internal/operator/shard_drain.go:20-48 | a shard is closed if and only if it is Closing, drained, past retention and deleted, and no error undoes the pass |
| ReconcileLaws.DrainsGetThroughIff | internal/operator/shard_drain.go:25-42 | the drains end without an error if and only if no Closing shard has an unreadable lag or a due topic that cannot be deleted |
| ReconcileLaws.EnsureGetsThroughIff | internal/operator/queue_controller.go:145-153 | all topics are ensured if and only if the creation of none that is due fails |
| ReconcileSplitting.PlanGetsThroughIff | internal/operator/shard_split.go:39-54 | the split loop ends without an error if and only if there is no shard that it comes to with room left and cannot sample |
| ReconcileRetention.StoppedAtIsTheSplitTime | internal/operator/shard_split.go:73-82 | the children of a shard carry the time of its split as their creation time, whatever happens later |
| ReconcileDeletions.DeletedTooEarlyIff | internal/operator/shard_drain.go:25-44 | a shard's topic is deleted before a retention period since the shard stopped being a write target if and only if the drain loop comes to it, it is Closing, nothing lags, its topic can be deleted, and the clock is past retention from its creation but not from its split |
| ReconcileDeletions.DeletedIsClosedIff | internal/operator/shard_drain.go:31-47 | what is deleted too early is also closed too early if and only if no other Closing shard stops the drains |
| ReconcileStops.DeletedAndStillClosing | internal/operator/shard_drain.go:31-44 | five reconciles after which a topic is deleted too early, the pass fails at another shard, and the shard is still Closing |
| ReconcileRetention.ClosedTooEarlyIff | internal/operator/shard_drain.go:20-48 | the closing half: at the end of the pass a shard is closed before a retention period since it stopped being a write target if and only if nothing stops the pass, it is Closing, nothing lags, its topic can be deleted, and the clock is past retention from its creation but not from its split |
| ReconcileRetention.WriteTargetIsClosedIff | internal/operator/shard_drain.go:35-44 | the case of one pass: a write target is Closed by the pass that splits it if and only if nothing stops the pass, the shard is split, nothing lags and retention from its creation is over |
| ReconcileLaws.DeletedTopicsAreCovered | internal/operator/shard_drain.go:40-44 | a deleted topic is that of a Closing shard whose range Active descendants own, and of no Active shard |
| ReconcileLaws.ClosedTopicsStayGone | internal/operator/queue_controller.go:138-153 | after any series of reconciles no topic of a Closed shard of the persisted status exists |
| ReconcileTopics.TopicsStayKnown | internal/operator/queue_controller.go:138-153 | after any series of reconciles topics exist only for persisted shards, or for the first one |
| ReconcileTopics.RoutedTopicExistsIff | internal/operator/queue_controller.go:97-113 | after a pass that publishes, the topic a key is routed to exists if and only if its owner was there when the pass began |
| ReconcileTopics.RoutedTopicIsLeftIff | internal/operator/queue_controller.go:97-113 | after any reconcile, publishing or not, the topic a key is routed to exists if and only if it was there or was ensured, and no drain deleted it |
| ReconcileRoutes.PublishedMapIsReachable | internal/operator/queue_controller.go:201-227 | the map in Redis always lists a reachable status, whatever failed or was lost |
| ReconcileRoutes.EveryKeyRoutes | internal/core/queue/shard_router.go:33-43 | once there is a map, every key routes to the owner of its hash |
| ReconcileRoutes.RoutesDescendIfNoWriteIsLost | internal/operator/queue_controller.go:111-123 | while no status write is lost, routes only go down the tree from map to map |
| LostWrites.NextPassSplitsOthers | internal/operator/shard_split.go:83 | after a lost write the next reconcile does not split the shards that the lost one has split, their samples being deleted |
| LostWrites.LostWriteTakesRoutesBack | internal/operator/queue_controller.go:111-123 | after a lost write, the first one of a queue included, whatever the next publishing reconcile does, it routes a key above where the lost one did if and only if that one split the key's owner, and then back to the owner |
| LostWrites.LaterMapRoutesBackIff | internal/operator/queue_controller.go:111-123 | any later published map routes a key to its owner at the lost write if and only if that shard is still Active in the status behind the map |
| LostWrites.LostSplitsGiveIdsAway | internal/operator/shard_split.go:71-82 | if a reconcile whose write is lost and the next publishing one both split something, the next two IDs stand for disjoint ranges in their maps |
| LostWrites.FirstShardIsSplitOnce | internal/operator/shard_split.go:83 | while no status was ever written, a lost reconcile and the next one do not both split: there is only the first shard |
| LostWrites.CommonIdsKeepRanges | internal/operator/shard_split.go:71-82 | an ID in both maps stands for the same range if it was there when the write was lost, and every common ID does if either reconcile splits nothing |
| ReconcileFork.IdStandsForAnotherRange | internal/operator/shard_split.go:71-82 | five reconciles after which ID 3 has been published for two disjoint ranges |
| ReconcileLimits.RoutesCanGoBack | internal/operator/queue_controller.go:111-123 | three reconciles by which every key goes down to a child and back to its parent |
| ReconcileLimits.SplitAndDeletedInOnePass | internal/operator/shard_drain.go:35-44 | two reconciles by which a shard is Active, then split, closed and deleted in one pass, and every key is routed to a topic that does not exist |
| ReconcileLimits.DeletedASecondAfterItsSplit | internal/operator/shard_drain.go:35-44 | a shard split by one pass is closed and deleted by the next a second later, with a minute of retention |
| ReconcileLimits.RoutedToADeletedTopic | internal/operator/queue_controller.go:107-113 | a pass that deletes a topic and then fails to publish leaves every key routed to it |
| QueueReconciler.NextShardID | internal/operator/queue_controller.go:324-332 | one more than the largest number among the IDs |
| QueueReconciler.QueueReconciler.EnsureShardTopics | internal/operator/queue_controller.go:138-154 | the loop over the shards, which stops at the first error |
| QueueReconciler.QueueReconciler.SplitShard | internal/operator/shard_split.go:71-82 | the parent becomes Closing and two Active children with the next IDs are added |
| QueueReconciler.QueueReconciler.SampleShard | internal/operator/shard_split.go:51-69 | the new sample, and whether there was an earlier one and the threshold is reached |
| QueueReconciler.QueueReconciler.ReconcileSplits | internal/operator/shard_split.go:17-86 | the loop over a list it appends to does what the plan for the original list says |
| QueueReconciler.QueueReconciler.ReconcileDrains | internal/operator/shard_drain.go:20-48 | the loop that builds the kept list does what the drains of the status say |
| QueueReconciler.QueueReconciler.PublishRedisState | internal/operator/queue_controller.go:201-228 | the map is replaced by the published one only if both writes succeed |
| QueueReconciler.QueueReconciler.Reconcile | internal/operator/queue_controller.go:68-124 | order and exits of a reconcile; the persisted status stays that of a legal history, which only grows |

## Left out

- Queue deletion, the TemporalWorker reconciler, availability zones, name validation, the DLQ-cycle check's rule, gRPC,
  auth and configuration: thin members; where Reconcile calls them their success or failure is an input.
- Eventual redelivery and drains: the in-flight hash's time to live is not renewed, and nothing is committed once the pending set is
  empty, so neither is promised.
- Delivery order after a visibility timeout, and freedom from duplicates on the redeliver list: both scripts and calls append at its tail.
- Records dropped before AddPending (past the maximum, or of unknown topics): commit safety is about records that were tracked.
- The wait between polls and the deadline of a receive call: the number of rounds is an input. Cancellation of a call is the machine's Fail step.
- Calls.HandOutRedeliverable: error returns of Redis are not in the method; in the machine a Fail step may end any call at any point.
- Calls.HandOutFresh: error returns of Redis are not in the method but in the machine's Fail step.
- Calls.AdvanceWatermark: error returns are not in the method but in the machine's Fail step; a service without a committer stops before the commit, which a Fail step there also models.
- Calls.DeleteMessage: Redis and Kafka errors are not in the method but in the machine's Fail step.
- Calls.RunSweep: a queue without metadata, which is not swept, and a failing reap are left out; the machine's Fail step covers the latter.
- ReceiveMessages.ReceiveMessage: errors of Redis, a queue without metadata and one without a shard map are left out; a failed poll is there.
- Reachability.NoneStrandedInEveryRun: its set of dropped handles is larger than that of the stranded ones; `Stranding` says which those are.
- Fifo.LockExcludesOthers: is about calls that hand out; `FifoInFlight` is about the messages in flight.
- QueueReconciler.QueueReconciler.PublishRedisState: the contents of the queue metadata are left out, only the success of writing them matters.
- QueueReconciler.QueueReconciler.SampleShard: throughput is compared exactly, where the source divides and compares 64-bit floats.
- QueueReconciler.QueueReconciler.Reconcile: a queue that does not exist, and deletion, are left out; times are whole seconds; the API server keeps creation times in whole seconds, but samples are kept more finely. A write that took effect although it was reported as failed is not modelled.
- LostWrites.LostWriteTakesRoutesBack: while no status was ever written, a change of the queue's kind between the two reconciles is left out; it gives the first shard another topic.
- LostWrites.LaterMapRoutesBackIff: is about shards of a status that was written.
- Sending.SendMessageService.SendMessage: bodies are characters and not bytes, and the message ID of a send is left out. Redis errors are left out.
- RedisQueue.Queue.PutInFlight: the deduplication ID of an in-flight record is always empty in the source and is left out.
- Topology.SelectShard: JSON encoding of the shard map is left out; a map is a list.
- Distinctness of topics across queues: a queue's name may contain a shard suffix.
- The stored watermark is written but never read by the source; only the committed offset matters.
