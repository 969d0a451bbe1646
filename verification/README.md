# BrokerLite in Dafny

A model of the core of BrokerLite, an in-memory message broker, and proofs about whole runs of it.
Operations are modelled twice. A specification function on values says what one call does
(`Step`, `LogStep`, `ReadLog`, `Poll`, `Pack`, ...); the theorems are about all runs of these
functions. A class with the fields and loops of the original, or a method with its loops, is proved
to compute that function. For the consumer-group protocol, whose steps span several objects, the
classes are proved against the same assignment, seeding and polling functions, and `GroupRefinement`
then shows that new objects are represented by an initial state of the machine and that each method, on a
set of partition and consumer objects and a group, takes exactly one `Step` of it. A rebalance holds the
lock of its group but takes and releases that of each consumer, so `Interleavings` also takes it apart into
its moves and proves delivery with anything in between. So the theorems are about the code as it is
written. Where the code does not do what one would like it to do, there is a concrete input that shows it
and an if-and-only-if that says when it does.

Time is an explicit input. Token and rate arithmetic is over reals. md5 is an arbitrary function from
keys to numbers. Bytes are integers below 256; text is carried as UTF-8 octets (section 4 of RFC 3629).
A Python dictionary is a list of pairs with distinct keys in insertion order.

| file | component |
|---|---|
| Prelude, OrderedDict | option types, Python slices and dictionaries |
| Partition, Compaction | the offset-numbered log and key compaction |
| Topic | choice of a partition by key or by turn |
| Assignment, Polling, Consumer | sharing out partitions, positions and polls, and the two consumer classes |
| ConsumerProtocol, AtLeastOnce, Ownership, Commits, ProtocolLimits | the group protocol as a state machine, its delivery and ownership theorems, when commits only go up, and where the guarantees stop |
| Liveness, Removal | who is expired and when polls commit; what "removed" means in the delivery guarantee |
| JoinSafety, OwnershipSafety, Interleavings | exactly which joins endanger delivery and which ownership; delivery when rebalances are not atomic |
| GroupRefinement | the objects of Partition and Consumer implement the state machine |
| WriteAheadLog | the segmented log against one flat log |
| Bytes, BinarySerializer, Frames | the two codecs and the reassembly of frames from chunks |
| Visibility, MessageQueue, QueueOrder, Heap, PriorityQueue, PriorityVisibility, AckManager | queues and acknowledgements |
| RateLimiter, Deduplication | flow control and de-duplication |

How the parts hang together: `Consumers` and `ConsumerProtocol` share the functions `Seed`, `Poll` and
`Share`; `GroupRefinement` relates the objects to the state machine step by step; `Interleavings` shows
that every step is a sequence of moves. `Topics` runs on top of `Partitions` and inherits its run theorems
partition by partition. The log, the write-ahead log and the theorems about both use the same `Compact`
and the same `FirstFrom`.

What is false of the code, and the exact condition under which it holds:

- A read of a partition is exact if and only if the entry before the computed index is below the
  requested offset; it is exact for all requests if and only if the log has no gap (after compaction
  it may have gaps, and a live message is skipped).
- A poll loses what it moved past unless, and only unless, at most `limit` assigned partitions have
  something to read, counted as often as they are assigned and have something to read.
- Committed offsets go up in every run in which no rebalance hands a member a partition where the
  position it has kept lies below the group's commit (as long as a consumer joins a group only while no
  other group lists it, and no group shares out a partition twice). A rebalance is safe if and only if it
  hands out no such partition: otherwise the next commit of that member lowers the offset.
- A consumer that joins another group takes its positions along. Whatever follows the join, everything
  below a committed offset stays accounted for, if and only if every position it brings is already accounted
  for in that group; a position at or below what the group has committed always is. From any other join
  some legal run ends in a commit past a message the group never got.
- Ownership: a join takes away what the consumer holds for another group that still lists it. Whatever
  follows but further joins, every subscribed partition of a group with members has an owner among them, if
  and only if no other group lists the consumer that joins. From any other join a few steps lead to a
  partition that a group with a member subscribes to and nobody owns.
- A partition that is subscribed twice has exactly one owner if and only if all its occurrences fall to the
  same member.
- A consumer displaced by another one with its identifier is not revoked; they overlap if and only if the
  displaced one held anything.
- On a forward clock, retention of the write-ahead log drops only old entries if and only if no segment it
  can reach begins before the cutoff and ends at or after it. Its compaction keeps the next offset if and
  only if nothing after the first survivor was superseded. Truncating a segment keeps its reads exact if
  and only if it removes nothing or everything.
- A packable value survives the binary round trip if and only if no dictionary in it has a tuple as a
  key. A truncated encoding still unpacks if and only if it ends in a string that loses only part of
  itself (for text, whole characters) and has no tuple among its keys.
- Rejections and sweeps ignore the capacity of a queue, plain or priority: without a further enqueue the
  capacity holds if and only if there is room for everything that waits or is in flight.
- Returning messages keeps them in order if and only if at most one is in flight. First deliveries keep
  enqueue order in any case.
- A message that is settled between any two tracks of it never reaches the dead letter handler if two or
  more attempts are allowed, and is never redelivered if at most one is: settling forgets the attempts.
- From a full bucket every request of a schedule is granted if and only if what is asked for in each of its
  windows is at most the burst plus what accrues in the window.
- All accepted messages of a key are in one partition, the one of its hash, if and only if no accepted
  publish of the key named another one.

## Model

| member | source | states |
|---|---|---|
| Removals.RemovedWasOld | brokerlite/partition.py:147-187 | In every run, each offset that counts as removed was cleared, or its message was older than its partition's retention, in milliseconds, when retention came by. |
| Removals.DeliveredUnlessOld | brokerlite/consumer.py:76-143 | With ample limits every message below a committed offset was handed to the group, unless it was cleared or too old in that sense. |
| Liveness.ExpiryIff | brokerlite/consumer.py:166-172 | A sweep keeps exactly the members that are open and whose last poll is less than their session timeout ago. |
| Liveness.PollingKeepsMember | brokerlite/consumer.py:324-335 | Over every run, a member that has polled at t and is neither closed nor leaves stays a member, as long as no sweep comes at or after t plus its session timeout. |
| Liveness.SilentMemberGoes | brokerlite/consumer.py:324-335 | Over every run without a poll of its own, a sweep at least a session timeout after its last poll drops it. |
| Liveness.PollCommitsIff | brokerlite/consumer.py:119-125 | A poll commits the positions it ends with, and notes the time, exactly if the consumer owns something, commits automatically, and has not committed for its interval; otherwise no committed offset changes. |
| Ownership.RunInvariant | brokerlite/consumer.py:76-335 | Every legal run of appends, retention, clears, joins, leaves, (un)subscriptions, expiries, polls, commits and closes keeps: logs are the last offsets handed out, and everything below any committed offset or position is accounted for. Every run in which a consumer joins a group only while no other group lists it keeps: every member holds exactly its share. |
| AtLeastOnce.AtLeastOnceDelivery | brokerlite/consumer.py:76-143 | At-least-once: after any run on a forward clock in which no consumer brings into another group a position ahead of its commit, each offset below a group's committed offset exists and was handed to a member of that group, removed from the log, or withheld by a poll whose limit was too small. |
| AtLeastOnce.AtLeastOnceWithAmpleLimits | brokerlite/consumer.py:93-143 | If every poll has a limit of at least the number of assigned partitions (or of those with something to read, as in `Polling.PollLosslessIff`), each offset below a committed one was handed to the group or removed. |
| Ownership.ExclusiveOwnership | brokerlite/consumer.py:236-335 | After every run in which a consumer joins a group only while no other group lists it: a partition that a group with a member subscribes to, without subscribing to any twice, is owned by a member and by no other consumer that has joined the group last. |
| Ownership.ExclusiveOwnershipIff | brokerlite/consumer.py:264-322 | After every such run a subscribed partition of a group with a member, even one subscribed twice, has exactly one owner if and only if all its occurrences in the group's list fall to one member. |
| Ownership.BalancedOwnership | brokerlite/consumer.py:264-322 | After every such run member k of m owns exactly n/m partitions, plus one if k < n mod m, all of them subscribed ones. |
| OwnershipSafety.JoinKeepsOwnersIff | brokerlite/consumer.py:236-292 | In a state in which every group holds its shares: whatever follows a join but further joins, every subscribed partition of every group with members has an owner among them, if and only if no other group lists the consumer that joins; then further joins of this kind do no harm either. |
| OwnershipSafety.ReachableJoinKeepsOwnersIff | brokerlite/consumer.py:236-292 | The same for every join after every run in which every join was by a consumer that no other group listed. |
| OwnershipSafety.ListedJoinFails | brokerlite/consumer.py:236-292 | From a join by a consumer that another group lists, a run without joins (the others leave that group, it subscribes a partition, the consumer leaves the group it joined) ends with a member and no owner. |
| OwnershipSafety.OwningServes | brokerlite/consumer.py:264-322 | Where every group holds its shares, every subscribed partition of a group with members has an owner among them. |
| JoinSafety.JoinIsSafeIff | brokerlite/consumer.py:236-241 | In a state that keeps the guarantees: after a join, every committed offset of every group stays accounted for in every legal continuation, if and only if every position the consumer brings along is accounted for in its new group. |
| JoinSafety.ReachableJoinIsSafeIff | brokerlite/consumer.py:236-241 | The same for every join after every legal run. |
| JoinSafety.UncoveredJoinFails | brokerlite/consumer.py:236-250 | From a join with a position that is not accounted for, a legal run (the others leave, the partition is subscribed, the consumer commits) ends in a committed offset that is not. |
| Ownership.HousedIsLegal | brokerlite/consumer.py:236-241 | If every consumer only ever joins one group, no other group lists it when it does, and a run on a forward clock is legal: both conditions on joins hold of themselves. |
| AtLeastOnce.NoSkipNoRepeat | brokerlite/consumer.py:93-127 | Over any legal run, with retention and any rebalances, a consumer is handed each offset of a partition at most once and in order; with a position to start from and ample limits of its own, it is handed every offset between its first and last position that is still in the log. |
| AtLeastOnce.HandedIsSlice | brokerlite/consumer.py:93-127 | Where retention has not caught up with its first position, what it was handed is exactly that slice of the log. |
| AtLeastOnce.StepDelivers | brokerlite/consumer.py:76-143 | Each single step keeps everything below every position and every committed offset accounted for. |
| Ownership.StepOwns | brokerlite/consumer.py:236-335 | Each single step, a join being by a consumer that no other group lists, keeps every member holding exactly its share, and a consumer that its group does not list nothing. |
| AtLeastOnce.RegroupDelivers | brokerlite/consumer.py:264-292 | A rebalance starts a consumer at its own old position or at the committed offset, and both are accounted for. |
| AtLeastOnce.PollDelivers | brokerlite/consumer.py:93-127 | A poll moves a position only over offsets it hands out, withholds, or that were removed; the commit it may make is covered. |
| AtLeastOnce.RunMembersDistinct | brokerlite/consumer.py:236-335 | In every reachable state every group lists each member once. |
| Interleavings.AtLeastOnceInterleaved | brokerlite/consumer.py:76-335 | At-least-once without atomic rebalances: after any sequence of revocations, assignments of any lists, changes of groups, polls, commits, closes, appends and retention, each offset below a committed one was handed to the group, removed, or withheld by a poll with too small a limit. |
| Interleavings.InterleavedWithAmpleLimits | brokerlite/consumer.py:76-335 | If moreover every poll has room for what it reads, each such offset was handed to the group or removed. |
| Interleavings.MovesDeliver | brokerlite/consumer.py:76-335 | Each such move keeps everything below every position and every committed offset accounted for. |
| Interleavings.ScriptIsStep | brokerlite/consumer.py:236-335 | Undisturbed, the moves a join, leave, (un)subscription or expiry consists of, in its order, take the protocol's one step, and are legal if the step is. |
| Interleavings.RunIsMoves | brokerlite/consumer.py:236-335 | Every legal run of whole operations is such a sequence of moves. |
| Commits.CommitsNeverDrop | brokerlite/consumer.py:76-143 | Over every legal run in which a consumer joins a group only while no other group lists it, no group shares out a partition twice, and there is no stale handover, a committed offset at any moment is at most what it is later. |
| Commits.RunKeepsAhead | brokerlite/consumer.py:76-143 | In such runs every owner's position has reached its group's commit. |
| Commits.StepKeepsAhead | brokerlite/consumer.py:76-143 | Each single step other than a stale handover lowers no committed offset and keeps every owner's position at or above it. |
| Commits.HandoverIsSafeIff | brokerlite/consumer.py:264-292 | No commit right after a rebalance lowers anything if and only if, in the shape the group takes, nobody's share has a partition in which its kept position lies below the group's commit. |
| ProtocolLimits.CommittedOffsetsCanDrop | brokerlite/consumer.py:76-84 | Committed offsets are not monotone: a reachable state in which the next commit of a returning member lowers one. |
| ProtocolLimits.SecondGroupAbandonsPartition | brokerlite/consumer.py:236-250 | A member that joins a second group and leaves it again holds nothing: a reachable state in which its first group still lists it, and nobody owns what that group subscribes to. |
| ProtocolLimits.SecondGroupMissesMessages | brokerlite/consumer.py:236-241 | A consumer that joins a second group keeps its positions: a reachable state in which that group has committed past a message it never got. |
| Polling.PollTakesPortions | brokerlite/consumer.py:99-125 | From n distinct, gap-free partitions a poll reads, in their order, exactly the first q messages at or above each position, where q*n <= limit < (q+1)*n; if the limit is below n, one of each. |
| Polling.PollOnePartition | brokerlite/consumer.py:93-127 | From one gap-free partition a poll returns exactly the first `limit` messages at or above the position. |
| Polling.PollLosslessIff | brokerlite/consumer.py:99-127 | A poll hands over everything it moves past if and only if no more assigned partitions have something to read than the limit allows; a partition that is assigned more than once counts as often as reading it one message at a time finds one. |
| Polling.GapFreeUnread | brokerlite/consumer.py:110-118 | In a gap-free log it does so as often as there are messages from the position on. |
| Polling.PollWithinLimit | brokerlite/consumer.py:93-127 | A poll returns at most its limit; what it returns and what it withholds are together, in order, what it read. |
| Polling.TightLimitLoses | brokerlite/consumer.py:108-127 | Two partitions and a limit of one: a message is passed over and not returned. |
| Polling.AmpleLimitFits | brokerlite/consumer.py:99-127 | With a limit of at least one per assigned partition everything read fits. |
| Polling.PollTakes | brokerlite/consumer.py:110-118 | From one gap-free partition a poll takes the slice from the consumer's position up to its new position, even if the partition is assigned twice. |
| Assignment.RangeSharesConcatenate | brokerlite/consumer.py:294-308 | Range shares side by side are the partition list. |
| Assignment.RoundRobinShareMembers | brokerlite/consumer.py:310-322 | Round-robin gives member i exactly the partitions whose index is i modulo the number of members. |
| Assignment.RoundRobinShareAt | brokerlite/consumer.py:310-322 | The t-th partition of member i is number t*m + i of the list. |
| Assignment.ShareIsFair | brokerlite/consumer.py:294-322 | Under every strategy member k of m gets n/m partitions, plus one if k < n mod m. |
| Assignment.ExactlyOneOwner | brokerlite/consumer.py:205-210 | Under every strategy each partition of a list without repetitions is in exactly one share. |
| Assignment.ShareWithin | brokerlite/consumer.py:294-322 | No share contains a partition that is not in the list. |
| Consumers.Consumer.constructor | brokerlite/consumer.py:55-69 | A new consumer has its settings, owns nothing and has no positions. |
| Consumers.Consumer.Assign | brokerlite/consumer.py:76-84 | Takes over the list; a partition without a position starts at the group's committed offset, every other position stays. |
| Consumers.Consumer.Revoke | brokerlite/consumer.py:86-91 | Returns the old list, leaves none, keeps the positions. |
| Consumers.Consumer.DoCommit | brokerlite/consumer.py:134-143 | Writes the position of each owned partition as the group's committed offset there and touches no other group or partition. |
| Consumers.Consumer.ReadRound | brokerlite/consumer.py:110-118 | The loop computes the specified round: batches in order, positions behind what was read. |
| Consumers.Consumer.Poll | brokerlite/consumer.py:93-127 | Returns the round cut to the limit, keeps the uncut positions and count, and commits exactly when auto-commit is due; with one gap-free partition it returns the first messages at or above the position, as many as asked for (or as configured, when nothing or zero is). |
| Consumers.Consumer.Close | brokerlite/consumer.py:174-178 | Commits all positions, notes the time, and deactivates. |
| Consumers.DeadIdsAreDead | brokerlite/consumer.py:167-172 | The listed identifiers are exactly those of members that are not alive, each once. |
| Consumers.ConsumerGroup.constructor | brokerlite/consumer.py:212-224 | A new group is empty, in generation 0. |
| Consumers.ConsumerGroup.AssignRuns | brokerlite/consumer.py:303-308 | The loop with a running index hands member i the i-th run, and nobody's positions are overwritten. |
| Consumers.ConsumerGroup.AssignRange | brokerlite/consumer.py:294-308 | Member i gets the i-th range share. |
| Consumers.ConsumerGroup.Deal | brokerlite/consumer.py:314-319 | The dealing loop builds each member's round-robin share. |
| Consumers.ConsumerGroup.AssignRoundRobin | brokerlite/consumer.py:310-322 | Member i gets the i-th round-robin share. |
| Consumers.ConsumerGroup.HandOut | brokerlite/consumer.py:321-322 | The last loop gives each member the list built for it, keeping known positions. |
| Consumers.ConsumerGroup.AllPartitions | brokerlite/consumer.py:278-280 | The subscribed partitions in subscription order. |
| Consumers.ConsumerGroup.Distribute | brokerlite/consumer.py:287-292 | Every strategy gives member i its share; sticky is range. |
| Consumers.ConsumerGroup.Rebalance | brokerlite/consumer.py:264-292 | With a member: afterwards everybody holds exactly its share, keeps known positions and starts the others at the committed offset, one generation on. Without one: nothing happens. |
| Consumers.ConsumerGroup.RevokeAll | brokerlite/consumer.py:275-276 | Nobody in the list holds anything. |
| Consumers.ConsumerGroup.Join | brokerlite/consumer.py:236-241 | The consumer is filed under its identifier, in the place of a namesake, which alone is left as it was; it takes the group id, the group is balanced, and every member keeps its positions and starts missing ones at the commit. |
| Consumers.ConsumerGroup.Leave | brokerlite/consumer.py:243-250 | A known member is returned and holds nothing but its positions, and the rest is balanced with positions kept or started; an unknown identifier changes nothing at all. |
| Consumers.ConsumerGroup.Subscribe | brokerlite/consumer.py:252-256 | The topic's partitions are replaced in place, the group is balanced, positions are kept or started, and the generation moves if there is a member. |
| Consumers.ConsumerGroup.Unsubscribe | brokerlite/consumer.py:258-262 | The topic is gone, the group is balanced, positions are kept or started, and the generation moves if there is a member. |
| Consumers.ConsumerGroup.FindDead | brokerlite/consumer.py:327-330 | Lists, in joining order, the identifiers of exactly the members that are closed or have not polled for their session timeout. |
| Consumers.ConsumerGroup.RemoveDeadMembers | brokerlite/consumer.py:324-335 | Drops exactly the dead, who then hold nothing but their positions, and balances the rest with positions kept or started; with nobody dead nothing at all changes. |
| Consumers.ConsumerGroup.DropAndRebalance | brokerlite/consumer.py:331-334 | The listed members are dropped and revoked and the rest is balanced. |
| Consumers.ConsumerGroup.DropAll | brokerlite/consumer.py:331-332 | The dropping loop removes exactly the listed members and revokes each. |
| Consumers.NamesakeOverlapsIff | brokerlite/consumer.py:236-241 | A displaced consumer shares a partition with a member if and only if it held anything. |
| Consumers.NamesakesHoldOnePartition | brokerlite/consumer.py:236-241 | Two consumers with one identifier join in turn and both hold the only partition. |
| GroupRefinement.NewObjectsAreInitial | brokerlite/consumer.py:55-69 | New partitions, consumers and an empty group, each object under an identity of its own, are represented by an initial state of the protocol. |
| GroupRefinement.Join | brokerlite/consumer.py:236-241 | On objects that represent a broker state, `join` yields objects that represent the state after the protocol's step. |
| GroupRefinement.Leave | brokerlite/consumer.py:243-250 | The same for `leave`, of a member or of an unknown identifier. |
| GroupRefinement.Subscribe | brokerlite/consumer.py:252-256 | The same for `subscribe`. |
| GroupRefinement.Unsubscribe | brokerlite/consumer.py:258-262 | The same for `unsubscribe`. |
| GroupRefinement.RemoveDeadMembers | brokerlite/consumer.py:324-335 | The same for `remove_dead_members`, somebody dead or nobody. |
| GroupRefinement.Poll | brokerlite/consumer.py:93-127 | The same for `poll`, auto-commit due or not; it returns what the protocol says is handed over. |
| GroupRefinement.Commit | brokerlite/consumer.py:129-143 | The same for `commit`. |
| GroupRefinement.Close | brokerlite/consumer.py:174-178 | The same for `close`. |
| GroupRefinement.Append | brokerlite/partition.py:73-92 | The same for `append`. |
| GroupRefinement.ApplyRetention | brokerlite/partition.py:147-159 | The same for `apply_retention`. |
| GroupRefinement.Clear | brokerlite/partition.py:184-187 | The same for `clear`. |
| GroupRefinement.DroppingTheDead | brokerlite/consumer.py:327-332 | Dropping the dead one by one leaves exactly the members that are alive, in order. |
| Partitions.RunKeepsOffsets | brokerlite/partition.py:73-187 | After any mix of append, retention, clear, compact and commit, offsets increase strictly below the next offset, and each survivor is the accepted message that got that offset. |
| Partitions.StepOrdered | brokerlite/partition.py:73-187 | Each operation keeps offsets strictly increasing below a next offset that never goes back. |
| Partitions.ReadNeverBelow | brokerlite/partition.py:94-115 | A read returns only messages of the log at or above the requested offset, gaps or not. |
| Partitions.ReadCallExactIff | brokerlite/partition.py:107-115 | One read is exactly the first n messages at or above the offset if and only if the entry before the computed index is below the offset. |
| Partitions.ReadExactIffContiguous | brokerlite/partition.py:94-115 | Reads are exact for all offsets and counts if and only if the log has no gap. |
| Partitions.CompactedReadSkips | brokerlite/partition.py:107-115 | A run with one compaction after which a read from the offset of a live message returns nothing. |
| Partitions.KeepsTheYoung | brokerlite/partition.py:152-158 | Retention keeps exactly the messages that are not older than it allows, in milliseconds; without a limit all. |
| Partitions.BoundedBySize | brokerlite/partition.py:79-92 | In every run a bounded partition never holds more than its bound, and accepts a message exactly while it holds less. |
| Partitions.RetentionDropsPrefix | brokerlite/partition.py:155-159 | With timestamps in order retention drops a prefix and nothing else. |
| Partitions.TimelyRunReadsExactly | brokerlite/partition.py:73-187 | On every run without compaction and with a clock that does not go back, the log is gap-free and reads are exact. |
| Partitions.Partition.constructor | brokerlite/partition.py:29-45 | An empty log with next offset 0. |
| Partitions.Partition.Append | brokerlite/partition.py:73-92 | Refused exactly when the partition has a bound and holds that many. Otherwise the message, stamped with partition, offset and time, is last and its offset is the old next offset. |
| Partitions.Partition.Read | brokerlite/partition.py:94-115 | Computes the specified read, for any offset and count, negative ones included. |
| Partitions.Partition.CommitOffset | brokerlite/partition.py:128-131 | Sets one group's offset and nothing else. |
| Partitions.Partition.GetCommittedOffset | brokerlite/partition.py:133-139 | The last committed offset of the group, or 0. |
| Partitions.Partition.ApplyRetention | brokerlite/partition.py:147-159 | Keeps exactly the messages whose age in milliseconds is at most the retention (all of them if there is none), in order, and counts the others. |
| Partitions.Partition.Compact | brokerlite/partition.py:161-182 | The log becomes its compaction; the result is the number of superseded entries. |
| Partitions.Partition.Clear | brokerlite/partition.py:184-187 | Empties the log and keeps next offset and commits. |
| Compaction.CompactKeepsLast | brokerlite/partition.py:167-180 | Compaction keeps, in order, exactly the entries that have no key or are the last with their key. |
| Compaction.CompactSurvivors | brokerlite/partition.py:161-182 | An entry survives if and only if no later entry has its key. |
| Compaction.CompactPreservesReads | brokerlite/partition.py:161-182 | The last entry of every key, and all keyless entries in order, are the same before and after. |
| Compaction.CompactCount | brokerlite/partition.py:182-182 | The number of entries removed is the number of superseded ones. |
| Compaction.CompactIdempotent | brokerlite/partition.py:161-182 | Compacting twice is compacting once. |
| Compaction.CompactAbsorbs | brokerlite/partition.py:161-182 | compact(compact(L) ++ M) == compact(L ++ M). |
| Compaction.CompactKeys | brokerlite/partition.py:161-182 | No key is lost or invented. |
| Compaction.LastIndices | brokerlite/partition.py:169-172 | The first loop finds the last index of every key, and of nothing else. |
| Compaction.CompactLog | brokerlite/partition.py:167-182 | The two loops over a dictionary and a list compute the compaction. |
| Topics.PartitionsRunApart | brokerlite/topic.py:97-115 | In every run of a topic each partition is in the state of a partition that ran its own part of it. |
| Topics.PerKeyOrder | brokerlite/topic.py:82-115 | If no accepted publish of a key named a foreign partition, the messages accepted for it get strictly increasing offsets in publish order, and all that survive retention, compaction and clearing are in the partition of its hash, in that order. |
| Topics.OnePartitionIff | brokerlite/topic.py:110-113 | All accepted messages of a key are in the partition of its hash if and only if no accepted publish named another one. |
| Topics.ForeignPartitionBreaksOrder | brokerlite/topic.py:110-113 | Two publishes, one of which names a partition, that give two messages of one key the same offset. |
| Topics.TurnsGoRound | brokerlite/topic.py:92-95 | The i-th keyless choice is partition i modulo the number of partitions, whether or not the publish then fails. |
| Topics.TurnsAreFair | brokerlite/topic.py:92-95 | After n keyless choices partition q of P was chosen n/P times, plus once if q < n mod P. |
| Topics.Topic.constructor | brokerlite/topic.py:47-63 | The topic has its name and distinct, empty partitions that carry it, numbered from 0, with the configured bound and retention. |
| Topics.Topic.AssignPartition | brokerlite/topic.py:82-95 | By hash, or by turn; only a turn moves the counter; nothing without partitions. |
| Topics.Topic.Publish | brokerlite/topic.py:97-115 | Too large exactly when there is a limit and the message exceeds it. Otherwise the message goes to the partition it names, to the one of its key's hash, or to the next in turn: full exactly when that one holds its bound, else stored there with its next offset. The counter moves even when the partition turns out full. |
| WriteAheadLogs.RunReadsExactly | brokerlite/storage.py:198-309 | After every run of appends, retention and compaction the segments are chained without gaps and a read is exactly the first n entries at or above the offset of the concatenated log. |
| WriteAheadLogs.ReadIsFlatRead | brokerlite/storage.py:215-234 | The reading loop across chained segments is a read of the flat log. |
| WriteAheadLogs.AppendIsFlatAppend | brokerlite/storage.py:198-213 | An append, rotating or not, adds one entry to the flat log at its next offset. |
| WriteAheadLogs.RetainDropsLeadingSegments | brokerlite/storage.py:263-281 | Retention drops the longest possible run of leading segments that begin old, never the last one. |
| WriteAheadLogs.RetainIsFlatSuffix | brokerlite/storage.py:263-281 | To the flat log that is the loss of a prefix; the next offset stays. |
| WriteAheadLogs.CompactIsFlatCompact | brokerlite/storage.py:283-309 | Compaction leaves one segment with the compaction of the key/value pairs. |
| WriteAheadLogs.CompactMovesDown | brokerlite/storage.py:301-308 | No survivor gets a higher offset than it had, and the next offset does not grow. |
| WriteAheadLogs.CompactKeepsNextOffsetIff | brokerlite/storage.py:301-308 | The next offset survives compaction if and only if nothing after the first survivor was superseded. |
| WriteAheadLogs.NextOffsetCanDrop | brokerlite/storage.py:301-308 | A run after which compaction lowers the next offset. |
| WriteAheadLogs.CompactionTimingIsInvisible | brokerlite/storage.py:283-309 | Without retention, compacting at the end gives the compaction of everything ever appended, whenever else compaction ran. |
| WriteAheadLogs.RunInTime | brokerlite/storage.py:198-309 | On a clock that never goes back, the concatenated log is in order of time after every run. |
| WriteAheadLogs.RunRotates | brokerlite/storage.py:77-93 | In every run each segment but the last has reached the configured size, and while nothing is compacted no entry but its first was added to a segment that had. |
| WriteAheadLogs.TruncationKeeps | brokerlite/storage.py:116-126 | Truncating a segment keeps exactly its entries from the offset on, and their size. |
| WriteAheadLogs.RetentionDropsOnlyOldIff | brokerlite/storage.py:272-279 | After every such run, retention drops only old entries if and only if no segment that is followed by another and preceded by no empty one begins before the cutoff and ends at or after it. |
| WriteAheadLogs.RetentionCanDropYoungEntries | brokerlite/storage.py:272-279 | A run in which retention drops an entry younger than the cutoff. |
| WriteAheadLogs.TruncateKeepsReadsIff | brokerlite/storage.py:116-126 | Reads of a truncated segment stay exact if and only if it removed nothing or everything. |
| WriteAheadLogs.LogSegment.constructor | brokerlite/storage.py:46-58 | An empty segment at its base offset. |
| WriteAheadLogs.LogSegment.Append | brokerlite/storage.py:81-93 | One entry more at the next offset, 64 bytes of overhead each. |
| WriteAheadLogs.LogSegment.Read | brokerlite/storage.py:95-106 | Computes the specified segment read. |
| WriteAheadLogs.LogSegment.Truncate | brokerlite/storage.py:116-126 | Removes the leading entries and keeps the base offset. |
| WriteAheadLogs.WriteAheadLog.constructor | brokerlite/storage.py:146-170 | One empty segment at offset 0. |
| WriteAheadLogs.WriteAheadLog.Append | brokerlite/storage.py:198-213 | Starts a segment exactly when the active one has reached the configured size; the entry is last in the active segment, at the returned offset, and counts its bytes and 64. |
| WriteAheadLogs.WriteAheadLog.Read | brokerlite/storage.py:215-234 | Returns exactly the first n entries of the flat log at or above the offset. |
| WriteAheadLogs.WriteAheadLog.Sweep | brokerlite/storage.py:271-281 | The popping loop performs the specified retention and counts what it drops. |
| WriteAheadLogs.WriteAheadLog.ApplyRetention | brokerlite/storage.py:263-281 | The same from the configured age; nothing when retention is off. |
| WriteAheadLogs.WriteAheadLog.AllEntries | brokerlite/storage.py:286-288 | Reading segment by segment gives the flat log. |
| WriteAheadLogs.WriteAheadLog.Rewrite | brokerlite/storage.py:301-306 | A new segment with the survivors, renumbered from the first survivor's offset. |
| WriteAheadLogs.WriteAheadLog.Compact | brokerlite/storage.py:283-309 | Performs the specified compaction and returns the number of superseded entries. |
| Bytes.BigEndianDigits | brokerlite/protocol.py:77-83 | Byte i of a field of width w is n / 256^(w-1-i) mod 256: the most significant first. |
| Bytes.FromBigEndianSums | brokerlite/protocol.py:93-95 | A field stands for the sum of its bytes, each times its place value. |
| Bytes.TwosComplement | brokerlite/serializer.py:91-91 | A signed field holds the number modulo its size, and stands for the number in range that is congruent. |
| Bytes.ValidUtf8Iff | brokerlite/serializer.py:94-96 | The octet sequences that decode as text are exactly the encodings of sequences of Unicode scalar values. |
| Bytes.DecodeEncode | brokerlite/serializer.py:85-96 | A number that fits is recovered from its big-endian field. |
| Bytes.EncodeDecode | brokerlite/protocol.py:77-83 | Every field is the encoding of the number it decodes to. |
| BinarySerializer.PackedScalar | brokerlite/serializer.py:85-99 | The wire format of scalars and strings, byte by byte: tag 0; tag 1 and a byte 0 or 1; tag 2 and eight digits of the number modulo 2^64; tag 3 and the double; tags 4 and 5, four digits of the length, and the bytes. |
| BinarySerializer.PackedContainer | brokerlite/serializer.py:100-109 | The wire format of lists, tuples (tag 6) and dictionaries (tag 7): four digits of the count, then the encodings of what they hold, keys before their values, in order. |
| BinarySerializer.UnpackForeignBytes | brokerlite/serializer.py:113-156 | Tags from 8 on are unknown, and any byte but 0 is a true flag. |
| BinarySerializer.ContainerKeyFails | brokerlite/serializer.py:150-153 | A list or dictionary where a key should be raises. |
| BinarySerializer.NumericKeys | brokerlite/serializer.py:153-153 | Numbers are one key exactly if they are equal, whatever their types; False is 0 and True is 1; NaN is no key twice. |
| BinarySerializer.DoubleLaws | brokerlite/serializer.py:125-127 | Which number a double is, by its sign, exponent and fraction, over all patterns. |
| BinarySerializer.AssignOld | brokerlite/serializer.py:153-153 | A key that is there already keeps its place and its spelling; only its value changes. |
| BinarySerializer.RoundTrip | brokerlite/serializer.py:85-156 | Behind any prefix and before any suffix, unpacking what was packed gives the value, tuples as lists, and the position just after it. |
| BinarySerializer.RoundTripIffScalarKeys | brokerlite/serializer.py:146-154 | A packable value survives the round trip if and only if no dictionary in it has a tuple as a key; otherwise unpacking raises. |
| BinarySerializer.TupleKeyFails | brokerlite/serializer.py:150-153 | A dictionary with a tuple key packs and cannot be unpacked. |
| BinarySerializer.PrefixFree | brokerlite/serializer.py:85-156 | No encoding of any value, whatever its keys, is a proper prefix of another, and equal encodings read back equal. |
| BinarySerializer.OneEncodingAt | brokerlite/serializer.py:85-156 | At one place in any data there is at most one encoding: two values whose encodings start there have the same length and read back equal. |
| BinarySerializer.PackIffEncodable | brokerlite/serializer.py:85-111 | Packing fails exactly on integers outside 64 bits, lengths outside 32 bits and foreign types, at any depth. |
| BinarySerializer.UnpackPacked | brokerlite/serializer.py:113-156 | Unpacking an encoding found anywhere in any data has exactly that outcome, the failing one included. |
| BinarySerializer.StepsBounded | brokerlite/serializer.py:113-156 | On arbitrary bytes, whatever counts they claim, unpacking reads no more tags than there are bytes from its start to where it stops; the tags are those that `UnpackValue` counts. |
| BinarySerializer.Unpack | brokerlite/serializer.py:113-156 | A successful unpack ends behind where it began (and terminates on every input). |
| BinarySerializer.UnpackCut | brokerlite/serializer.py:131-137 | A truncated encoding of any value unpacks if and only if no dictionary in it has a tuple as a key and it ends in a string that keeps its header and loses whole characters (or any bytes); the reported end then lies beyond the data. |
| BinarySerializer.TruncatedBytesAreAccepted | brokerlite/serializer.py:134-137 | A byte string that lost its last byte unpacks, shorter. |
| BinarySerializer.AssignNew | brokerlite/serializer.py:153-153 | Assigning a key unequal to all others appends it. |
| BinarySerializer.PackAll | brokerlite/serializer.py:99-103 | The list loop computes the specified encoding. |
| BinarySerializer.PackPairs | brokerlite/serializer.py:104-109 | The dictionary loop computes the specified encoding. |
| BinarySerializer.PackValue | brokerlite/serializer.py:85-111 | The type switch computes the specified encoding, or fails with it. |
| BinarySerializer.UnpackAll | brokerlite/serializer.py:138-145 | The list loop with its threaded offset computes the specified decoding. |
| BinarySerializer.UnpackPairs | brokerlite/serializer.py:146-154 | The dictionary loop, equal keys overwriting in place, computes the specified decoding. |
| BinarySerializer.UnpackValue | brokerlite/serializer.py:113-156 | The tag switch computes the specified decoding, or fails with it, and reads exactly the specified number of tags. |
| Frames.WireLayout | brokerlite/protocol.py:69-84 | A frame on the wire: bytes 0-3, 4-5, 6-7 and 8-11 are the digits, most significant first, of 8 plus the payload length, the api key, the version, and the correlation id modulo 2^32; then the payload. |
| Frames.ExtractionIff | brokerlite/protocol.py:104-121 | A buffer waits exactly while the announced bytes are not all there; a frame that is there raises exactly if it is shorter than a header or its api key is above 18. |
| Frames.ExtractedFields | brokerlite/protocol.py:86-102 | What an extracted frame holds, read off the bytes of the buffer. |
| Frames.ReadOneFrame | brokerlite/protocol.py:104-121 | A frame at the head of a buffer is extracted whole, with everything behind it as the rest. |
| Frames.ReadPartialFrame | brokerlite/protocol.py:110-117 | Every strict prefix of a frame is kept waiting. |
| Frames.ReencodeExtracted | brokerlite/protocol.py:73-121 | Re-encoding an extracted frame and adding the rest gives the buffer back. |
| Frames.ReadExtends | brokerlite/protocol.py:104-121 | More bytes at the end change neither an extraction nor a malformed verdict. |
| Frames.DrainConserves | brokerlite/server.py:71-77 | What a pass dispatches plus what it leaves is the buffer, and it stops only at an incomplete or malformed frame. |
| Frames.DrainExtends | brokerlite/server.py:71-77 | Processing early and going on later is the same as processing once. |
| Frames.ChunkingIsInvisible | brokerlite/server.py:52-77 | For any bytes at all, how they are cut into chunks changes neither what is dispatched, nor whether it fails, nor the buffer left over. |
| Frames.NothingLostInTransit | brokerlite/server.py:64-77 | On an open connection the dispatched frames and the buffer are all the bytes received, and the buffer is incomplete. |
| Frames.StreamReassembly | brokerlite/server.py:64-77 | For every list of frames and every cutting, the handler has always dispatched a prefix of the frames and holds a strict prefix of the next; at the end it has dispatched exactly them. |
| Frames.ClientHandler.constructor | brokerlite/server.py:49-50 | An empty buffer on an open connection. |
| Frames.ClientHandler.ProcessBuffer | brokerlite/server.py:71-77 | The extraction loop computes one specified pass. |
| Frames.ClientHandler.Handle | brokerlite/server.py:52-69 | The receive loop computes the specified feed, up to end of stream or a frame that raises. |
| MessageQueues.RunBalances | brokerlite/queue.py:57-145 | In every interleaving of enqueue, expire, pop, ack, nack and purge, the accepted messages are, as a multiset, exactly those waiting, in flight, acknowledged, purged, or displaced in flight by a namesake. |
| MessageQueues.NothingOverwritten | brokerlite/queue.py:87-87 | With unique identifiers nothing is displaced. |
| MessageQueues.Conservation | brokerlite/queue.py:57-145 | With unique identifiers each accepted message is in exactly one of waiting, in flight, acknowledged and purged, exactly once, and the enqueue counter is the sum of the four. |
| MessageQueues.HiddenUntilReleased | brokerlite/queue.py:71-131 | A message in flight stays there with its deadline, invisible to pops, until it is acknowledged, rejected, or a sweep runs at or after its deadline. |
| MessageQueues.NotHandedOutAgain | brokerlite/queue.py:71-131 | One consumer at a time: after a pop, under any other steps, no pop hands the same message out again until it is acknowledged, rejected, or a sweep runs at or after the deadline the pop gave it. |
| MessageQueues.DequeueHides | brokerlite/queue.py:71-131 | With unique identifiers: what a call of `dequeue` hands out is not handed out again by any later step, unless it is settled or a sweep comes at or after the call's time plus the queue's visibility timeout, or the requested one if that is not zero. |
| MessageQueues.NackUndoesPop | brokerlite/queue.py:80-116 | Rejecting what was just handed out restores the queue as it was before the pop, except for the counter of pops. |
| MessageQueues.FirstInFirstOut | brokerlite/queue.py:57-131 | While nothing is returned or purged, sweeps that find nothing expired included, messages are handed out in enqueue order. |
| QueueOrder.FirstDeliveriesInOrder | brokerlite/queue.py:57-145 | With unique identifiers: in every run, whatever is rejected, expires or is purged, first deliveries followed by what nobody was handed yet are the accepted messages in enqueue order, save those purged unseen. |
| QueueOrder.OneAtATimeKeepsOrder | brokerlite/queue.py:57-145 | With unique identifiers: if nothing is handed out while something is in flight, then acknowledged, in flight and waiting messages are, in this order, the accepted ones in enqueue order, save the purged, however often they come back. |
| QueueOrder.RedeliveryKeepsOrderIff | brokerlite/queue.py:104-131 | With unique identifiers: from every reachable queue, acknowledging and returning messages in any way keeps every two of them in order if and only if at most one is in flight. |
| MessageQueues.ReturnsFitIff | brokerlite/queue.py:104-131 | From every reachable queue, nothing that happens without a further enqueue exceeds the capacity if and only if there is room for everything that waits or is in flight. |
| MessageQueues.CautiousNeverExceeds | brokerlite/queue.py:57-131 | A caller that enqueues only while there is such room never sees the capacity exceeded. |
| MessageQueues.CapacityCanBeExceeded | brokerlite/queue.py:104-115 | A run that leaves two messages waiting in a queue of size one. |
| MessageQueues.MessageQueue.constructor | brokerlite/queue.py:27-43 | An empty queue. |
| MessageQueues.MessageQueue.Enqueue | brokerlite/queue.py:57-69 | Refused exactly when the queue has a bound and that many wait; otherwise the message, stamped with the time, is last and counted. |
| MessageQueues.MessageQueue.RequeueTimedOut | brokerlite/queue.py:118-131 | The loop that pops expired identifiers one by one performs the specified expiry: exactly what has reached its deadline is in front again, the latest filed first. |
| MessageQueues.MessageQueue.PopNext | brokerlite/queue.py:80-89 | The second critical section of dequeue performs the specified pop. |
| MessageQueues.MessageQueue.Dequeue | brokerlite/queue.py:71-89 | Without interference a dequeue is an expiry and then a pop; what it hands out is in flight until the queue's visibility timeout has passed, or the requested one if that is not zero. |
| MessageQueues.MessageQueue.Acknowledge | brokerlite/queue.py:91-102 | Performs the specified step and reports whether the message was in flight. |
| MessageQueues.MessageQueue.Nack | brokerlite/queue.py:104-116 | Performs the specified step: the message is in front again. |
| MessageQueues.MessageQueue.Purge | brokerlite/queue.py:140-145 | Empties what waits, leaves what is in flight, and counts. |
| Visibility.ExpirySplits | brokerlite/queue.py:123-130 | A sweep splits the messages in flight into returned and kept, losing none. |
| Visibility.PutIn | brokerlite/queue.py:87-87 | Filing a message adds it, or exchanges it for the one filed under the same identifier. |
| Visibility.PoppingExpired | brokerlite/queue.py:123-130 | Popping the expired identifiers in turn leaves exactly the flights that are not expired, in order. |
| PriorityQueues.ComparisonsAreDecided | brokerlite/queue.py:202-262 | In every run the sequence numbers of waiting entries are distinct and below the counter, so comparing two entries never reaches their messages, and the waiting list is strictly ordered. |
| PriorityQueues.PopTakesBest | brokerlite/queue.py:215-228 | Every pop takes a message of the highest waiting priority, the earliest arrival among those. |
| PriorityQueues.EachPriorityIsFirstInFirstOut | brokerlite/queue.py:202-262 | In every run, redeliveries included, the messages of one priority are handed out in arrival order, followed by those still waiting. |
| PriorityQueues.DrainIsStableSort | brokerlite/queue.py:202-262 | Filling and then draining, by any steps that put nothing back, hands out the stable sort of the accepted messages by descending priority. |
| PriorityQueues.DequeuesAreStableSort | brokerlite/queue.py:215-228 | As many calls of `dequeue` as there are messages, each a sweep and a pop, none so late that an earlier message has timed out, hand out that stable sort. |
| PriorityQueues.DequeuesDrain | brokerlite/queue.py:215-228 | Such calls put nothing back, and each takes one message until none is left. |
| PriorityQueues.StableSortIsUnique | brokerlite/queue.py:172-177 | There is only one such order: two descending lists that agree on every priority are equal. |
| PriorityQueues.DrainHandsOut | brokerlite/queue.py:215-262 | While nothing arrives, idle sweeps included, what was handed out and what waits is the waiting list in its order. |
| PriorityVisibility.DequeueHides | brokerlite/queue.py:215-262 | What a call of `dequeue` hands out, if its identifier was enqueued once, is not handed out again by any later step, unless it is settled or a sweep comes at or after the call's time plus the queue's visibility timeout, or the requested one if that is not zero. |
| PriorityVisibility.RunCopies | brokerlite/queue.py:202-262 | In every run an identifier is waiting and in flight together at most as often as it was enqueued. |
| PriorityQueues.ReturnsFitIff | brokerlite/queue.py:237-262 | From every reachable queue, nothing that happens without a further enqueue exceeds the capacity if and only if there is room for everything that waits or is in flight. |
| PriorityQueues.CautiousNeverExceeds | brokerlite/queue.py:202-262 | A caller that enqueues only while there is such room never sees the capacity exceeded. |
| PriorityQueues.PriorityQueue.constructor | brokerlite/queue.py:179-195 | An empty queue. |
| PriorityQueues.PriorityQueue.PushMessage | brokerlite/queue.py:210-212 | A push on the heap inserts into the order with the next sequence number. |
| PriorityQueues.PriorityQueue.Enqueue | brokerlite/queue.py:202-213 | Refused exactly when the queue has a bound and that many wait; otherwise an entry with the negated priority and the next sequence number is added and counted. |
| PriorityQueues.PriorityQueue.RequeueTimedOut | brokerlite/queue.py:248-262 | The loop performs the specified expiry: every expired message arrives again. |
| PriorityQueues.PriorityQueue.PopNext | brokerlite/queue.py:218-228 | The head of the heap is the head of the order, and goes into flight. |
| PriorityQueues.PriorityQueue.Dequeue | brokerlite/queue.py:215-228 | Without interference a dequeue is an expiry and then a pop; what it hands out is in flight until the queue's visibility timeout has passed, or the requested one if that is not zero. |
| PriorityQueues.PriorityQueue.Acknowledge | brokerlite/queue.py:230-235 | Removes the message from flight and reports whether it was there. |
| PriorityQueues.PriorityQueue.Nack | brokerlite/queue.py:237-246 | The message arrives again with a new sequence number. |
| Heaps.HeapPush | brokerlite/queue.py:211-211 | The sift loop keeps a heap and adds exactly the entry. |
| Heaps.HeapPop | brokerlite/queue.py:224-224 | The sift loops keep a heap and take out exactly one entry that no entry comes before. |
| AckManagers.EpisodesSettleOnce | brokerlite/ack.py:71-163 | In every run each identifier was opened as often as it was acknowledged, redelivered or dead-lettered, plus once if still pending; the counters add up. |
| AckManagers.AttemptsAreTracks | brokerlite/ack.py:82-94 | The attempts of a pending message are exactly the tracks since the step that last settled it. |
| AckManagers.DeadLettersIff | brokerlite/ack.py:108-163 | A step dead-letters an identifier if and only if it rejects it or finds it late and it was tracked at least `max_attempts` times within the episode. |
| AckManagers.AttemptsAreForgotten | brokerlite/ack.py:82-163 | In every run in which a message is settled between any two tracks of it, it is never dead-lettered if two or more attempts are allowed and never redelivered if at most one is. |
| AckManagers.RejectedForeverIff | brokerlite/ack.py:108-132 | n deliveries, of any messages, to any consumers and at any times, each rejected before the next: all n are dead-lettered if at most one attempt is allowed, and all n redelivered otherwise. |
| AckManagers.PendingUntilSettled | brokerlite/ack.py:71-163 | From a track on, and while the message is not tracked again, it is pending with that message, consumer, time and deadline (now plus the given timeout, or plus the manager's if none or zero is given) exactly until the first step that acknowledges it, rejects it, or sweeps at or after the deadline. |
| AckManagers.SweepSettlesIff | brokerlite/ack.py:134-163 | So a sweep returns or dead-letters it if and only if it is still pending and the sweep does not come before that deadline. |
| AckManagers.SweepSplits | brokerlite/ack.py:134-163 | A sweep splits the pending entries exactly into kept, returned and dead-lettered by deadline and attempts, and leaves nothing late. |
| AckManagers.AckManager.constructor | brokerlite/ack.py:54-69 | Nothing pending, all counters 0. |
| AckManagers.AckManager.Track | brokerlite/ack.py:71-94 | Files the message with its consumer and time, one attempt more or the first, and the deadline now plus the given timeout, or plus the manager's if none or zero is given. |
| AckManagers.AckManager.Acknowledge | brokerlite/ack.py:96-106 | Performs the specified step and reports whether the message was pending. |
| AckManagers.AckManager.NegativeAcknowledge | brokerlite/ack.py:108-132 | Returns the message, or hands it to the dead letter handler when its attempts are used up. |
| AckManagers.AckManager.CheckTimeouts | brokerlite/ack.py:134-163 | The loop returns the late messages with attempts left, in order, dead-letters the other late ones, and counts both. |
| RateLimiters.TokensStayWithin | brokerlite/backpressure.py:37-72 | Over every run with requests that are not negative and a clock that does not go back, tokens stay between 0 and the burst. |
| RateLimiters.TokensAreConserved | brokerlite/backpressure.py:37-72 | Tokens granted plus tokens left never exceed the tokens at the start plus rate times elapsed time. |
| RateLimiters.WindowBound | brokerlite/backpressure.py:37-72 | After any history, the tokens granted in any window of events are at most the burst plus rate times the length of the window. |
| RateLimiters.FullBucketGrantsIff | brokerlite/backpressure.py:37-72 | From a full bucket, every request of a schedule is granted if and only if the requests of each of its windows sum to at most the burst plus rate times the length of the window. |
| RateLimiters.GrantedIffFits | brokerlite/backpressure.py:37-72 | From any bucket, every request is granted if and only if this holds of every window and what is asked for up to any event is in the bucket at the start or accrues by then. |
| RateLimiters.PacedScheduleIsGranted | brokerlite/backpressure.py:37-89 | A client whose every request asks for no more than the burst and for what has accrued since its request before is never rejected, however often the bucket is observed. |
| RateLimiters.ObservationNeutrality | brokerlite/backpressure.py:64-89 | Removing all observations from a run changes no decision. |
| RateLimiters.RateLimiter.constructor | brokerlite/backpressure.py:23-35 | A full bucket; a burst that is not positive is the rate cut to an integer, towards zero. |
| RateLimiters.RateLimiter.RefillNow | brokerlite/backpressure.py:64-72 | Performs the specified refill. |
| RateLimiters.RateLimiter.Acquire | brokerlite/backpressure.py:37-49 | Performs the specified step and counts the decision. |
| RateLimiters.RateLimiter.AvailableTokens | brokerlite/backpressure.py:74-78 | Refills and returns what is there. |
| Deduplication.WindowIsExact | brokerlite/middleware.py:149-161 | Over every input the set is the set of the list, the list is exactly the last W accepted ids, and the next id passes if and only if it is not among them. |
| Deduplication.AcceptedAreDistinct | brokerlite/middleware.py:149-161 | Any W+1 consecutive accepted ids are pairwise distinct. |
| Deduplication.ZeroWindowPassesAll | brokerlite/middleware.py:157-159 | A window of zero passes everything. |
| Deduplication.DeduplicationMiddleware.constructor | brokerlite/middleware.py:143-147 | Nothing remembered. |
| Deduplication.DeduplicationMiddleware.Process | brokerlite/middleware.py:149-161 | The eviction loop performs the specified step; exactly remembered ids are dropped and counted. |

## Left out

- Sockets, the accept loop, threads and locks, request handlers and the client: input and output. A method that holds one lock throughout is one step; `dequeue` takes its lock twice and is two steps. A rebalance is one step in `ConsumerProtocol` and a sequence of revocations and assignments in `Interleavings`.
- JSON payloads (`Message.to_bytes`, `Request`, `JsonSerializer`): payloads are opaque bytes.
- The SQLite metadata store of the write-ahead log.
- `seek`, `seek_to_beginning` and `seek_to_end`: they set positions by hand and deliberately break the delivery guarantee.
- Broker, admin and command line; dead letter queue, producer, metrics, retry and utilities; `Schema` and `SchemaRegistry`: dictionaries, counters and short formulas that would only add easy members.
- Read-only accessors and snapshots (`depth`, `snapshot`, `consumer_lag`, `read_at`, `total_bytes`, ...), subscriber sets of a topic, message headers, timestamps of producers and the topic name stamped by `publish`.
- The retention and compaction loops of a topic over its partitions: in runs of a topic they are single steps per partition, each at its own time.
- AtLeastOnce.AtLeastOnceDelivery: runs contain no compaction (`Partitions.CompactedReadSkips` shows what it does to reads), and no consumer joins a group with a position ahead of its commit (`JoinSafety.JoinIsSafeIff` says exactly which joins are harmless, `ProtocolLimits.SecondGroupMissesMessages` shows one that is not).
- Interleavings.AtLeastOnceInterleaved: a poll, a commit and an assignment are one move each, although they go through their partitions one after the other; a join changes a consumer's group without that consumer's lock, and the model does not let it do so in the middle of a poll or commit. The other theorems about groups are about rebalances in one step.
- Ownership.ExclusiveOwnership: runs in which a consumer joins a group while another one still lists it (`OwnershipSafety.JoinKeepsOwnersIff` says that these are exactly the harmful joins, `ProtocolLimits.SecondGroupAbandonsPartition` shows one), and a partition subscribed twice (`Ownership.ExclusiveOwnershipIff` covers it). A consumer is its identifier: a second object under an identifier in use is not a state of the protocol (`Consumers.NamesakesHoldOnePartition` shows what it does).
- GroupRefinement.Join: all consumer objects have identifiers of their own and all partition objects topic and number of their own.
- Consumers.Consumer.Poll: one time per call, where the source reads the clock up to three times; likewise one time per append, and one for all entries rewritten by `WriteAheadLogs.WriteAheadLog.Compact`.
- Messages are values: aliasing of a message object that is appended twice, and the fields `publish` writes into the caller's object before it fails, are not modelled.
- Consumers.ConsumerGroup.Subscribe: the list of partitions is taken as a value; later changes of the caller's list are not seen.
- BinarySerializer.RoundTrip: a float is its eight-byte pattern; text is its UTF-8 octets, so a string with lone surrogates (which the source refuses to encode) is not a value of the model; integer subclasses and nesting beyond Python's recursion limit are not modelled.
- Frames.ClientHandler.Handle: dispatching a frame has no effect on the connection other than being recorded; the server's running flag is not modelled.
- RateLimiters.WindowBound: arithmetic is exact, without the rounding of floats; `wait`, which sleeps, is not modelled.
- Deduplication.WindowIsExact: window sizes are not negative.
- Error messages and the reason strings given to the dead letter handler; whether a handler is installed.
- Topics.Topic.Publish: a number of partitions below zero, which the source treats like zero, is not a value of the model.
