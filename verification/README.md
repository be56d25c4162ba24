# Verified models of the Redis cores

Dafny models of the parts of Redis 5.0.6 that carry its hard guarantees, with proofs. Code that works by changing
fields and arrays is written as classes and loops and proved against functions on values; what the code promises is
proved about those functions, over every input and every run.

`dafny verify dfyconfig.toml` checks everything.

## What is modelled

**Hash table** (`src/dict.c`). `DictTables` has the two tables with incremental rehashing as a value and proves that
every operation refines a map in every rehash state. `DictScan` has the reverse-binary cursor and proves that a scan
misses nothing that is present throughout, whatever is resized between its calls; `DictScanOnce` says what is emitted,
and that an unchanging dictionary is emitted exactly once. `DictIterator` is about safe iterators, where each entry
comes exactly once even if the dictionary changes. `DictObject` and the class in `DictIterator` are the loops.

**Cluster** (`src/cluster.c`). `ClusterView` states routing and CLUSTER SETSLOT on one node's view, `ClusterRoute` the
loops of getNodeByQuery. `Reshard` is live resharding between two nodes, MIGRATE in single messages, and refines one
key-value map; `ReshardRepeat` has a run where it does not, and `ReshardRedirect` says when clients that follow MOVED
and ASK are served. `ClusterSlots` keeps slot table and bitmaps in agreement through every operation; `ClusterClaims`
shows that slot claims converge. `Election` and `ElectionHandlers` are voting and failover, `EpochCollision` the
resolution of equal config epochs.

**Append-only file** (`src/aof.c`). `AofFormat`, `AofLoader`, `AofPrefix` and `AofTransactions` print and load
commands, for every byte prefix of a log. `AofRewrite` and `AofReplay` write a dataset as commands and replay them.
`AofBuffer`, `AofFlush`, `AofHandoff` and `AofServer` are the buffers, the flush and the rewrite in a child process.
`AofExpire` makes relative expires absolute. `AofRestart` puts them together: a server restarted from an installed
file has the live data.

**Blocked clients** (`src/blocked.c`, with the serving function of `src/t_list.c`). `Blocked` and `BlockedObject`,
`BlockedServe` on which client gets which element, and `BlockedOrder` with a run in which clients change places.

**Bits** (`src/bitops.c`, `src/crc64.c`). `BitStrings`, `BitFields`, `BitOverflow`, `Popcount`, `Bitpos`, `BitOp`,
`BitOpBits` and `Crc64` with its table (`Crc64Table`). 64-bit words are naturals below 2^64 with their bits (`Words`),
or bit vectors where that is simpler.

## Where the code falls short of what one would expect

- An election resets its vote count when it is scheduled and moves its epoch when it asks for votes. Votes that
  arrive in between are counted for the new epoch. Two replicas can win one epoch if such stale votes make up what two
  majorities have in common: one vote for an odd number of masters, two for an even number
  (`Election.TwoWinnersNeedStale`). With just that many it happens, for every number of masters
  (`Election.LateVotesElectTwo`).
- A replica accepts CLUSTER ADDSLOTS. When its master then loses its last slot to a third node, an assertion fails
  (`ClusterSlots.AddSlotsOnReplica`); `ClusterSlots.ClusterState.UpdateSlotsConfigWith` says exactly when.
- SORT and GEORADIUS with STORE overwrite an existing key without signalling it, so that a client blocked on the key
  goes on waiting for elements that are there (`Blocked.OverwriteStarves`). `Blocked.OverwriteIff` has the exact
  condition, and `Blocked.RunFeeds` what holds in every run.
- Clients blocked for another type than the key's lose their turn if and only if they stand on both sides of the
  client at which the serving loop stops, which is a function of the queue and what is stored
  (`Blocked.OthersKeepOrderIff`, `Blocked.OthersKeepOrderZSetIff`). `BlockedOrder.OthersChangePlaces` is a run in which
  it happens, as the comment at `src/blocked.c:237-246` admits it can.
- A MIGRATE that names a key twice sends it twice, and the second RESTORE can bring back a key that a client has deleted
  on the target in between (`ReshardRepeat.RepeatedKeyReturns`). Without repeated keys it cannot
  (`Reshard.ReshardRefinesMap`).
- SETSLOT NODE on the source of a slot before its target, or SETSLOT MIGRATING before IMPORTING, leaves keys for which
  no node is ready, and clients are sent to and fro for as long as they follow (`ReshardRedirect.RedirectsReachIff`,
  `ReshardRedirect.SourceFirstLoops`). With the target first they are always served within two redirections
  (`ReshardRedirect.ClientsAlwaysServed`).
- A relative expire is made absolute when the command is fed, not when it is executed. After a restart it is later by
  the time between the two (`AofExpire.FedLater`, `AofExpire.FedExactIff`).
- When the append-only file ends inside a command of a transaction, loading applies nothing of the transaction but
  truncates the file behind the last complete command, so that MULTI stays (`AofTransactions.CutKeepsMulti`).
  `AofTransactions.CutOffsetIff` says exactly when the offset is aligned.
- BITFIELD SET with OVERFLOW SAT gives the maximum of a signed field for very low values, because the check subtracts
  before it compares (`BitOverflow.SignedSetExample`, `BitOverflow.SignedSetCheckIff`); C leaves that subtraction
  undefined, and the model lets it wrap.
- BITFIELD SET with OVERFLOW SAT gives the maximum of an unsigned field for every negative value, because the value is
  converted to an unsigned number before it is checked (`BitOverflow.UnsignedSetExample`,
  `BitOverflow.UnsignedSetCheckIff`).
- Signed BITFIELD fields of 64 bits are read and wrapped with a shift by 64, which C leaves undefined. They come out
  right if and only if that shift gives nothing or just the top bit (`BitOverflow.WideFieldIff`).

## Model

| member | source | states |
|---|---|---|
| DictTables.SlotIsMod | src/dict.c:963-986 | for a table of 2^k buckets, masking the hash with `size-1` is the remainder by the size |
| DictTables.NextPower | src/dict.c:944-954 | the least power of two that is at least the asked size and at least 4, or LONG_MAX+1 |
| DictTables.MoveBucketKeeps | src/dict.c:207-220 | moving one chain to the new table keeps every binding and the counts, and empties the bucket |
| DictTables.RehashIndexInside | src/dict.c:192-201 | while entries are left in the old table, `rehashidx` points inside it: the assertion in the loop never fires |
| DictTables.RehashKeeps | src/dict.c:188-231 | `dictRehash` with any n keeps the invariant, the map and the size, and moves the index forward until it is done |
| DictTables.RehashAmount | src/dict.c:188-231 | it moves n full buckets or passes 10n empty ones, and is done before that only if no more than n full ones were left |
| DictTables.StepKeeps | src/dict.c:260-262 | one rehash step keeps the map; with a safe iterator it does nothing, otherwise it moves on or ends the rehash |
| DictTables.ExpandKeeps | src/dict.c:147-177 | expanding keeps the map and the counts, whether it starts a rehash, is the first allocation or is refused |
| DictTables.ExpandIfNeededKeeps | src/dict.c:922-941 | growing on demand keeps the map, leaves a table to insert into, and fails exactly at capacity |
| DictTables.GrowthSize | src/dict.c:922-941 | when the table grows, and that the new one has at least two and less than four buckets an entry, four at first |
| DictTables.NextPowerLeast | src/dict.c:944-954 | no smaller power of two of at least 4 would do |
| DictTables.ShrinkSize | src/dict.c:135-144 | `dictResize` allocates the least table that holds the entries, refuses if the table is that one, and so shrinks every larger one |
| DictTables.InsertKeeps | src/dict.c:300-318 | a new entry at the head of its chain adds one binding and nothing else |
| DictTables.AddRefines | src/dict.c:265-318 | adding succeeds if and only if the key is absent (and the table can grow), binds it, and changes no other key |
| DictTables.ExistingMeans | src/dict.c:963-986 | the entry reported as existing is that of the key, except at capacity, which is noticed before the search |
| DictTables.FindRefines | src/dict.c:476-495 | the lookup finds exactly what the map binds, in every rehash state, although it may rehash |
| DictTables.DeleteRefines | src/dict.c:364-405 | deleting removes exactly that key, reports whether it was there, and adjusts the size |
| DictTables.ReplaceRefines | src/dict.c:325-346 | replacing binds the key to the new value, says whether it was new, and changes no other key, unless the table is at capacity: then there is no entry, and nothing changes |
| DictTables.SizeZero | src/dict.c:369 | the counters are zero exactly when the map is empty, which is what the early returns rely on |
| DictObject.NextPowerOf | src/dict.c:944-954 | the doubling loop ends and computes the next power |
| DictObject.Dict.constructor | src/dict.c:111-131 | a new dictionary is empty and satisfies the invariant |
| DictObject.Dict.MoveOne | src/dict.c:206-220 | the entry-by-entry loop moves a whole chain |
| DictObject.Dict.SkipEmpty | src/dict.c:198-201 | the loop over empty buckets stays inside the table and stops when the visit budget is spent |
| DictObject.Dict.RehashBuckets | src/dict.c:188-231 | the contents do not change, the new state is that of the specification, and the index advances |
| DictObject.Dict.Step | src/dict.c:260-262 | the contents do not change |
| DictObject.Dict.ExpandTo | src/dict.c:147-177 | the contents do not change |
| DictObject.Dict.Shrink | src/dict.c:135-144 | the contents do not change |
| DictObject.Dict.Grow | src/dict.c:922-941 | the contents do not change |
| DictObject.Dict.Locate | src/dict.c:963-986 | the search over one or two tables finds the binding |
| DictObject.Dict.AddEntry | src/dict.c:265-318 | contents become the old ones plus the new binding, if it was added |
| DictObject.Dict.AddRaw | src/dict.c:292-318 | the same, and reports the existing entry |
| DictObject.Dict.FindEntry | src/dict.c:476-495 | returns the binding and leaves the contents alone |
| DictObject.Dict.DeleteEntry | src/dict.c:364-405 | contents become the old ones without the key |
| DictObject.Dict.UnlinkEntry | src/dict.c:376-396 | the unlinking loop takes one entry out of its chain |
| DictObject.Dict.ReplaceEntry | src/dict.c:325-346 | contents become the old ones with the key bound to the value, or stay when there is no entry to overwrite |
| DictObject.Dict.ScanFrom | src/dict.c:838-917 | emits the buckets of the specification, only bindings and no key twice; the reversed cursor strictly increases or the scan is over |
| DictObject.Dict.ScanExpansions | src/dict.c:894-911 | the do-while loop over the larger table ends and visits all expansions of the smaller bucket |
| DictScan.ReverseBits | src/dict.c:744-752 | the shift-and-mask loop computes the bit reversal |
| DictScan.CursorStep | src/dict.c:868-878 | the next cursor is the successor of the bucket in reversed order, with the bits above the mask cleared |
| DictScan.CursorAdvances | src/dict.c:868-878 | the reversed cursor strictly increases until it wraps to zero |
| DictScan.PrefixIsBucket | src/dict.c:838-917 | hashes with the same reversed prefix as the cursor are exactly those of its bucket |
| DictScan.CursorSkips | src/dict.c:868-878 | from the cursor on, a step passes exactly the hashes of the bucket it visits |
| DictScan.ScanLargeFacts | src/dict.c:894-911 | the inner loop visits every bucket of the larger table that a bucket of the smaller expands to |
| DictScan.NextInSmaller | src/dict.c:894-911 | the cursor after those expansions is the one the smaller table alone would give |
| DictScan.ScanAdvances | src/dict.c:838-917 | one call, rehashing or not, moves the reversed cursor forward or ends the scan |
| DictScan.ScanCovers | src/dict.c:838-917 | one call emits every entry whose hash it passes |
| DictScan.ScanComplete | src/dict.c:838-917 | whatever happens between the calls of a full scan, a key present at every call is emitted with its value |
| DictScan.FixedTableScan | src/dict.c:838-917 | over a fixed table the scan takes one call per bucket and visits each bucket exactly once |
| DictScanOnce.LargeEmits | src/dict.c:894-911 | the expansions in the larger table emit no entry twice, each from its own bucket, all of one bucket of the smaller table |
| DictScanOnce.ScanEmits | src/dict.c:838-917 | one call emits only bindings and no key twice, rehashing or not |
| DictScanOnce.ScanExact | src/dict.c:838-917 | the calls from cursor 0 until 0 on an unchanging dictionary, rehashing or not, emit each binding exactly once and nothing else |
| DictIterator.NextFacts | src/dict.c:562-595 | each call returns a pending entry once, or nothing is pending |
| DictIterator.ActOk | src/dict.c:542-606 | finds, adds and deletes of the current entry keep the iterator usable |
| DictIterator.ActTracked | src/dict.c:542-606 | each such operation keeps every surviving entry either returned once or still pending |
| DictIterator.SafeIteration | src/dict.c:542-606 | in any interleaving, every key present from start to end is returned exactly once |
| DictIterator.SafeIterator.SeekBucket | src/dict.c:566-585 | the bucket search of dictNext ends at the next non-empty bucket of either table |
| DictIterator.SafeIterator.NextKey | src/dict.c:562-595 | dictNext takes the step of the specification and keeps the iterator usable |
| ClusterRoute.GetNodeByQuery | src/cluster.c:5453-5623 | the key-by-key loops with their flags and counters decide as the rule on the whole set of keys does |
| ClusterRoute.NoteKey | src/cluster.c:5495-5561 | the flags and the missing-key count mean what the keys seen so far say; errors are final |
| ClusterRoute.NoteCommand | src/cluster.c:5493-5564 | one command of the query: its keys are added to the flags, or the verdict is an error of the whole query |
| ClusterRoute.Decide | src/cluster.c:5565-5622 | the final branches agree with the rule |
| ClusterView.StableRoutes | src/cluster.c:4365-4368 | after SETSLOT STABLE a master answers by the owner of the slot alone, with or without ASKING; other slots as before; a replica refuses |
| ClusterView.NodeRoutes | src/cluster.c:4369-4415 | SETSLOT NODE refuses exactly to give away a slot with keys, and then clients are sent to the new owner, or all served if that is us |
| ClusterView.ReplicaRoutes | src/cluster.c:5605-5617 | a replica serves its master's slots to READONLY clients that read and sends the others to its master |
| Reshard.StepRefines | src/cluster.c:4326-4421 | every event (served or redirected command, SETSLOT, RESTORE, reply) keeps the invariant and is one command on the logical map or invisible, unless it is a MIGRATE that names twice a key the source holds |
| Reshard.ReshardRefinesMap | src/cluster.c:5453-5623 | for every interleaving without such a MIGRATE the slot's final contents are one map on which the served commands were executed in order |
| ReshardRepeat.RepeatedKeyReturns | src/cluster.c:5124-5134 | a run in which a key named twice by MIGRATE is deleted on the target and comes back, which executing the served commands on one map does not give |
| Reshard.RunsWhereKeysLive | src/cluster.c:5565-5600 | a command is executed only on the node that holds all of its existing keys |
| Reshard.SourceNeverCreates | src/cluster.c:5585-5590 | once migrating, the source node gains no key of the slot, repeated keys or not |
| Reshard.OneHome | src/cluster.c:5263-5296 | a key that is not being moved is on at most one node |
| Reshard.InitialInv | src/cluster.c:4326-4421 | the state before resharding satisfies the invariant |
| ReshardRedirect.AnswersName | src/cluster.c:5587-5622 | ASK and MOVED of the source name the target, MOVED of the target names the source, and the target never answers ASK |
| ReshardRedirect.RedirectsReachIff | src/cluster.c:5587-5622 | from either node a client with one key is served within two redirections if and only if one of the nodes is ready for the key, else never |
| ReshardRedirect.ClientsAlwaysServed | src/cluster.c:4326-4421 | so in every run in which the operator sets up the target first |
| ReshardRedirect.SourceFirstLoops | src/cluster.c:4369-4415 | a run of the operator's steps after which no client with a key of the slot is served |
| ClusterSlots.SetBitTest | src/cluster.c:3634-3638 | setting a bit sets that bit only |
| ClusterSlots.ClearBitTest | src/cluster.c:3641-3645 | clearing a bit clears that bit only |
| ClusterSlots.ClusterState.constructor | src/cluster.c:430-471 | a new node knows itself and owns nothing; table and bitmaps agree |
| ClusterSlots.ClusterState.AddNode | src/cluster.c:887-893 | a node is added if it is new, without slots; table and bitmaps agree |
| ClusterSlots.ClusterState.AddSlot | src/cluster.c:3706-3711 | binds a free slot or fails; table, bitmaps and counts agree |
| ClusterSlots.ClusterState.DelSlot | src/cluster.c:3716-3723 | unbinds a bound slot or fails; the owner's bit is always set, as asserted there |
| ClusterSlots.ClusterState.DelNodeSlots | src/cluster.c:3727-3737 | unbinds exactly the slots of the node, whose count becomes zero |
| ClusterSlots.ClusterState.DelNode | src/cluster.c:906-933 | no slot, migrating or importing entry refers to the deleted node any more |
| ClusterSlots.ClusterState.UpdateSlotsConfigWith | src/cluster.c:1531-1625 | rebinds exactly the claimed slots that are free or older; replicates the sender when the last slot of our master went to it, else drops the keys of lost slots; the assertion fails if and only if we then own a slot |
| ClusterSlots.ClusterState.Rebind | src/cluster.c:1554-1591 | the slot loop: new table, whether a slot of our master was taken, which slots were lost with keys in them |
| ClusterSlots.ClusterState.SetMaster | src/cluster.c:3933-3950 | we replicate the node, or the assertion that we own no slots fails |
| ClusterSlots.ClusterState.Replicate | src/cluster.c:4578-4614 | accepted only for a known master by an empty master or a replica; the assertion fails if and only if a replica owns slots |
| ClusterSlots.AssertsOnlyReplicas | src/cluster.c:1606-1610 | a claim makes the assertion fail only on a replica that owned slots before |
| ClusterSlots.AddSlotsOnReplica | src/cluster.c:4276-4325 | a run in which a replica adds a slot and the assertion fails at the next claim |
| ClusterSlots.ClusterState.ProcessHeader | src/cluster.c:1702-1714 | a header raises the sender's epoch and applies its claim; an unchanged bitmap needs no work; says when the assertion fails |
| ClusterSlots.ClusterState.ProcessUpdate | src/cluster.c:2071-2092 | an UPDATE is ignored unless it is newer; says when the assertion fails |
| ClusterSlots.ClusterState.ReplaceYourMaster | src/cluster.c:2909-2925 | the replica becomes a master and inherits exactly its master's slots |
| ClusterSlots.ClusterState.AddSlots | src/cluster.c:4276-4325 | all or nothing: succeeds if and only if every slot is free and named once |
| ClusterSlots.ClusterState.DelSlots | src/cluster.c:4276-4325 | all or nothing: succeeds if and only if every slot is bound and named once |
| ClusterSlots.ClusterState.SetSlotMigrating | src/cluster.c:4343-4354 | the routing state changes as the resharding model says, or the command fails |
| ClusterSlots.ClusterState.SetSlotImporting | src/cluster.c:4355-4366 | the same for IMPORTING |
| ClusterSlots.ClusterState.SetSlotStable | src/cluster.c:4367-4370 | the same for STABLE |
| ClusterSlots.ClusterState.SetSlotNode | src/cluster.c:4371-4415 | the same for NODE, with the new config epoch when an imported slot is claimed |
| ClusterSlots.ClusterState.GetMaxEpoch | src/cluster.c:969-982 | the greatest of all epochs known |
| ClusterSlots.ClusterState.BumpConfigEpoch | src/cluster.c:1013-1030 | a new epoch is taken if and only if ours is unset or not the greatest |
| ClusterSlots.SameClaim | src/cluster.c:1562-1575 | a claim equal to what is known changes nothing |
| ClusterClaims.DeliverHeard | src/cluster.c:1554-1591 | once a claim was taken into account it stays so, whatever arrives later |
| ClusterClaims.ClaimsConverge | src/cluster.c:1531-1591 | in any order, with any repetition, each slot ends with its highest-epoch claimant if its first owner gives way, and unclaimed slots keep their owner |
| ClusterClaims.ConvergesIff | src/cluster.c:1569-1571 | every order gives the slot to the winner if and only if there was no owner, it claims the slot too, or its epoch is lower |
| ClusterClaims.ViewsAgree | src/cluster.c:2071-2092 | two nodes that heard the same claims in different orders agree on every claimed slot whose first owners give way, and on unclaimed ones if and only if they did before |
| Election.StepKeeps | src/cluster.c:2707-2808 | every handler keeps the election invariant: votes once per epoch, counts made of stale and of real votes |
| Election.VotesIncrease | src/cluster.c:2735-2741 | each vote a master grants is for a greater epoch than all before |
| Election.DeliverCounts | src/cluster.c:2046-2058 | a counted vote is for the present election epoch and from a voter not counted before |
| Election.TwoWinners | src/cluster.c:3096-3112 | two winners of one epoch have disjoint voters, so stale votes made up the difference to two majorities |
| Election.TwoWinnersNeedStale | src/cluster.c:2947-3116 | in every run, two winners of one epoch had at least 2*quorum - masters votes in their counts when they asked |
| Election.LateVotesElectTwo | src/cluster.c:3019-3093 | for every number of masters there is a run with exactly that many in which two replicas win one epoch |
| Election.ElectionSafety | src/cluster.c:2947-3116 | in every run in which votes are requested with an empty count, at most one replica wins an epoch |
| Election.AskTooLate | src/cluster.c:3019-3025 | with a majority of old votes in the count, asking wins an epoch nobody voted in |
| ElectionHandlers.Voter.SendFailoverAuthIfNeeded | src/cluster.c:2707-2808 | votes if and only if all conditions hold, among them that no claimed slot has a newer owner |
| ElectionHandlers.Voter.ReceiveRequest | src/cluster.c:1702-1708 | with the header's epoch applied first, this is the election model's step |
| ElectionHandlers.Candidate.HandleSlaveFailover | src/cluster.c:2947-3116 | when it does nothing, schedules, asks or takes over, that these are the model's steps, and that the delay grows by one second for each rank lost, once |
| ElectionHandlers.Candidate.ReceiveVote | src/cluster.c:2046-2058 | counts a vote if and only if its epoch is not older than the election |
| EpochCollision.MasterNode.ProcessHeader | src/cluster.c:1990-1997 | epochs are raised, and a collision with a greater node ID moves us on |
| EpochCollision.StepKeeps | src/cluster.c:1078-1093 | every epoch a master left was once one of a master with a greater node ID |
| EpochCollision.BumpBound | src/cluster.c:1078-1093 | in every asynchronous run the k-th greatest node ID moves at most k-1 times |
| EpochCollision.TotalBound | src/cluster.c:1078-1093 | n masters move at most n(n-1)/2 times together |
| EpochCollision.BoundsAttained | src/cluster.c:1078-1093 | for every n there is a run from equal config epochs in which each of n masters moves as often as it can |
| EpochCollision.QuiescentIff | src/cluster.c:1990-1997 | nothing moves any more if and only if all config epochs differ |
| AofBuffer.RewriteBuffer.Append | src/aof.c:125-169 | the blocks hold the old bytes followed by the new ones |
| AofBuffer.RewriteBuffer.Size | src/aof.c:79-90 | the number of bytes buffered |
| AofBuffer.RewriteBuffer.WriteDiffData | src/aof.c:95-122 | what the pipe takes, given by what its writes return, is exactly what leaves the front of the buffer; nothing after a stop |
| AofBuffer.PipeTakesAll | src/aof.c:95-122 | the pipe takes everything if there is a write for each block that takes a whole one |
| AofBuffer.PipeTakesSum | src/aof.c:95-122 | within the first block it takes the sum of what the writes return |
| AofBuffer.RewriteBuffer.WriteTo | src/aof.c:174-194 | writes the whole buffer if and only if every write takes its block, else reports an error |
| AofFlush.AppendOnlyFile.Write | src/aof.c:297-316 | appends as many bytes as the answers of write(2) before the first error let through, capped at the buffer, and returns that, or -1 for none |
| AofFlush.AppendOnlyFile.Flush | src/aof.c:337-489 | exactly when it is postponed; otherwise the whole buffer is written and the status is OK if and only if the answers let that much through, else the server exits under always, or keeps the stated remainder; file followed by buffer does not change |
| AofFlush.AppendOnlyFile.Recover | src/aof.c:414-468 | a short write is undone, or what stayed in the file is dropped from the buffer |
| AofFlush.AppendOnlyFile.Feed | src/aof.c:633-634 | the log grows by the fed bytes |
| AofHandoff.StepFlows | src/aof.c:95-169 | every byte fed since the fork is with the child, in the pipe or in the buffer, in that order, once |
| AofHandoff.DiffSelects | src/aof.c:1604-1613 | what is fed after a fork starts by selecting its database |
| AofHandoff.InstalledFile | src/aof.c:1660-1777 | in every interleaving the installed file is the snapshot followed by all bytes fed since the fork |
| AofHandoff.NothingLost | src/aof.c:337-644 | in every run, file and buffer hold what was there or was last installed, followed by everything fed since |
| AofHandoff.AbandonedFile | src/aof.c:1778-1808 | when the rewrite fails, the old file and the buffer hold everything fed so far |
| AofServer.Server.FeedAppendOnlyFile | src/aof.c:580-644 | feeding a text is the model's step: SELECT when the database changed, to both buffers |
| AofServer.Server.FeedCommand | src/aof.c:580-644 | feeds a command with its expire made absolute |
| AofServer.Server.Flush | src/aof.c:337-489 | a flush moves from the buffer to the file, in order, as many bytes as the answers say |
| AofServer.Server.RewriteBackground | src/aof.c:1559-1617 | starting a rewrite forgets the selected database |
| AofServer.Server.ChildWriteDiffData | src/aof.c:95-122 | the pipe handler is the model's step |
| AofServer.Server.ChildPipeReadable | src/aof.c:1476-1497 | stopping and acknowledging is the model's step |
| AofServer.Server.BackgroundRewriteDone | src/aof.c:1660-1808 | installs the new file if and only if the child, opening, appending and renaming all succeeded, otherwise changes neither file nor buffer |
| AofFormat.CatGenericCommand | src/aof.c:518-541 | appends the printed command |
| AofFormat.PrintedExample | src/aof.c:518-541 | PING is printed as the protocol has it, and numbers are decimal |
| AofExpire.CatExpireAt | src/aof.c:550-578 | appends PEXPIREAT with the absolute time in milliseconds |
| AofExpire.CatTranslated | src/aof.c:595-630 | appends the translation of EXPIRE, PEXPIRE, EXPIREAT, SETEX, PSETEX and SET with EX or PX |
| AofExpire.ExpireFed | src/aof.c:550-578 | from printed numbers: EXPIRE k n gives PEXPIREAT k now+1000n, PEXPIRE now+n and EXPIREAT 1000n |
| AofExpire.SetExFed | src/aof.c:595-607 | SETEX and PSETEX give SET and PEXPIREAT with now+1000n and now+n |
| AofExpire.SetFed | src/aof.c:608-624 | SET with EX or PX, wherever the option stands and in any case, gives SET and PEXPIREAT likewise; without them SET alone |
| AofExpire.TranslatedReplays | src/aof.c:595-630 | replaying the translation does what the command does at the time it is fed |
| AofExpire.FedLater | src/aof.c:563-568 | a relative expire moves by the time between execution and feeding, an absolute one does not |
| AofExpire.FedExactIff | src/aof.c:563-568 | so the data is the same if and only if the expire is absolute, the clock did not move, or there was no key to expire |
| AofFormat.AtoiDigits | src/aof.c:774-788 | reading a printed number gives it back |
| AofLoader.LoadAppendOnlyFile | src/aof.c:698-900 | the loops with fgets, atoi and fread compute the specification of loading, for every file |
| AofPrefix.CommandRead | src/aof.c:768-807 | a printed command is read back, for arbitrary bytes in its arguments and whatever follows |
| AofPrefix.CommandCut | src/aof.c:768-807 | a printed command cut at any byte is a short read, never another command or a format error |
| AofPrefix.PrefixLoads | src/aof.c:752-848 | every byte prefix of a printed log executes exactly its complete commands |
| AofPrefix.EndIff | src/aof.c:766-771 | only the end of the file ends loading |
| AofPrefix.DamageExits | src/aof.c:766-815 | after any number of commands, another byte than a star, a count below one, an argument without a dollar sign or an unknown command makes the server exit, whatever follows |
| AofTransactions.CutLogLoads | src/aof.c:752-891 | every byte prefix has the effect of its complete units, transactions whole or not at all |
| AofTransactions.SurvivorsLongest | src/aof.c:752-848 | those units are the most that fit into the prefix |
| AofTransactions.CutOffsetIff | src/aof.c:843-874 | the file is truncated to the end of those units if and only if the cut is not inside a command of a transaction |
| AofTransactions.CutKeepsMulti | src/aof.c:843-874 | a transaction cut inside the command after MULTI leaves MULTI in the file |
| AofRewrite.RewriteItems | src/aof.c:922-952 | the loop with its counters writes the items in commands of at most 64 |
| AofRewrite.BegunComplete | src/aof.c:929-937 | the argument count declared before the items equals the arguments written |
| AofRewrite.RewriteEntry | src/aof.c:1304-1345 | one key is written as the commands that rebuild it, with its expire |
| AofRewrite.RewriteAppendOnlyFile | src/aof.c:1289-1357 | all databases are written, empty ones skipped |
| AofReplay.ChunksReplay | src/aof.c:922-1122 | the chunks of an aggregate, replayed, build it whatever their number |
| AofReplay.PutAllMeans | src/aof.c:956-1122 | the items stand for the list, the set, or the map of scores or fields they enumerate |
| AofReplay.EntryReplays | src/aof.c:1304-1345 | replaying a key's commands binds it to its value and expire and touches no other key |
| AofReplay.BuildMeans | src/aof.c:1289-1357 | a rebuilt database holds exactly its keys that are not empty aggregates |
| AofReplay.RewriteRebuilds | src/aof.c:1289-1357 | replaying the rewritten commands on an empty server rebuilds every database |
| AofRestart.FedReplays | src/aof.c:580-644 | replaying what was fed, without MULTI and EXEC, does to the data what executing it did |
| AofRestart.ClosedLoads | src/aof.c:752-848 | a whole log whose transactions are closed loads as its commands without MULTI and EXEC |
| AofRestart.RestartRestores | src/aof.c:1371-1467 | in every interleaving, a server restarted from the installed file has the live data, commands and transactions executed during the rewrite included, and the rest of one that was open at the fork |
| Blocked.UnblockIndexed | src/blocked.c:543-576 | a client that leaves all its lists leaves both indexes in agreement |
| Blocked.ServeOneFacts | src/blocked.c:286-313 | serving a client takes it off the key's list, which is not used after it was removed |
| Blocked.ServeListDone | src/blocked.c:264-330 | after serving, the list is empty or nobody waits for it |
| Blocked.ServeZSetDone | src/blocked.c:332-378 | after serving, the sorted set is gone or nobody waits for it |
| Blocked.RoundShrinks | src/blocked.c:246-468 | a round leaves fewer blocked clients, or no ready keys: the loop ends |
| Blocked.HandleGood | src/blocked.c:246-468 | afterwards no key is ready, the indexes agree, and no client waits for elements that are there, except on keys where one did before and that were not served |
| Blocked.HandleBalance | src/blocked.c:286-330 | no element is lost or duplicated: all are stored or were given to a client |
| Blocked.StepGood | src/blocked.c:162-606 | blocking, creating, changing, overwriting and deleting keys, timing out and serving keep the indexes in agreement and starve nobody, except on a key that is overlooked |
| Blocked.RunFeeds | src/blocked.c:225-236 | in every run, once ready keys are handled, no client waits for elements that are there, except on keys that were overlooked and not served, overwritten, deleted or created again since |
| Blocked.OverwriteIff | src/db.c:189-206 | overwriting starves nobody if and only if the new value is of another type, the key is ready or no waiter matches |
| Blocked.OverwriteStarves | src/sort.c:565-566 | a run after which a client waits for a list that is there |
| Blocked.ServeListInOrder | src/blocked.c:269-318 | clients waiting for the list are served in their order, the others go to the end; the loop stops at the first client that finds the list empty, given as a function of queue and store before |
| Blocked.ServeZSetInOrder | src/blocked.c:326-372 | the same for a sorted set, until it is gone |
| BlockedServe.ServedOne | src/t_list.c:628-682 | BLPOP takes the first element, BRPOP and BRPOPLPUSH the last; a target gets it at its head; for a target of another type nothing changes |
| BlockedServe.ServeListDeals | src/blocked.c:277-318 | what clients got from the head, what is left and what was popped from the tail make up the list, and each target has what was moved to it at its head |
| BlockedServe.PopsInOrder | src/blocked.c:277-318 | the i-th BLPOP client gets element i, the i-th BRPOP client the i-th from the end, until clients or elements run out |
| BlockedServe.MovesKeepOrder | src/blocked.c:277-318 | BRPOPLPUSH clients leave source and target, one after the other, as they were |
| BlockedServe.PoppedOne | src/blocked.c:345-366 | BZPOPMIN takes the first element, BZPOPMAX the last, and the set goes with its last element |
| BlockedServe.ServeZSetDeals | src/blocked.c:332-378 | what clients got from either end and what is left make up the sorted set |
| BlockedServe.ReadyBehind | src/blocked.c:585-606 | keys become ready behind those that are, each once |
| BlockedServe.FirstReady | src/blocked.c:246-280 | the first reply goes to the first client that waits for a list at the key that became ready first |
| Blocked.OthersKeepOrderIff | src/blocked.c:237-246 | those others keep their order if and only if they do not stand on both sides of the client at which serving a list stops |
| Blocked.OthersKeepOrderZSetIff | src/blocked.c:237-246 | the same for a sorted set |
| BlockedOrder.OthersChangePlaces | src/blocked.c:277-311 | a run from the empty server: with a queue of zset, list, list, zset waiters and a list of one element, the two waiting for a sorted set change places |
| BlockedObject.Blocking.constructor | src/blocked.c:246-252 | a server without blocked clients satisfies the invariant |
| BlockedObject.Blocking.BlockForKeys | src/blocked.c:497-539 | the client joins each of its keys once |
| BlockedObject.Blocking.UnblockClientWaitingData | src/blocked.c:543-576 | the client leaves every list; empty lists are removed |
| BlockedObject.Blocking.SignalKeyAsReady | src/blocked.c:585-606 | the key is queued if somebody waits and it is not queued yet |
| BlockedObject.Blocking.PushToTarget | src/t_list.c:550-563 | the element goes to the head of the target; a new target is signalled |
| BlockedObject.Blocking.ServeClient | src/t_list.c:628-682 | the popped element goes to the client or the target, or back where it was |
| BlockedObject.Blocking.ServeClientsOnList | src/blocked.c:271-323 | the client loop serves as specified |
| BlockedObject.Blocking.ServeClientsOnZSet | src/blocked.c:332-378 | the client loop serves as specified |
| BlockedObject.Blocking.HandleClientsBlockedOnKeys | src/blocked.c:246-468 | the nested loops end and do what the specification does |
| BitFields.SetUnsignedBitfield | src/bitops.c:209-222 | sets the field's bits, first bit most significant, and no other bit |
| BitStrings.BitOrder | src/bitops.c:209-222 | the first bit of a byte is its most significant one |
| BitFields.GetUnsignedBitfield | src/bitops.c:229-241 | the number the field's bits make |
| BitFields.GetAfterSet | src/bitops.c:209-241 | reading a field that was set gives the value modulo 2^bits |
| BitFields.SetKeepsOthers | src/bitops.c:209-222 | fields that do not overlap keep their value |
| BitFields.GetThroughWindow | src/bitops.c:1091-1121 | the nine-byte window reads what the zero-extended string holds, also past its end |
| BitOverflow.GetSignedBitfield | src/bitops.c:243-263 | the two's complement reading of the field, for 64 bits if the undefined shift is clean |
| BitOverflow.WideFieldIff | src/bitops.c:257-263 | signed fields of 64 bits are read and wrapped right, all of them, if and only if shifting by 64 gives no bit but the top one |
| BitOverflow.GetSignedThroughWindow | src/bitops.c:1091-1116 | BITFIELD GET of a signed field reads what the zero-extended string holds |
| BitOverflow.SignedGetAfterSet | src/bitops.c:224-263 | signed round trip: modulo 2^bits, exact for values in range |
| BitOverflow.UnsignedCheck | src/bitops.c:288-323 | overflow is reported if and only if the exact sum leaves the range; WRAP and SAT limits are right |
| BitOverflow.SignedCheck | src/bitops.c:325-375 | the same for signed fields of up to 64 bits with an old value in range; SAT and FAIL do not depend on the shift |
| BitOverflow.IncrByUnsigned | src/bitops.c:1058-1084 | INCRBY stores and replies the exact, wrapped or clamped sum, or nothing under FAIL |
| BitOverflow.IncrBySigned | src/bitops.c:1024-1056 | the same for signed fields |
| BitOverflow.UnsignedSetVerdict | src/bitops.c:288-323 | under every policy SET of an unsigned field reports overflow if and only if the signed 64-bit value is out of range; WRAP gives it modulo 2^bits, SAT the maximum |
| BitOverflow.UnsignedSetCheckIff | src/bitops.c:288-323 | under SAT that is right if and only if the value is not negative |
| BitOverflow.UnsignedSetExample | src/bitops.c:288-323 | -1 saturates an 8-bit unsigned field to 255 |
| BitOverflow.SetUnsigned | src/bitops.c:1058-1086 | SET stores the value, the value modulo 2^bits or the maximum, or nothing under FAIL, and replies the old value |
| BitOverflow.SetSigned | src/bitops.c:1028-1057 | the same for signed fields, with the limit of SAT that the check gives |
| BitOverflow.SignedSetCheckIff | src/bitops.c:325-347 | for SET of a signed field it is right under SAT if and only if the field has 64 bits or max minus the value fits 64 bits |
| BitOverflow.SignedSetVerdict | src/bitops.c:325-375 | under every policy the verdict on SET is right for every value, and WRAP gives the value modulo 2^bits |
| BitOverflow.SignedSetExample | src/bitops.c:325-347 | the least 64-bit number saturates an 8-bit field to 127 |
| Popcount.Count28 | src/bitops.c:54-87 | the 28-byte step adds the number of bits set; no byte of the sums overflows |
| Popcount.RedisPopcount | src/bitops.c:40-92 | for every length and alignment the number of set bits |
| Bitpos.RedisBitpos | src/bitops.c:101-186 | for every length and alignment the first such bit of the zero-padded string, or -1; the panic is unreachable |
| Bitpos.SkipWordIff | src/bitops.c:132-142 | a word equals the one to skip if and only if none of its bytes can hold the bit |
| Bitpos.LoadWord | src/bitops.c:147-158 | the word holds the next bytes, first byte most significant, zeros past the end |
| BitOp.FastPath | src/bitops.c:668-729 | the steps of four 64-bit words give the bytewise result |
| BitOp.WordIsBytes | src/bitops.c:676-729 | an operation on 64-bit words loaded from memory is the byte operation on each byte |
| BitOp.BitOpCommand | src/bitops.c:655-745 | the result is as long as the longest string and each byte is the fold over the zero-padded strings |
| BitOpBits.ResultBit | src/bitops.c:730-741 | a bit of the result is set if and only if all, some, an odd number or, for NOT, none of the zero-padded strings have it |
| Crc64.Crc64 | src/crc64.c:173-181 | the loop folds the step over the bytes |
| Crc64Table.TableIs | src/crc64.c:42-171 | each of the 256 constants is eight bits of the division of its index |
| Crc64.StepDivides | src/crc64.c:173-181 | the table step is eight bits of the division |
| Crc64.StepInjective | src/crc64.c:173-181 | the step is injective in the state and in the byte |
| Crc64.CheckValue | src/crc64.c:1-12 | the check value of the variant |
| Crc64.CreateDumpPayload | src/cluster.c:4780-4807 | the object, the version and the checksum, little endian |
| Crc64.VerifyDumpPayload | src/cluster.c:4813-4830 | accepts exactly payloads of at least ten bytes, a known version and the right checksum |
| Crc64.CreatedAccepted | src/cluster.c:4780-4830 | every payload that was created is accepted |
| Crc64.DamagedRejected | src/cluster.c:4813-4830 | every payload that differs from it in exactly one byte is rejected |

## Left out

- Hash functions, key comparison and memory: keys are values, the hash is a fixed pure function, allocation succeeds.
- `dictRehashMilliseconds`, random sampling, fingerprints and unsafe iterators of `src/dict.c`; scan callbacks that
  change the dictionary; deleting another than the current entry during a safe iteration.
- In `src/dict.c` chains are sequences of entries, so that pointer aliasing between chains cannot be expressed.
- Reshard.StepRefines: MIGRATE is started only while the source is migrating the slot, with keys of the slot and
  without COPY or REPLACE, replies are not lost, and SETSLOT STABLE is not given in between.
- ReshardRedirect.RedirectsReachIff: nothing else happens while a client follows its redirections, and TRYAGAIN for
  several keys is not retried.
- ClusterSlots.ClusterState.UpdateSlotsConfigWith: module flags, replication and failure reports are not modelled.
- ClusterSlots.ClusterState.Replicate: whether the other node is a replica is a parameter.
- ClusterSlots.ClusterState.ProcessHeader: the sender is a known master; roles of other nodes do not change.
- Election.ElectionSafety: the set of slot-serving masters is fixed and agreed, votes are not duplicated, CLUSTER RESET
  HARD and CLUSTER FAILOVER TAKEOVER do not occur.
- Election.StepKeeps: clocks, ranks and random delays are arbitrary choices of when a handler acts.
- EpochCollision.BumpBound: the masters are fixed and config epochs change only by collision handling.
- Gossip, failure detection, node discovery, nodes.conf and the message formats of the cluster bus.
- AofFlush.AppendOnlyFile.Flush: fsync and its timing; under appendfsync always the server exits on an error.
- AofHandoff.InstalledFile: the append-only file is on; the child's last read drains the pipe, as a read that is not
  interrupted does.
- AofLoader.LoadAppendOnlyFile: reads fail only at the end of the file, truncate(2) succeeds, `atoi` does not overflow,
  and files that start with an RDB preamble are not modelled.
- AofReplay.RewriteRebuilds: scores of sorted sets are identified with their printed text; streams, module values and
  encodings are not modelled.
- AofRewrite.RewriteItems: one loop stands for the seven near copies in the source, and writes do not fail.
- AofRestart.RestartRestores: expires of commands fed during the rewrite count from when they were fed
  (`AofExpire.FedLater` has the difference), and no transaction is open when the file is installed, which happens
  between commands.
- AofExpire.CatTranslated: times are unbounded integers and not negative, and SET is spelled in upper case.
- Blocked.StepGood: clients blocked on streams are never served, SWAPDB is not modelled, and keys of different
  databases are different keys.
- BlockedServe.ServeListDeals: BRPOPLPUSH from a list to itself is stated for one client only, in ServedOne.
- The queue of unblocked clients and WAIT and module blocking of `src/blocked.c`.
- BitOverflow.IncrBySigned: for fields of 64 bits nothing is promised when the undefined shift by 64 gives bits below
  the top one.
- BitOp.BitOpCommand: words are loaded and stored little endian; parsing of the command is not modelled.
- Popcount.RedisPopcount: the table `bitsinbyte` is the function it tabulates.
- Lua scripting, modules, replication, Sentinel, the event loop, networking and all other commands.
