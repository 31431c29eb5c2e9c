# Redis 6.0.8: a verified model of its hard parts

This project models parts of Redis 6.0.8 in Dafny and proves what they promise. Each part has a
model on values, which says what an operation does, and where the C code changes state in place
also a model in memory (classes, arrays, loops) that is proved to do the same.

- **Cluster bus** (`ClusterModel`, `ClusterNet`, `ClusterElection`, `ClusterVotes`,
  `ClusterStaleVotes`, `ClusterFailover`, `ClusterCommands`, `ClusterCollision`, `ClusterSlots`,
  `ClusterBitmap`, `ClusterState`): servers exchange packets that may be delayed, reordered and
  lost. Epochs stay in order in every run; an epoch has at most one elected replica unless votes
  are counted early, and a claim that half of the masters know to be outdated does not win; the
  winner gets its master's slots and is followed; colliding epochs are resolved after a bounded
  number of moves; slot tables converge whatever the order of delivery; the table of slots, the
  bitmaps and their counters stay in step.
- **Append-only file** (`AofRewrite`, `AofBuffer`, `AofLoader`, `AofBadFiles`, `AofTransactions`,
  `AofResume`, `AofDurable`, `AofSelect`, `AofDatabases`): the rewrite protocol between parent and
  child, the write buffer, the format and its loader, files that are not what was logged,
  transactions in files that were cut off, logging on after such a file was loaded, what a file
  loads as after anything the disk did, turning the log off and on, the elision of SELECT, and
  from executed commands to bytes and back to the dataset.
- **Blocking operations** (`Adlist`, `Blocked`, `Serving`, `Draining`, `DrainOrder`): the linked
  list in memory, the two-way index of blocked clients with its node pointers, and the queue of
  ready keys, which is drained without losing elements, changing their order or starving clients.
- **ACL command rules** (`Acl`, `AclMeaning`, `AclDescription`, `AclState`): what rules mean for a
  command, interpreting them, and printing rules that rebuild the same permissions.
- **Bitmaps, checksums and cells** (`Bitfield`, `Popcount`, `Bitpos`, `Bitop`, `Crc64`,
  `Crc64Values`, `Geohash`): fast forms that refine simple definitions.

`dafny verify dfyconfig.toml` checks the whole project.

## What is assumed

- Clocks, timeouts, failure detection, the outcomes of system calls and the choice of what runs
  next are parameters or steps chosen freely. Pipes are FIFO, and a non-blocking read of a pipe
  that is not empty returns data.
- Node names are numbers in the order of memcmp. Epochs are unbounded; a wrap of the 64-bit
  counters is not modelled.
- A packet of a known sender is one whose handshake is over, and a packet is delivered at most
  once.
- `dict` and `rax` are finite maps, `sds` a sequence of bytes, `unsigned long` has 64 bits.
- In `AofSelect` a snapshot is taken to load as the dataset at the fork; in `AofLoader` commands
  fit the C types (fewer than 2^31 arguments, arguments shorter than 2^63 bytes).
- In `Bitfield` the differences `max-value` and `min-value` of the signed check wrap as 64-bit
  words. C leaves them undefined where they do not fit; that is the case `SignedSetCheck`
  singles out.

## Where promise and code differ

- The comment above clusterHandleConfigEpochCollision says that the server takes the greatest
  epoch detected plus one. The code takes currentEpoch plus one, which is the same only because
  currentEpoch bounds every configEpoch (`ClusterNet.RunKeepsEpochs`).
- A vote count is reset when an election is scheduled, but the election epoch moves when it
  opens. Acknowledgements that are counted in between count for the later epoch, and two
  replicas can win it (`ClusterStaleVotes.TwoWinners`). Without them they cannot
  (`ClusterElection.OneWinnerPerEpoch`), and vote counts are right in exactly the runs without
  them (`ClusterElection.CountsExactlyIfNoneEarly`).
- A file that is cut off inside a command of a transaction is truncated behind the last whole
  command, which leaves the transaction open in the file. If nothing is logged before the next
  load, that load removes it (`AofTransactions.TwoLoadsSettle`). But the server goes on and
  appends to the file, and what it appends is read as part of the torn transaction: single
  commands are lost with it (`AofResume.LoggedCommandIsLost`), and the next transaction executes
  the first half of it (`AofResume.HalfIsExecuted`). `AofResume.ResumesExactlyIf` gives the exact
  condition on where the file was cut and what was logged, and the exact result otherwise.
- SET with OVERFLOW SAT on a signed field stores the greatest value instead of the smallest for
  values far below the field (`Bitfield.SignedSetCheck` gives the exact condition).

## Model

| member | source | states |
|---|---|---|
| ClusterModel.UpdateSlots | redis-6.0.8/src/cluster.c:1613-1695 | rebinding slots and following a new master change no epoch and no election field, and leave every pointer at a known node |
| ClusterModel.FirstOutdatedIsFirst | redis-6.0.8/src/cluster.c:2056-2078 | the slot that triggers an UPDATE is the first that the sender claims and that is served here under a greater epoch |
| ClusterNet.HeaderBounded | redis-6.0.8/src/cluster.c:2380-2430 | a header never carries a configEpoch above its currentEpoch |
| ClusterNet.PingBounded | redis-6.0.8/src/cluster.c:1795-1806 | a ping, pong or meet leaves every known configEpoch at most currentEpoch, never lowers currentEpoch, and what is sent in reply is bounded in the same way |
| ClusterNet.UpdateBounded | redis-6.0.8/src/cluster.c:2163-2184 | an UPDATE leaves every known configEpoch at most currentEpoch |
| ClusterNet.AuthRequestBounded | redis-6.0.8/src/cluster.c:2842-2943 | so does a vote request, and the acknowledgement it causes is bounded |
| ClusterNet.FailoverBounded | redis-6.0.8/src/cluster.c:3154-3247 | so does every branch of the failover handler |
| ClusterNet.ApplyBounded | redis-6.0.8/src/cluster.c:4846-4852 | so does every administrative command, SET-CONFIG-EPOCH and the bump without consensus included |
| ClusterNet.StepKeepsEpochs | redis-6.0.8/src/cluster.c:1718-2198 | one step of the network (send, deliver, lose, failover, command) keeps the epoch invariant, and no currentEpoch decreases |
| ClusterNet.RunKeepsEpochs | redis-6.0.8/src/cluster.c:1795-1806 | in every state of every run each currentEpoch is at least every configEpoch in that server's table and at least what it was before, and each packet in flight carries a currentEpoch at least its configEpochs |
| ClusterNet.ElectionOpensAbove | redis-6.0.8/src/cluster.c:3218-3220 | an election opens at an epoch above every configEpoch the candidate knows, above its last vote and above its previous election |
| ClusterElection.MajorityIsUnique | redis-6.0.8/src/cluster.c:2842-2943 | of any electorate that holds all voters, at most one replica was granted votes by a majority in an epoch |
| ClusterElection.QuorumsMeet | redis-6.0.8/src/cluster.c:3231-3247 | two majorities of the same electorate share a voter |
| ClusterElection.WinnerIsUnique | redis-6.0.8/src/cluster.c:3231-3247 | two winners of one epoch, neither with an acknowledgement counted early, are the same replica |
| ClusterElection.GrantVotesOnce | redis-6.0.8/src/cluster.c:2869-2937 | a granted vote is the only one of that voter in that epoch |
| ClusterElection.GrantAcksOnce | redis-6.0.8/src/cluster.c:2816-2826 | a grant puts one acknowledgement into flight, which was neither in flight nor delivered before |
| ClusterElection.AckCounted | redis-6.0.8/src/cluster.c:2138-2150 | a counted acknowledgement adds a voter that was not counted in the open election before |
| ClusterElection.WinBacked | redis-6.0.8/src/cluster.c:3231-3247 | a win rests on the votes counted for its epoch and on those counted early |
| ClusterElection.StepKeepsElections | redis-6.0.8/src/cluster.c:3082-3251 | every step of the network keeps the election invariant: one vote per voter and epoch, one acknowledgement per vote, counts that match the voters counted |
| ClusterElection.RunKeepsElections | redis-6.0.8/src/cluster.c:3082-3251 | the election invariant holds in every state of every run that starts without elections |
| ClusterElection.RunWithoutStaleVotes | redis-6.0.8/src/cluster.c:3154-3160 | if no acknowledgement is counted between the reset of a vote count and the opening of the election, no count and no win ever contains a vote of an earlier election |
| ClusterElection.CountsExactlyIfNoneEarly | redis-6.0.8/src/cluster.c:2143-2146 | the exact condition: in every state every stored vote count is the number of masters that voted in the open election if and only if no step delivers an acknowledgement that is counted while failover_auth_sent is zero |
| ClusterElection.ExactCountsWin | redis-6.0.8/src/cluster.c:3231-3247 | in a run with exact vote counts no winner has a vote of an earlier election |
| ClusterElection.OneWinnerPerEpoch | redis-6.0.8/src/cluster.c:3218-3247 | in every run in which no acknowledgement is counted early no two different replicas win with the same failover_auth_epoch |
| ClusterStaleVotes.Votes | redis-6.0.8/src/cluster.c:2842-2943 | a master of the example grants its vote to either replica of the failed master in an epoch it has not voted in |
| ClusterStaleVotes.SecondTry | redis-6.0.8/src/cluster.c:3154-3160 | in automatic failovers the votes of the previous election arrive after the count was reset, while the new election waits to open, and are kept when it opens |
| ClusterStaleVotes.TwoWinners | redis-6.0.8/src/cluster.c:3154-3247 | a concrete run of automatic failovers, from servers without elections, in which two replicas of a failed master win the same epoch, each with a quorum of the three masters, because acknowledgements are counted early |
| ClusterVotes.VoteExactlyIf | redis-6.0.8/src/cluster.c:2842-2936 | a vote is granted if and only if the server is a master with slots, has not voted in the epoch, which is not behind its own, the candidate is a replica of a known failed master (or the request is forced), the time limit is kept, and no claimed slot is held under a greater epoch than that of the claim |
| ClusterVotes.VoteChanges | redis-6.0.8/src/cluster.c:2937-2943 | a granted vote is one acknowledgement for the epoch of the request and is remembered; a refused one leaves the last vote, and neither moves a slot or changes a role |
| ClusterVotes.AckExactlyIf | redis-6.0.8/src/cluster.c:2138-2151 | an acknowledgement is counted if and only if its sender is a master with slots and its epoch is not before the election |
| ClusterVotes.MovesExactlyIf | redis-6.0.8/src/cluster.c:3107-3247 | when exactly an election is scheduled, opened and won; winning takes more than half of the cluster size |
| ClusterVotes.ClaimIsMasters | redis-6.0.8/src/cluster.c:2800-2812 | a candidate claims exactly its master's slots under its master's epoch, which is less than that of the election |
| ClusterVotes.VoteWasForClaim | redis-6.0.8/src/cluster.c:2842-2943 | in every run every vote was granted by a master with slots to the claim with which the candidate opened that election, while the voter held no claimed slot above it |
| ClusterVotes.OpensOnce | redis-6.0.8/src/cluster.c:3217-3229 | a replica opens an election in an epoch at most once |
| ClusterVotes.WinnerWasWanted | redis-6.0.8/src/cluster.c:3231-3247 | in every run without early acknowledgements a winner was voted for, with the claim of its election, by more than half of the masters it counts |
| ClusterVotes.OutdatedClaimLoses | redis-6.0.8/src/cluster.c:2914-2935 | in every such run, while half of the masters hold a slot under an epoch greater than that under which a candidate claims it, the candidate does not win |
| ClusterVotes.HoldKept | redis-6.0.8/src/cluster.c:1636-1668 | a server goes on holding a slot above an epoch, perhaps for another owner, unless the administrator takes it away, its owner says that it is a replica now, or the server itself wins |
| ClusterVotes.HeldClaimLoses | redis-6.0.8/src/cluster.c:2914-2935 | so it is enough that half of the masters hold the slot above the claim when the election opens and none of these things happens to them |
| ClusterFailover.WinnerReplaces | redis-6.0.8/src/cluster.c:3044-3074 | the winner of an election becomes a master, owns exactly what its master owned and what it owned itself, carries the epoch of the election, and changes no other entry |
| ClusterFailover.TakeoverReplaces | redis-6.0.8/src/cluster.c:4803-4814 | so does a takeover, under an epoch that no known one exceeds |
| ClusterFailover.UpdateIsHeard | redis-6.0.8/src/cluster.c:1613-1695 | a claim is heard: exactly the slots claimed under a greater epoch than their owners have, and not being imported, change hands; the server follows the sender if and only if its master, or it itself, had slots and has none left, and a master that follows imports nothing any more |
| ClusterFailover.PingIsHeard | redis-6.0.8/src/cluster.c:1795-2098 | the same for a whole ping, pong or meet of a master, whatever was known about it |
| ClusterFailover.ReplicaIsSeen | redis-6.0.8/src/cluster.c:1984-2008 | a ping of a replica unassigns the slots it had as a master, notes whose replica it is, and moves no other slot |
| ClusterFailover.UpdateMessageIsHeard | redis-6.0.8/src/cluster.c:2163-2184 | an UPDATE with a greater epoch makes the node a master with that epoch whose claim is heard; any other UPDATE changes no slot and no role |
| ClusterFailover.WinnerIsFollowed | redis-6.0.8/src/cluster.c:1672-1695 | in the network: whoever hears the winner hands the old master's slots over, and the old master and its other replicas, if they know nothing newer, are left without slots and follow the winner |
| ClusterFailover.OutdatedIsAnswered | redis-6.0.8/src/cluster.c:2056-2078 | an outdated claim gets one UPDATE, about the owner of the first slot that is served under a greater epoch, with its epoch and slots |
| ClusterFailover.PingIsAnswered | redis-6.0.8/src/cluster.c:2010-2078 | a packet gets an UPDATE if and only if it claims a slot served under a greater epoch and its claim differs from the table |
| ClusterFailover.PingGetsPong | redis-6.0.8/src/cluster.c:1826-1870 | a packet that asks for it, ping or meet, gets a pong with the epochs after and the slots before it; no other packet does |
| ClusterFailover.OutdatedIsCorrected | redis-6.0.8/src/cluster.c:2163-2184 | whoever made the outdated claim gives the slot up when the answer arrives |
| ClusterCommands.AddedSlotsAreDeleted | redis-6.0.8/src/cluster.c:4397-4446 | ADDSLOTS takes exactly the given slots and DELSLOTS of them restores the view, except that imports of these slots are over |
| ClusterCommands.ImportIsUndone | redis-6.0.8/src/cluster.c:4473-4488 | SETSLOT STABLE undoes SETSLOT IMPORTING |
| ClusterCommands.ImportIsClosed | redis-6.0.8/src/cluster.c:4489-4536 | closing an import makes the server the owner under an epoch that no known one exceeds |
| ClusterCommands.SlotIsMoved | redis-6.0.8/src/cluster.c:4489-4536 | any other SETSLOT NODE moves that slot and changes nothing else |
| ClusterCommands.ForgottenCompletely | redis-6.0.8/src/cluster.c:977-1010 | after FORGET no slot, import or replica refers to the node, and nothing else has changed |
| ClusterCommands.MetAndForgotten | redis-6.0.8/src/cluster.c:977-1010 | forgetting a node that was just met restores the view |
| ClusterCommands.Replicates | redis-6.0.8/src/cluster.c:4697-4731 | REPLICATE leaves a replica without slots of its own and without imports |
| ClusterCommands.EpochIsSetOnce | redis-6.0.8/src/cluster.c:4824-4852 | SET-CONFIG-EPOCH works only once |
| ClusterCollision.ProcessEffect | redis-6.0.8/src/cluster.c:1795-1806 | a packet raises a table entry at most to what the packet says, and changes the receiver's own configEpoch only in a collision with a greater master or through an UPDATE about it |
| ClusterCollision.ProcessCandid | redis-6.0.8/src/cluster.c:2380-2456 | every reply carries the sender's own role and epoch, and an UPDATE carries a table entry |
| ClusterCollision.CollisionOutcome | redis-6.0.8/src/cluster.c:1149-1164 | a server takes a new epoch in a collision only if the sender is a master with a greater name and the same epoch, and the new epoch is above all it knew |
| ClusterCollision.MustYield | redis-6.0.8/src/cluster.c:2082-2089 | a master that stays one and hears its own epoch from a master with a greater name does take a new epoch |
| ClusterCollision.StepMoves | redis-6.0.8/src/cluster.c:1149-1164 | with fixed masters and no other source of epochs, no step overstates a master's epoch, epochs only grow, and each move is caused by a packet of a greater master with the same epoch |
| ClusterCollision.BumpsCountPast | redis-6.0.8/src/cluster.c:1156-1158 | the number of moves of a master is one less than the number of epochs it has had |
| ClusterCollision.PastKept | redis-6.0.8/src/cluster.c:1149-1164 | an epoch that a master gave up has been had by a greater master, or was in an outdated packet of a greater master at the start |
| ClusterCollision.SeenBound | redis-6.0.8/src/cluster.c:1149-1164 | a group of masters closed upwards has had no more epochs than it has members, beside those in outdated packets of greater masters at the start |
| ClusterCollision.CollisionsStop | redis-6.0.8/src/cluster.c:1149-1164 | under any message schedule a master moves at most once per master with a greater name, plus once per outdated epoch of these that was in flight at the start |
| ClusterCollision.GreatestStays | redis-6.0.8/src/cluster.c:1149-1164 | the master with the greatest name never moves |
| ClusterCollision.HeardMeansDifferent | redis-6.0.8/src/cluster.c:2082-2089 | a master that hears the current header of a greater one and does not move has a different epoch |
| ClusterCollision.DistinctEpochs | redis-6.0.8/src/cluster.c:1149-1164 | a stretch without moves in which every pair of masters gets through ends with pairwise different configEpochs |
| ClusterSlots.TakenIsWon | redis-6.0.8/src/cluster.c:1636-1673 | a claimed slot goes to the sender exactly if its epoch is the greatest among the claims heard |
| ClusterSlots.NeverDemoted | redis-6.0.8/src/cluster.c:1680-1697 | a receiver that serves nothing is not turned into a replica by claims: only the slots change hands |
| ClusterSlots.PingDecides | redis-6.0.8/src/cluster.c:2024-2036 | after a header the table is decided by the claims heard so far and this one |
| ClusterSlots.Converges | redis-6.0.8/src/cluster.c:1613-1673 | after any sequence of headers, with repeats and in any order, that holds every claimant's, a slot is bound exactly if it is claimed, to the claimant with the greatest configEpoch |
| ClusterSlots.SameTable | redis-6.0.8/src/cluster.c:1613-1673 | two receivers of the same claims end with the same slot table |
| ClusterState.ClusterNode.SetSlotBit | redis-6.0.8/src/cluster.c:3781-3803 | sets the bit in the bytes of the bitmap, adding the slot to the set they stand for, returns the old bit and keeps the counter in step |
| ClusterState.ClusterNode.ClearSlotBit | redis-6.0.8/src/cluster.c:3806-3811 | clears it, removing the slot from the set, returns the old bit and keeps the counter in step |
| ClusterState.ClusterNode.GetSlotBit | redis-6.0.8/src/cluster.c:3814-3816 | tells whether the slot is in the set that the bytes stand for |
| ClusterBitmap.SetBitAdds | redis-6.0.8/src/cluster.c:3750-3754 | the byte operation adds one slot and touches no other |
| ClusterBitmap.ClearBitRemoves | redis-6.0.8/src/cluster.c:3757-3761 | and removes one slot and touches no other |
| ClusterState.ClusterState.BitsAgree | redis-6.0.8/src/cluster.c:3814-3816 | a node's bitmap is the set of slots the table gives it, and numslots is its size |
| ClusterState.ClusterState.AddSlot | redis-6.0.8/src/cluster.c:3822-3827 | binds a free slot, refuses a bound one, and keeps table, bitmaps and counters in step |
| ClusterState.ClusterState.DelSlot | redis-6.0.8/src/cluster.c:3832-3839 | frees a slot; the assertion on the owner's bit cannot fail |
| ClusterState.ClusterState.DelNodeSlots | redis-6.0.8/src/cluster.c:3843-3853 | frees exactly the slots of the node and returns their number |
| ClusterState.ClusterState.SetNodeAsMaster | redis-6.0.8/src/cluster.c:1586-1600 | does to the view what the model's role change does, keeping the structure valid |
| ClusterState.ClusterState.SetMaster | redis-6.0.8/src/cluster.c:4049-4065 | the same for following a new master, under the conditions it asserts |
| ClusterState.ClusterState.TakeSlots | redis-6.0.8/src/cluster.c:1636-1673 | the loop rebinds exactly the slots that are claimed under a newer epoch, and reports whether the current master lost one |
| ClusterState.ClusterState.UpdateSlotsConfigWith | redis-6.0.8/src/cluster.c:1613-1695 | in memory, with pointers, bitmaps and counters, it refines the update of the slot table on values, as long as the assertion of clusterSetMaster holds where it is reached |
| ClusterState.ClusterState.ReplaceYourMaster | redis-6.0.8/src/cluster.c:3044-3060 | in memory it does what the failover does on values (`ClusterFailover.WinnerReplaces` says what that is) |
| ClusterState.ClusterState.GetMaxEpoch | redis-6.0.8/src/cluster.c:1040-1053 | the greatest of currentEpoch and all configEpochs |
| ClusterState.ClusterState.BumpConfigEpochWithoutConsensus | redis-6.0.8/src/cluster.c:1084-1101 | takes a new epoch exactly if its own is zero or not the greatest known |
| ClusterState.ClusterState.HandleConfigEpochCollision | redis-6.0.8/src/cluster.c:1149-1164 | takes a new epoch exactly if both are masters with the same epoch and the other name is greater |
| ClusterState.ClusterState.ChangeSlots | redis-6.0.8/src/cluster.c:4430-4443 | ADDSLOTS and DELSLOTS after their checks: no single change can fail, imports of these slots end |
| ClusterState.ClusterState.SetSlotNode | redis-6.0.8/src/cluster.c:4512-4535 | assigns the slot; assigning an imported slot to this server takes a new epoch and ends the import |
| ClusterState.ClusterState.AddNode | redis-6.0.8/src/cluster.c:958-964 | a new node with no slots; everything else stays |
| ClusterState.ClusterState.DelNode | redis-6.0.8/src/cluster.c:977-1004 | its slots are free, imports from it end, its replicas follow nobody, and no pointer leads to it any more |
| ClusterState.ClusterState.ClearReplicas | redis-6.0.8/src/cluster.c:933-955 | exactly the replicas of the node lose their master |
| AofRewrite.StepKeepsBytes | redis-6.0.8/src/aof.c:1464-1483 | every step of parent, child and pipes keeps what was received, what is in the pipe and what the parent holds equal to what was fed since the fork |
| AofRewrite.RunKeepsBytes | redis-6.0.8/src/aof.c:1464-1483 | that holds after every interleaving |
| AofRewrite.SuccessfulRewrite | redis-6.0.8/src/aof.c:1700-1717 | for every interleaving of feeds, partial pipe writes, child reads, stop request and acknowledgement, a successful rewrite leaves the snapshot followed by exactly the bytes fed since the fork |
| AofRewrite.CanSucceed | redis-6.0.8/src/aof.c:1700-1838 | from every state in which the child has not failed and waits for no lost answer, the rewrite can be brought to its end |
| AofRewrite.CannotSucceed | redis-6.0.8/src/aof.c:1464-1472 | from any other state it cannot |
| AofRewrite.FailureIsFinal | redis-6.0.8/src/aof.c:1690-1838 | a child that fails, or whose file cannot be put in place, never installs a file |
| AofRewrite.Rewriter.FillLast | redis-6.0.8/src/aof.c:125-142 | what fits is copied into the last block; block contents and the rest together stay the same bytes |
| AofRewrite.Rewriter.Append | redis-6.0.8/src/aof.c:125-169 | the bytes are appended across block boundaries, none lost or repeated |
| AofRewrite.Rewriter.ChildWriteDiffData | redis-6.0.8/src/aof.c:95-122 | a prefix of the waiting bytes moves into the pipe, whatever the writes return, and nothing once the parent has stopped |
| AofRewrite.Rewriter.ReadDiffFromParent | redis-6.0.8/src/aof.c:1313-1323 | with the parent's write handler running between the reads in any way, all that was in the pipe and what is moved into it meanwhile is received, in order; nothing is moved once the parent has stopped |
| AofRewrite.Rewriter.ChildPipeReadable | redis-6.0.8/src/aof.c:1517-1538 | the parent stops sending before it acknowledges |
| AofRewrite.Rewriter.FinishChild | redis-6.0.8/src/aof.c:1475-1483 | the child drains the pipe and writes its diff behind the snapshot |
| AofRewrite.Rewriter.BufferWrite | redis-6.0.8/src/aof.c:174-194 | succeeds exactly if every block that holds something is written completely, and then has written all blocks in order |
| AofRewrite.Rewriter.DoneHandler | redis-6.0.8/src/aof.c:1690-1833 | the file is installed exactly if opening, writing and renaming succeed, and then holds the child's file and the parent's remaining bytes |
| AofBuffer.AofWrite | redis-6.0.8/src/aof.c:300-317 | exactly the bytes that reach the disk before a write fails are reported, -1 if none did |
| AofBuffer.RunKeepsLog | redis-6.0.8/src/aof.c:338-494 | through any sequence of feeds, short and failed writes, truncations that succeed or fail and postponed flushes, aof_current_size is the file's length and file followed by buffer is all that was fed; with the policy always the process may exit instead |
| AofBuffer.FileGrows | redis-6.0.8/src/aof.c:414-447 | whatever the disk does, a flush never takes back what was in the file before it |
| AofBuffer.ErrorStops | redis-6.0.8/src/aof.c:300-317 | the first error ends the writing, interrupted and short writes do not |
| AofBuffer.ErrorIsNoted | redis-6.0.8/src/aof.c:413-494 | after a flush that was not put off the error state says whether something was left in the buffer; with the policy always exactly such a flush ends the process |
| AofBuffer.WaitsExactlyIf | redis-6.0.8/src/aof.c:367-378 | during an fsync a flush that was put off is put off again if and only if less than two seconds have passed |
| AofBuffer.PostponedBriefly | redis-6.0.8/src/aof.c:361-378 | in every run less than two seconds pass between the flush that is put off first and any later one that still is |
| AofBuffer.AlwaysIsComplete | redis-6.0.8/src/aof.c:454-494 | with the policy always a flush leaves nothing in the buffer, or the process exits |
| AofBuffer.RecoversAfterErrors | redis-6.0.8/src/aof.c:462-494 | after any errors, a forced flush that meets none writes everything that was fed and clears the error state |
| AofBuffer.AppendOnlyFile.Append | redis-6.0.8/src/aof.c:642-643 | a fed command goes to the end of the buffer |
| AofBuffer.AppendOnlyFile.FlushAppendOnlyFile | redis-6.0.8/src/aof.c:338-494 | the flush in memory refines the flush on values |
| AofLoader.CatGenericCommand | redis-6.0.8/src/aof.c:522-545 | the loop prints the encoding of the command behind what was there |
| AofLoader.CommandReads | redis-6.0.8/src/aof.c:779-825 | a whole command reads back as itself, and the rest is left |
| AofLoader.CommandCut | redis-6.0.8/src/aof.c:779-825 | a command that is cut off anywhere is a short read, never a format error and never another command |
| AofLoader.WholeIsMost | redis-6.0.8/src/aof.c:859 | the commands counted are the most that fit into the prefix |
| AofLoader.CutFileLoads | redis-6.0.8/src/aof.c:764-873 | for every command sequence, with or without transactions, and every non-empty byte prefix of its encoding the loader reads exactly the whole commands; it truncates behind the last of them, or before an open MULTI if the file ends there cleanly, or exits if truncation is not allowed or fails |
| AofLoader.RoundTrip | redis-6.0.8/src/aof.c:764-873 | the whole encoding of commands without MULTI and EXEC loads back to the same commands and the file keeps its length; an EXEC among them does nothing |
| AofLoader.TruncatedFileIsStable | redis-6.0.8/src/aof.c:885-917 | if at least one command is whole and no transaction is open, loading the truncated file gives the same result and truncates nothing more |
| AofLoader.ReadArguments | redis-6.0.8/src/aof.c:796-825 | the loop over the arguments computes the reader's result |
| AofLoader.LoadAppendOnlyFile | redis-6.0.8/src/aof.c:710-930 | the loader's loop computes the specified result for every file: empty, RDB preamble, loaded, or exit |
| AofLoader.FakeClient.Execute | redis-6.0.8/src/aof.c:836-846 | MULTI opens a queue, commands are queued, EXEC executes the queue; outside of a transaction a command is executed at once and EXEC does nothing |
| AofLoader.FakeClient.ExecuteQueue | redis-6.0.8/src/multi.c:176-218 | EXEC executes the queued commands in order; a MULTI among them is only an error |
| AofLoader.WholeFileLoads | redis-6.0.8/src/aof.c:764-873 | a whole encoding is read to its end; an open transaction is cut off |
| AofBadFiles.FaultyFileExits | redis-6.0.8/src/aof.c:785-834 | whole commands followed by something wrong (no command, no count, no arguments, no length, an unknown name): the commands are executed and the process exits, whatever the options |
| AofBadFiles.CutFileLoadsIf | redis-6.0.8/src/aof.c:885-917 | a file whose end is missing is loaded if and only if truncation is allowed and works, unless it ends behind a command outside of a transaction |
| AofTransactions.ItemsRun | redis-6.0.8/src/multi.c:145-245 | whole items, single commands and transactions, take effect in order and leave no transaction open |
| AofTransactions.ClientAtCut | redis-6.0.8/src/aof.c:836-871 | after a cut the whole items have taken effect, and what is left of a transaction is queued, with its MULTI remembered |
| AofTransactions.MostItems | redis-6.0.8/src/aof.c:859 | the items counted are the most that fit into the prefix |
| AofTransactions.TransactionsAreAtomic | redis-6.0.8/src/aof.c:764-873 | wherever the file is cut off, with or without truncation, the commands executed are those of the whole items: a transaction takes effect entirely or not at all |
| AofTransactions.TwoLoadsSettle | redis-6.0.8/src/aof.c:868-917 | if truncation is allowed and nothing is logged in between, the second load executes the same commands and leaves exactly the whole items in the file |
| AofResume.OpenRuns | redis-6.0.8/src/aof.c:836-846 | what is logged behind an open transaction: single commands are queued with it, and the first EXEC executes the queue; from then on items take effect as usual |
| AofResume.LeftBehind | redis-6.0.8/src/aof.c:868-917 | the first load of a file that was cut off keeps the whole items, and leaves the beginning of a transaction behind them if and only if the cut lies inside a command of a transaction |
| AofResume.ResumesExactlyIf | redis-6.0.8/src/server.c:3013-3015 | the server goes on logging behind what the first load left: the exact result of the next load, which is what took effect if and only if the cut was not inside a command of a transaction, or was in the first one behind MULTI and a transaction is logged later |
| AofResume.LoggedCommandIsLost | redis-6.0.8/src/aof.c:868-873 | a transaction cut off inside its second command, and a single command logged after the load: the next load executes nothing and removes both |
| AofResume.HalfIsExecuted | redis-6.0.8/src/aof.c:836-846 | the same with a transaction logged after the load: the next load executes the first command of the torn transaction |
| AofResume.CutResumes | redis-6.0.8/src/aof.c:764-873 | if the file is cut off again behind that point, loading executes what the whole items among the later ones give |
| AofDurable.FileLoads | redis-6.0.8/src/aof.c:338-494 | in every state of every run of feeds and flushes that starts with whole items, also after an exit, loading the file executes the first of the commands and transactions that were fed, and all of them after a complete flush |
| AofDurable.FileResumes | redis-6.0.8/src/aof.c:338-494 | the same in every state of every run that starts with a file which ends in the beginning of a transaction, with what that beginning does to the later items |
| AofDurable.FileResumesAfterLoad | redis-6.0.8/src/aof.c:868-917 | and for every file that a load left behind, wherever it had been cut off |
| AofDurable.RewrittenLoads | redis-6.0.8/src/aof.c:1700-1717 | for every interleaving, loading a rewritten file executes the commands of the snapshot and all that were fed since the fork |
| AofSelect.FeedKeepsCurrent | redis-6.0.8/src/aof.c:584-597 | feeding a command, with or without SELECT, keeps a log that replays to the dataset one that does so |
| AofSelect.StepKeepsLogs | redis-6.0.8/src/aof.c:584-650 | every step (command, fork, rewrite done or failed, log off, log on) keeps the live log and a rewrite in progress current |
| AofSelect.LogReplaysToDataset | redis-6.0.8/src/aof.c:1791-1807 | in every run, whenever the log is on, replaying it runs each command in its database and gives the dataset of the server |
| AofSelect.LogReplaysFromStart | redis-6.0.8/src/aof.c:584-650 | so it is in every run of a new server, with the log on or off at first |
| AofSelect.RewriteTurnsOn | redis-6.0.8/src/aof.c:1690-1807 | a rewrite that succeeds while the log is on or waited for leaves it on, with a log that replays to the dataset |
| AofSelect.StepSwitches | redis-6.0.8/src/aof.c:236-291 | what every step does to the mode of the log, its file and a rewrite in progress |
| AofSelect.OnAfterRewrite | redis-6.0.8/src/aof.c:251-291 | in every run: once the log was turned on and a rewrite has succeeded, it is on until it is turned off and replays to the dataset in each of these states |
| AofSelect.OnOnlyAfterRewrite | redis-6.0.8/src/aof.c:1806-1807 | a log that is on was on at the start, or a rewrite it waited for has succeeded and it was not turned off since |
| AofSelect.SelectIsACommand | redis-6.0.8/src/aof.c:589-597 | the bytes printed for SELECT are that command in the format of the file |
| AofDatabases.DbOfDigits | redis-6.0.8/src/db.c:450-455 | the digits printed for a database name that database |
| AofDatabases.SelectExactly | redis-6.0.8/src/db.c:603-619 | SELECT with the printed number of a database selects it, with anything else it changes nothing |
| AofDatabases.DbOfExactly | redis-6.0.8/src/util.c:358-422 | a string names a database if and only if it is the number of one as it is printed |
| AofDatabases.PrintedApply | redis-6.0.8/src/aof.c:584-650 | whatever database the loader is in, applying the printed log of executed commands runs each in its database |
| AofDatabases.ItemsApply | redis-6.0.8/src/multi.c:97-104 | applying what takes effect is the same as applying what is logged, brackets included |
| AofDatabases.FileRebuilds | redis-6.0.8/src/aof.c:338-650 | with commands printed as SELECT and arguments through the write buffer: in every state, whatever the disk did, loading the file rebuilds the dataset as it was after the most executed commands whose entries lie among the whole items of the file; after a complete flush that is the dataset of the server |
| AofDatabases.RewriteRebuilds | redis-6.0.8/src/aof.c:1600-1838 | for every interleaving, loading a rewritten file rebuilds the dataset of the snapshot with every command since the fork run in its database |
| AofDatabases.ReplayIsApplied | redis-6.0.8/src/db.c:603-619 | replaying the entries of a log is applying their commands |
| AofDatabases.LogBytesRebuild | redis-6.0.8/src/aof.c:584-650 | in every run of a server, across rewrites and turning the log off and on, loading the bytes of the log gives its dataset whenever the log is on |
| AofSelect.Feeder.FeedAppendOnlyFile | redis-6.0.8/src/aof.c:584-650 | feeds live log and rewrite buffer with the same entries |
| AofSelect.Feeder.RewriteBackground | redis-6.0.8/src/aof.c:1600-1642 | a fork starts an empty diff and forgets the selected database |
| AofSelect.Feeder.RewriteDone | redis-6.0.8/src/aof.c:1690-1838 | success exchanges the log, forgets the selected database and turns a log on that waited for it; failure keeps the log |
| AofSelect.Feeder.StopAppendOnly | redis-6.0.8/src/aof.c:236-247 | turning the log off forgets the selected database and ends a rewrite |
| AofSelect.Feeder.StartAppendOnly | redis-6.0.8/src/aof.c:251-291 | turning the log on waits for a rewrite that starts now or later; if the file does not open or the rewrite does not start it fails |
| Adlist.List.AddNodeTail | redis-6.0.8/src/adlist.c:114-132 | the pointers spell out the old sequence and the new node |
| Adlist.List.AddNodeHead | redis-6.0.8/src/adlist.c:88-106 | the same at the head |
| Adlist.List.DelNode | redis-6.0.8/src/adlist.c:167-180 | the pointers spell out the sequence without the node, wherever it was |
| Adlist.List.RotateHeadToTail | redis-6.0.8/src/adlist.c:345-357 | the first node moves to the end, as the same object |
| Adlist.List.RotateTailToHead | redis-6.0.8/src/adlist.c:330-342 | the last node moves to the front |
| Adlist.List.Index | redis-6.0.8/src/adlist.c:315-327 | the node at the index from the head or, negative, from the tail, or null |
| Adlist.ListIter.Next | redis-6.0.8/src/adlist.c:229-240 | returns the nodes in order, then null |
| Adlist.ListIter.DelCurrent | redis-6.0.8/src/adlist.c:215-240 | removing the node returned last does not disturb the iteration |
| Blocked.QueueMembers | redis-6.0.8/src/blocked.c:556-597 | exactly the clients that wait for a key are in its queue |
| Blocked.AddPaired | redis-6.0.8/src/blocked.c:573-594 | a new node keeps every pair of client and key at exactly one node |
| Blocked.CutPaired | redis-6.0.8/src/blocked.c:609-620 | removing the pair's node keeps it so, and no empty list stays |
| Blocked.RotatePaired | redis-6.0.8/src/adlist.c:345-357 | rotation keeps it so |
| Blocked.Index.Append | redis-6.0.8/src/blocked.c:580-594 | a node is appended to the key's list, which is created if needed; all other lists are untouched |
| Blocked.Index.Drop | redis-6.0.8/src/blocked.c:613-619 | a node leaves its list; an empty list is released and leaves the dictionary |
| Blocked.Index.BlockForKeys | redis-6.0.8/src/blocked.c:556-597 | the client is queued last and once for every key, duplicates ignored, and every pair owns one node |
| Blocked.Index.UnblockClient | redis-6.0.8/src/blocked.c:601-635 | the client leaves every queue, all other clients keep their order, and the lists that remain are the same objects |
| Blocked.Index.Rotate | redis-6.0.8/src/blocked.c:226-231 | the first client of the key's queue becomes the last |
| Serving.PopConserves | redis-6.0.8/src/blocked.c:237-253 | BLPOP and BRPOP deliver the element that leaves the list |
| Serving.MoveConserves | redis-6.0.8/src/t_list.c:745-793 | BRPOPLPUSH moves the element between the two lists, or leaves both as they were |
| Serving.RotateConserves | redis-6.0.8/src/t_list.c:745-793 | BRPOPLPUSH onto the same list keeps its elements |
| Serving.Server.SignalKeyAsReady | redis-6.0.8/src/blocked.c:644-665 | a key is in the set exactly if one entry for it is pending; it is queued only if someone waits for it |
| Serving.Server.PushTo | redis-6.0.8/src/t_list.c:667-680 | a push that creates a key signals it; every non-empty list with a waiting client stays queued |
| Serving.Server.ServeClient | redis-6.0.8/src/t_list.c:745-793 | pushes the element at the head of the target, or does nothing if that holds something else, and replies |
| Serving.Server.ServeReceiver | redis-6.0.8/src/blocked.c:233-256 | the client is unblocked; it gets its element, or the element returns to the end it was popped from |
| Serving.Server.HeadIsThere | redis-6.0.8/src/blocked.c:222-226 | as long as clients are left to be looked at, the list is in the dictionary, not released, and its first node is the next client |
| Serving.Server.ServeListKey | redis-6.0.8/src/blocked.c:214-269 | the clients are looked at in queue order, those that wait for a list are served and freed until the list is empty, the others end up behind in their order, and an empty list is deleted |
| Serving.Server.HandleClientsBlockedOnKeys | redis-6.0.8/src/blocked.c:474-527 | ends, with nothing pending; no key holds a non-empty list with a client still waiting for it; lists, clients and replies are those of serving the ready keys one by one, each key's clients in the order in which they blocked |
| Serving.RoundsInTurn | redis-6.0.8/src/blocked.c:222-260 | clients that do not wait for a list, and their rotation, make no difference to who is served with what |
| Serving.Server.ServeLoop | redis-6.0.8/src/blocked.c:222-260 | the loop does what serving the queue in turn says, and in every queue those who still wait for a list stand in the order they stood in |
| Serving.KeyServed | redis-6.0.8/src/blocked.c:214-269 | serving a key in memory has the effect of serving its first clients by the queues as they were when the draining began |
| Draining.FirstServed | redis-6.0.8/src/blocked.c:214-261 | the clients that are served are the first of the queue, and if one is left the list is empty |
| Draining.ServeConserves | redis-6.0.8/src/t_list.c:745-793 | serving one client by BLPOP, BRPOP or BRPOPLPUSH, to another list, the same list or a wrong type, loses and doubles no element |
| Draining.KeyConserves | redis-6.0.8/src/blocked.c:214-269 | neither does serving one ready key and deleting a list that became empty |
| Draining.DrainConserves | redis-6.0.8/src/blocked.c:474-527 | over a whole drain, with any ready keys and refills, each element is still in some list or was sent to a client that asked for it, as often as before |
| DrainOrder.PopTakesEnd | redis-6.0.8/src/blocked.c:232-236 | BLPOP takes the first element, BRPOP the last, and the others stay in their order |
| DrainOrder.MoveGoesToHead | redis-6.0.8/src/t_list.c:666-682 | BRPOPLPUSH takes the last element and puts it in front of the target, a rotation if it is the same list; if the target holds something else nothing happens |
| DrainOrder.PopOneTakesEnd | redis-6.0.8/src/t_list.c:808-838 | an immediate BLPOP or BRPOP takes the first or last element, and the key with the last one |
| DrainOrder.PopMeans | redis-6.0.8/src/t_list.c:796-850 | the first key that exists decides what becomes of BLPOP and BRPOP; without one the client waits, or gets nothing in a transaction |
| DrainOrder.DrainExplains | redis-6.0.8/src/blocked.c:212-267 | over a whole drain the replies, read in their order as pops and pushes, explain the exact content of every list, and each was the element at its client's end at that time |
| DrainOrder.ArrivalsAreReversed | redis-6.0.8/src/t_list.c:666-682 | what arrives in a list from which nothing is served stands in front of it in the reverse order of serving |
| DrainOrder.DrainRepliesOnce | redis-6.0.8/src/blocked.c:212-267 | in a whole drain every client gets at most one reply, who gets one waits no longer, and only clients waiting for a list are unblocked |
| Serving.Server.ServeReadyKeys | redis-6.0.8/src/blocked.c:485-524 | one pass over the ready keys; only a pass that unblocks a client can leave ready keys behind |
| Serving.Server.BlockingPop | redis-6.0.8/src/t_list.c:796-850 | pops from the first key that exists, fails if it is not a list, else blocks for all keys, or replies with nothing inside a transaction; a malformed timeout changes nothing |
| Acl.RulesKeepReachable | redis-6.0.8/src/acl.c:737-901 | every user made by rules has right bits for unassigned ids, no subcommand list for an allowed command, and the flag only with all bits |
| Acl.RuleKeepsReachable | redis-6.0.8/src/acl.c:737-901 | a single rule keeps that |
| Acl.FirstRulesApply | redis-6.0.8/src/acl.c:462-487 | after +@all or -@all and the category rules the bits without a command are right and no lists exist |
| Acl.SubRulesApply | redis-6.0.8/src/acl.c:503-514 | a list of subcommands is rebuilt in order, each rule accepted |
| Acl.CommandFixed | redis-6.0.8/src/acl.c:492-515 | the rules for one command give it the user's bit and list and touch no other |
| Acl.DescriptionReplays | redis-6.0.8/src/acl.c:443-535 | every emitted rule is accepted, and on a new user they give the same bitmap and the same subcommand lists |
| Acl.SamePermissions | redis-6.0.8/src/acl.c:1069-1093 | for every user made by rules, the rebuilt user is permitted the same commands with the same first arguments |
| AclMeaning.AcceptedExactlyIf | redis-6.0.8/src/acl.c:820-905 | when exactly a rule is accepted and which error it gives otherwise; a rule that is not accepted changes nothing |
| AclMeaning.CategoryDecides | redis-6.0.8/src/acl.c:387-408 | +@ and -@ permit and deny exactly the commands of the category, with all their subcommands |
| AclMeaning.RuleDecides | redis-6.0.8/src/acl.c:745-905 | what any accepted rule does to any command and first argument |
| AclMeaning.RulesDecide | redis-6.0.8/src/acl.c:1061-1092 | for every list of rules: a command with its first argument is permitted if and only if it is AUTH, or an accepted rule grants it and no later accepted one revokes it |
| AclDescription.DescribedExactly | redis-6.0.8/src/acl.c:445-530 | a description holds a rule if and only if it is needed: the first for future commands, a category if most of it differs, a command if the rules so far got it wrong, a subcommand if it is allowed |
| AclState.AclUser.SetCommandBit | redis-6.0.8/src/acl.c:376-385 | sets the bit in place; clearing one clears the flag |
| AclState.AclUser.SetBitsForCategory | redis-6.0.8/src/acl.c:393-408 | switches exactly the commands of the category that are not module commands, and forgets their subcommands |
| AclState.AclUser.AddAllowedSubcommand | redis-6.0.8/src/acl.c:630-657 | appends the subcommand unless it is there in any case |
| AclState.AclUser.Set | redis-6.0.8/src/acl.c:737-901 | interprets one rule in memory as `SetUser` does on values (`AclMeaning.RuleDecides` says what that means) |
| AclState.AclUser.CountCategoryBits | redis-6.0.8/src/acl.c:414-434 | the numbers of allowed and denied commands of a category |
| AclState.AclUser.CheckCommandPerm | redis-6.0.8/src/acl.c:1069-1093 | permits exactly by flag, bit or subcommand |
| AclState.AclUser.DescribeUserCommandRules | redis-6.0.8/src/acl.c:443-535 | prints the description, and the final comparison of the bitmaps always succeeds |
| AclState.CommandIds.GetCommandID | redis-6.0.8/src/acl.c:1015-1043 | a name keeps its id, different names have different ids, and the reserved id is never given |
| Bitfield.SetUnsignedBitfield | redis-6.0.8/src/bitops.c:209-222 | the field holds the low bits of the value, most significant first, and no other bit changes |
| Bitfield.GetUnsignedBitfield | redis-6.0.8/src/bitops.c:229-241 | the number in the field |
| Bitfield.SetSignedBitfield | redis-6.0.8/src/bitops.c:224-227 | the same for the two's complement of the value |
| Bitfield.GetSignedBitfield | redis-6.0.8/src/bitops.c:243-263 | the number in the field, sign extended |
| Bitfield.FieldOfWritten | redis-6.0.8/src/bitops.c:209-241 | set then get returns the value modulo 2^bits |
| Bitfield.OtherField | redis-6.0.8/src/bitops.c:209-241 | a field beside the written one is as it was |
| Bitfield.SignedRoundTrip | redis-6.0.8/src/bitops.c:224-263 | set then get of a signed field returns the representative of the value modulo 2^bits |
| Bitfield.UnsignedCheck | redis-6.0.8/src/bitops.c:288-323 | as INCRBY and SET call it: non-zero exactly if the sum leaves the range; SAT gives the clamp, WRAP the sum modulo 2^bits |
| Bitfield.SignedCheck | redis-6.0.8/src/bitops.c:325-377 | the same for INCRBY on signed fields of every width |
| Bitfield.SignedSetCheck | redis-6.0.8/src/bitops.c:325-377 | for SET with any 64-bit value: non-zero exactly if out of range, WRAP right, and SAT the clamp if and only if the value is at least max - INT64_MAX |
| Bitfield.SignedSetCounterexample | redis-6.0.8/src/bitops.c:332-344 | storing the smallest 64-bit value with SAT in eight bits gives 127 |
| Bitfield.ExecSigned | redis-6.0.8/src/bitops.c:1043-1072 | SET and INCRBY store the sum, the wrapped or the clamped value or nothing, as asked, change no other bit, and reply with the new or the old value |
| Bitfield.ExecUnsigned | redis-6.0.8/src/bitops.c:1073-1102 | the same for unsigned fields |
| Bitfield.Get | redis-6.0.8/src/bitops.c:1104-1137 | the nine-byte window gives the field of the string followed by zeroes |
| Popcount.BytesCount | redis-6.0.8/src/bitops.c:46-50 | adding up the counts of the bytes counts the bits |
| Popcount.PackedCounts | redis-6.0.8/src/bitops.c:66-86 | after the folding steps every byte of a word holds the number of its bits |
| Popcount.AddWord | redis-6.0.8/src/bitops.c:80-86 | one more of seven words does not overflow any byte |
| Popcount.MultiplyAddsLanes | redis-6.0.8/src/bitops.c:86 | the multiplication by 0x01010101 adds the four bytes up in the topmost one |
| Popcount.TimesShifts | redis-6.0.8/src/bitops.c:86 | the multiplication is two shifted additions |
| Popcount.SevenWordsCount | redis-6.0.8/src/bitops.c:54-87 | the seven-word sum is the number of bits in 28 bytes |
| Popcount.RedisPopcount | redis-6.0.8/src/bitops.c:40-92 | the number of bits set, for every length and alignment |
| Bitpos.SkipWords | redis-6.0.8/src/bitops.c:118-142 | what is skipped holds no bit of the kind, and the next eight bytes hold one unless the string ends there |
| Bitpos.LoadWord | redis-6.0.8/src/bitops.c:144-159 | eight bytes with the first most significant and zeroes behind the end |
| Bitpos.ScanWord | redis-6.0.8/src/bitops.c:172-185 | the scan of the last word stops at the first bit of the kind; the panic behind it is not reached |
| Bitpos.RedisBitpos | redis-6.0.8/src/bitops.c:101-186 | the least index of a bit of the kind in the string followed by zeroes, or -1 if a one is sought and there is none |
| Bitop.ByteOfOp | redis-6.0.8/src/bitops.c:680-718 | an operation on words is the operation on each of their bytes |
| Bitop.FourWords | redis-6.0.8/src/bitops.c:680-729 | four words of the result are the fold of the operation over all inputs |
| Bitop.OneByte | redis-6.0.8/src/bitops.c:735-744 | one byte of the result, inputs being zero behind their ends |
| Bitop.Compute | redis-6.0.8/src/bitops.c:659-747 | the word path and the tail together give, for every byte of the longest input, the fold over the zero-extended inputs |
| Bitop.FoldedBit | redis-6.0.8/src/bitops.c:734-746 | bit by bit: AND asks for every input, OR for some input, XOR for an odd number of them, NOT for the absence of the bit |
| Crc64.CrcReflect | redis-6.0.8/src/crc64.c:69-78 | the loop reverses the bits of the word |
| Crc64.SlowCrc64 | redis-6.0.8/src/crc64.c:88-111 | the bit-by-bit loop gives the reflected shift register over all bytes |
| Crc64.ReflectBytes | redis-6.0.8/src/crc64.c:88-111 | the reflected bit-by-bit register is the byte-at-a-time fold |
| Crc64.FoldChunks | redis-6.0.8/src/crc64.c:121-123 | splitting the input into chunks changes nothing |
| Crc64.LittleInit | redis-6.0.8/src/crcspeed.c:33-49 | every table entry is a byte advanced by its number of bytes |
| Crc64.SlicesAdvance | redis-6.0.8/src/crcspeed.c:122-134 | the eight look-ups together advance the word by eight bytes |
| Crc64.CrcSpeed64Little | redis-6.0.8/src/crcspeed.c:111-143 | for every buffer, start and alignment the eight-byte form equals the byte-at-a-time fold |
| Crc64.Checksum | redis-6.0.8/src/crc64.c:116-123 | with the generated table, from 0, it equals the bit-by-bit definition |
| Crc64Values.CheckValue | redis-6.0.8/src/crc64.c:33-112 | the checksum of the digits 1 to 9 is 0xe9c6d914c4b8d9ca |
| Crc64Values.ResidueIsZero | redis-6.0.8/src/crcspeed.c:111-143 | data followed by its own checksum, least significant byte first, has the checksum zero |
| Crc64.Rev8Byte | redis-6.0.8/src/crcspeed.c:69-82 | byte reversal moves each byte to its mirrored place |
| Crc64.BigSlicesRefine | redis-6.0.8/src/crcspeed.c:192-204 | the look-ups with reversed tables are the reversed little-endian ones |
| Crc64.CrcSpeed64Big | redis-6.0.8/src/crcspeed.c:182-212 | with reversed tables and big-endian loads the result is the same fold |
| Geohash.CoordinateBits | redis-6.0.8/src/geohash.c:52-110 | the bits of the two coordinates are the even and the odd bits of the cell |
| Geohash.DeinterleaveInterleave | redis-6.0.8/src/geohash.c:52-110 | deinterleave64 inverts interleave64 for all 32-bit pairs |
| Geohash.InterleaveDeinterleave | redis-6.0.8/src/geohash.c:52-110 | and the other way round for all 64-bit cells, taking the coordinates from the two halves as geohashDecode does |
| Geohash.MoveXIsRingStep | redis-6.0.8/src/geohash.c:228-246 | the move adds +1 or -1 modulo 2^step to one coordinate and leaves the other |
| Geohash.MoveYIsRingStep | redis-6.0.8/src/geohash.c:248-264 | the same for the other coordinate |
| Geohash.NeighborOnTorus | redis-6.0.8/src/geohash.c:266-299 | a neighbour differs from the cell by the asked ring steps in both coordinates |
| Geohash.OnRingIsModular | redis-6.0.8/src/geohash.c:228-264 | one step along an axis is addition modulo 2^step |
| Geohash.NeighborIsModular | redis-6.0.8/src/geohash.c:266-299 | both coordinates of a neighbour are the shifted ones modulo 2^step |
| Geohash.NeighborsDistinct | redis-6.0.8/src/geohash.c:266-299 | two of the cell and its eight neighbours coincide exactly if their shifts do, and opposite shifts coincide only at step 1; so they are nine different cells if and only if step is greater than one |
| Geohash.GeoHashNeighbors.Fill | redis-6.0.8/src/geohash.c:266-299 | fills in the eight adjacent cells of the torus |

## Left out

- Crash and restart of servers: votes and epochs are not written to disk and read back.
- CLUSTER RESET, manual failover timing, replica migration, gossip, address updates, failure reports and module messages: they are heuristics or break the history of epochs.
- Deletion of keys in lost slots, the migrating state of slots and the lists of replicas per master: they take no part in the properties.
- ClusterState.ClusterState.UpdateSlotsConfigWith: does not model the flag with which a module disables redirection.
- ClusterElection.OneWinnerPerEpoch: asks that every winner counts with a cluster size of at least the masters that voted in the epoch; the size is not recomputed when the set of masters changes. An early acknowledgement makes a vote count wrong, but need not lead to two winners.
- ClusterCollision.CollisionsStop: is about runs in which the masters stay the same and no command or failover makes a new epoch.
- AofLoader.LoadAppendOnlyFile: hands files with an RDB preamble to code outside this model, stops at DISCARD and WATCH, which are never logged, and does not model running out of memory for an argument of absurd length.
- AofSelect.LogReplaysToDataset: takes the commands as they are fed; the translation of EXPIRE, SETEX and SET EX into PEXPIREAT is not part of this model.
- AofDatabases.FileRebuilds: takes executing a command as a function of the dataset, the database and the command, which MULTI and EXEC themselves leave alone; a file that ends in the beginning of a transaction is the matter of AofDurable.FileResumes.
- ClusterFailover.WinnerIsFollowed: is about a server that receives what the winner tells; that it is received in the end is not promised.
- ClusterCommands.SlotIsMoved: leaves out the check that no keys are left in the slot, because keys are not part of this model.
- AofRewrite.SuccessfulRewrite: treats the snapshot as bytes; how the dataset is written is not part of this model.
- Fsync and its threads: what is on the disk after a power failure is not modelled.
- Serving.Server.HandleClientsBlockedOnKeys: serves lists only; clients that wait for sorted sets, streams or modules stay where they are, and expiry and Lua are left out.
- Counters of blocked clients, the timeout table and the queue of unblocked clients: they would add only easy members.
- Passwords, key patterns, the ACL log, the tokenising of rules and module commands whose id does not fit the bitmap.
- Bitfield.UnsignedCheck: is stated for widths up to 63, which are the ones BITFIELD accepts for unsigned fields.
- Popcount.RedisPopcount: computes the entry of the table bitsinbyte instead of looking it up.
- Bitop.Compute: the copies of pointers that advance over the inputs are indices here.
- Crc64.CrcSpeed64Big: takes tables that are already byte-reversed; generating them on a big-endian host, and the 16-bit checksums, are left out.
- The floating-point parts of geohashEncode and geohashDecode.
- The event loop, networking, configuration, background threads, dictionaries and memory management.
