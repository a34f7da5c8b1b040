# SpawnNet, modelled and proved in Dafny

SpawnNet bootstraps parallel jobs.  Its parts build on each other, and so does this project:

* **Process groups** (`src/lwgrp.c`).  Every member of a group runs the same code and talks to the
  members 2^k places away on either side.  `AsyncNet` is an asynchronous machine with one program
  per rank: with a FIFO per directed channel, and with zero-buffer rendezvous.  `Rounds` says what a
  collective means for the whole group at once and which instructions one member runs for it, and
  `Execution` proves that every interleaving of either machine ends in that meaning: steps of
  different ranks commute, so the one schedule that is constructed decides every run
  (`Confluence`).  On top of that come the scans, reductions and gathers (`Doubling`,
  `Collectives`, `Gathering`, `CollectiveRuns`), the barrier as a whole and round by round (`Barrier`,
  `Truncation`, `RoundBarrier`), the bitonic sort for any
  group size (`Bitonic`, `GroupSort`), and the split of a group by colour and key (`SplitModel`,
  `SplitScan`, `SplitProof`, `Comparators`), up to the two-level groups of the example programs
  (`Comm`).  `HopGraph` is the construction of the group's channels from a ring, with connections
  arriving in any order.
* **Reliable transport over datagrams** (`src/spawn_net_ib.c`).  `Transport` holds the sliding
  window protocol of one end, as functions and as a class updated in place; `Reliable` runs two ends
  against a network that loses, duplicates and reorders, and carries the unbounded numbers behind
  the 16-bit ones (`Seqnum`).  `Staleness` shows that the bounds on the age of frames under which
  delivery is right are exact, and `AckPolicy` when acknowledgements are sent.  `ByteStream`
  cuts writes into packets and serves reads while packets arrive; `Credits` is the accounting of send credits and packet buffers.
* **String maps** (`src/strmap.c`).  An AVL tree with parent pointers on the heap (`StrNodes`,
  `StrSearch`, `StrSurgery`, `StrMap`), specified by tree values (`AvlTree`) and sorted lists of pairs
  (`StrItems`), with merging, packing and unpacking (`StrPack`, `StrTransfer`).
* **Named pipes** (`src/spawn_net_fifo.c`).  `FifoQueue` demultiplexes one pipe through a linked
  list, `FifoChannel` reads and writes channels, `FifoEndpoint` gives out ids and counts peers, and
  `FifoSession` runs any number of processes that connect to each other.

Conventions.  A rank's value is one element of a sequence; a collective is a list of rounds; a run
is the list of ranks in the order in which they step.  Code that updates things step by step is a
method or a class with `modifies` clauses, proved equal to a function; what the library promises is
proved about those functions.  A member's program is an instruction list, and the C loops that would
execute it are methods that return that list (`Groups.HopCode`, `GroupSort.SortCode`,
`SplitModel.SplitCode`).  Integers are unbounded except where a width matters: sums are taken modulo
2^64 and sequence numbers have 16 bits.

Some things the code does right only under a condition, and then the condition is exact.  The window
test and the acknowledgement test misjudge numbers that are too old: `Reliable.WindowTest` and
`Reliable.AckTest` say exactly when, `Reliable.DropExact` says exactly what an old acknowledgement
does, and `Staleness.ExactBounds` proves that delivery is right in all runs if and only if the
network delivers no packet 63034 or more behind the receiver and no acknowledgement 65135 or more
behind the sender's window, by building a run that goes wrong beyond either bound.  A read on a named
pipe writes past its buffer if and only if its size splits a message (`FifoChannel.ReadFits`).

## Model

| member | source | states |
|---|---|---|
| Confluence.EveryRunLeadsTo | src/lwgrp.c:1487-1528 | If steps of different ranks commute, one terminating schedule decides all: any run extends to the same final state, and a run that cannot go on is there |
| AsyncNet.BufferedCommutes | src/lwgrp.c:1494-1519 | With one FIFO per directed channel, steps of two ranks that are both enabled commute |
| AsyncNet.RendezvousCommutes | src/lwgrp.c:1427-1485 | The same when a write waits for its read |
| Groups.RoundCode | src/lwgrp.c:1494-1519 | The code of one round of the doubling loop: write left, write right, read left, read right, each where the neighbour exists |
| Groups.BlockingRoundCode | src/lwgrp.c:1436-1476 | The blocking round: odd relative ranks talk to the left first, even ones to the right |
| Groups.HopCode | src/lwgrp.c:1487-1528 | The whole loop over distances 1, 2, 4, ... emits exactly the program of the rank |
| Groups.GroupAlone | src/lwgrp.c:1487-1528 | Rounds of one group act on its members as if the group were alone, and on nobody else |
| BufferedRounds.RoundCompletes | src/lwgrp.c:1494-1519 | From any quiet network a buffered round can be completed, and it computes the synchronous round |
| BlockingRounds.ParityAlternates | src/lwgrp.c:1436-1440 | The parity of rank >> round differs at the two ends of every edge |
| BlockingRounds.PairMeets | src/lwgrp.c:1442-1470 | The two ends of an edge complete their exchange without any buffering |
| BlockingRounds.RoundCompletes | src/lwgrp.c:1427-1485 | For any size the blocking round completes under rendezvous and computes the same as the buffered round |
| Execution.EveryRunComputes | src/lwgrp.c:1427-1528 | Every interleaving, buffered or rendezvous, can be completed to the synchronous result; a stuck state is the final one; a rank that is done early already holds its result |
| Doubling.JoinAll | src/lwgrp.c:1652-1713 | An idempotent join, folded over the doubling distances in both directions, covers the whole group at every rank |
| Doubling.ScanAll | src/lwgrp.c:1778-1816 | Folding from the left over the doubling distances gives every rank the fold over itself and all ranks to its left |
| Doubling.ScanBackAll | src/lwgrp.c:1909-1982 | The same from the right |
| Collectives.AddInto | src/lwgrp.c:1800-1806 | Adds the received words element by element modulo 2^64, in place |
| Collectives.MaxInto | src/lwgrp.c:1690-1704 | Takes element-wise maxima in place |
| Collectives.ScanSum | src/lwgrp.c:1778-1816 | Every rank's scan is the prefix sum modulo 2^64 |
| Collectives.DoubleScanSum | src/lwgrp.c:1909-1982 | Every rank gets the prefix and the suffix sums |
| Collectives.AllreduceSum | src/lwgrp.c:1551-1570 | Left sum plus right sum minus own value is the total modulo 2^64, for every rank |
| Collectives.AllreduceMax | src/lwgrp.c:1652-1713 | Every rank ends with an upper bound of all values that is one of them, per element |
| CollectiveRuns.GroupInEveryRun | src/lwgrp.c:1427-1528 | In every execution a finished member holds what the group computes alone, and no execution gets stuck |
| CollectiveRuns.ScanInEveryRun | src/lwgrp.c:1716-1816 | The prefix sum, in every buffered and every blocking execution |
| CollectiveRuns.AllreduceSumInEveryRun | src/lwgrp.c:1530-1570 | The total modulo 2^64, in every buffered and every blocking execution |
| CollectiveRuns.AllreduceMaxInEveryRun | src/lwgrp.c:1572-1713 | The maximum, in every buffered and every blocking execution |
| CollectiveRuns.StrCodecLaw | src/spawn_net_util.c:89-150 | Every part of a map of NUL-free strings survives being written to a channel and read back |
| CollectiveRuns.AllgatherInEveryRun | src/lwgrp.c:1984-2097 | Maps that agree on shared keys are gathered as packed bytes; in every execution each finished rank holds the union of all |
| CollectiveRuns.TwoLevelAllgather | examples/allgather.c:19-24 | Node gather, leader gather, node gather: in every execution each finished rank holds the union over all ranks |
| Gathering.GatherAll | src/lwgrp.c:2050-2097 | One gather over a group gives every member the union, for any way of encoding maps that can be undone |
| Gathering.GroupGathers | src/lwgrp.c:2050-2097 | ... and changes nobody outside the group |
| Gathering.TwoLevelGathers | examples/allgather.c:19-24 | The composition of node, leader and node gathers gives every rank the union over all ranks |
| Barrier.AlwaysTruthful | src/lwgrp.c:1487-1528 | In every reachable state what a rank has heard of, directly or through others, has really entered |
| Barrier.NobodyLeavesEarly | src/lwgrp.c:1487-1528 | A rank whose rounds tell it about another leaves only after that other has entered |
| Barrier.GroupBarrier | src/lwgrp.c:1427-1528 | No member leaves the barrier before all members have entered, and nobody stays stuck in it, buffered or blocking |
| Barrier.BarriersStart | src/lwgrp.c:1487-1494 | The state before a barrier exists for every group and for every two levels |
| Truncation.CutRun | src/lwgrp.c:1494-1519 | Every execution of a program in two parts with separate channels contains an execution of the first part, however far other ranks have gone ahead |
| RoundBarrier.RoundByRound | src/lwgrp.c:1487-1528 | In every execution, a member that has finished k rounds implies that all members less than 2^k places away have entered |
| Barrier.TwoLevelBarrier | examples/barrier.c:37-42 | Node barrier, leader barrier and node barrier together are a barrier of all ranks |
| Bitonic.PairAgrees | src/lwgrp.c:590-636 | The two partners of an exchange keep one value each and agree on which, ties included |
| Bitonic.SortPermutes | src/lwgrp.c:654-726 | Sorting permutes the values |
| Bitonic.MergeSortsBits | src/lwgrp.c:567-652 | For any size a merge sorts every threshold image of a bitonic input |
| Bitonic.SortSorts | src/lwgrp.c:654-726 | For every group size the values end in order under the comparator |
| GroupSort.MergeCode | src/lwgrp.c:567-652 | The recursion of one rank, with its search for the largest smaller power of two, emits that rank's part of the merge |
| GroupSort.ExchangeCode | src/lwgrp.c:594-643 | One exchange: which partner, on which channel, and which value to keep |
| GroupSort.SortCode | src/lwgrp.c:654-702 | The sort recursion of one rank emits that rank's part of the sort |
| GroupSort.SortComputes | src/lwgrp.c:704-726 | The rounds of all ranks together compute the bitonic sort of the items in rank order and touch nothing else |
| Lex.LexIsTotal | src/lwgrp.c:433-449 | String comparison is a total order and zero exactly on equal strings |
| Lex.LexIsStrcmp | src/strmap.c:285-316 | The comparison is negative if and only if the first string is a proper prefix of the second or smaller at the first difference, positive in the mirrored case, and zero on equal strings |
| Comparators.ComparatorsAgree | src/lwgrp.c:378-478 | Integer triples and string/rank pairs compare as the items of the split do; the colour comparisons tell exactly when colours are equal, and the string comparison gives -1 or 1 as one string comes before the other in dictionary order |
| SplitModel.SplitCode | src/lwgrp.c:980-1253 | The code of one rank for the split: longest names, sort, borders, scan, result, sort back |
| SplitProof.LengthsAgree | src/lwgrp.c:1213-1216 | Before the sort every rank knows the longest length of each kind of string, so all buffers have one size and every string fits |
| SplitScan.RightFold | src/lwgrp.c:1079-1169 | The right-going segmented sum at p counts positions from the start of p's run and the runs up to p |
| SplitScan.LeftFold | src/lwgrp.c:1079-1169 | The left-going one counts positions to the end of p's run and the runs from p on |
| SplitScan.ScanComputed | src/lwgrp.c:1079-1169 | The doubling loop computes both, for any borders and any size |
| SplitScan.MiddleComputes | src/lwgrp.c:1019-1175 | After borders, scans and the final arithmetic, each item knows its position, the size of its run, the run's number, the number of runs and the names of its neighbours |
| SplitProof.ColorGroupUnique | src/lwgrp.h:22-28 | The members of a colour have one order by key and then rank |
| SplitProof.RunIsColorGroup | src/lwgrp.c:980-1175 | A run of equal colours in the sorted items is the group of that colour, in order |
| SplitProof.SortBack | src/lwgrp.c:1171-1175 | Sorting results by source rank returns result i to rank i |
| SplitProof.SplitComputes | src/lwgrp.c:1197-1253 | After the split rank i has the size of its colour's group, its position in it and the names of the neighbours in that order |
| SplitProof.SplitIsCorrect | src/lwgrp.c:1197-1336 | The same in every asynchronous execution, and no execution gets stuck |
| Comm.CommCreate | examples/comm.c:88-96 | Splitting by host name and then by node rank gives disjoint nodes that cover all ranks and a leader group with the first rank of every node |
| Comm.NodesExist | examples/comm.c:88-91 | For every assignment of host names there is the list of node groups |
| Comm.LeadersExist | examples/comm.c:93-96 | For every assignment of node ranks there is the leader group |
| Comm.CommBarrier | examples/barrier.c:37-42 | From end to end: after the two splits, in any executions, the groups are nodes and leaders, each leader has its place among them, and the two-level barrier over these groups is a barrier of all ranks in every execution |
| HopGraph.StepKeeps | src/lwgrp.c:23-59 | Each step of a connect call, of the accept loop and of the address exchange keeps: names are those 2^k away, every call is waiting, held or filed in one place only, and each stream holds exactly the packets in transit |
| HopGraph.HopGraphBuilt | src/lwgrp.c:170-250 | Whatever the order of arrival, a finished rank has exactly one channel to each rank 2^k to the right and one from each 2^k to the left, and two finished ranks hold the two ends of one channel |
| HopGraph.GraphNeverStuck | src/lwgrp.c:170-250 | Until all ranks have finished some rank can move, also when connect calls wait to be accepted |
| HopGraph.GraphRunsEnd | src/lwgrp.c:170-250 | Every run is finite, with an explicit bound |
| Seqnum.BetweenIsDistance | src/spawn_net_ib_internal.h:311-315 | The three-case interval test is a comparison of distances around the 16-bit circle |
| Seqnum.AheadForward | src/spawn_net_ib_internal.h:311-321 | Within one turn the circular distance is the true distance |
| Transport.VirtualChannel.Post | src/spawn_net_ib.c:1287-1349 | Submits a packet: numbered, tracked and sent now with an acknowledgement, after which none is due or counted, or appended to the waiting ones |
| Transport.VirtualChannel.FlushExtWindow | src/spawn_net_ib.c:1353-1395 | Sends waiting packets in order while the window has room |
| Transport.VirtualChannel.ProcessAcknum | src/spawn_net_ib.c:1399-1437 | Drops the acknowledged packets from the front of the window, then flushes |
| Reliable.AckMoveKeeps | src/spawn_net_ib.c:1594-1633 | An explicit acknowledgement may be sent at any time: it covers only what has been delivered, and both ends keep their invariants |
| Reliable.AgainKeeps | src/spawn_net_ib.c:1719-1756 | Any packet of the window may be sent again at any time, with a fresh acknowledgement, and both ends keep their invariants |
| Transport.VirtualChannel.FindPlace | src/spawn_net_ib.c:341-390 | The walk with its wrap-around cases finds the place by circular distance from the window start |
| Transport.VirtualChannel.RecvWindowAdd | src/spawn_net_ib.c:329-431 | Inserts in that place and rejects exactly the duplicates |
| Transport.VirtualChannel.PlaceRecvwin | src/spawn_net_ib.c:1507-1587 | Discards what is outside the window, delivers what is due with all that follows it, keeps the rest; in each case an acknowledgement is due afterwards, and none is sent or counted |
| Transport.VirtualChannel.ProcessFrame | src/spawn_net_ib.c:1809-1886 | Processes the acknowledgement and places the packet; a data frame makes an acknowledgement due; unless it is an ACCEPT packet it is counted, or, at the 101st, exactly one explicit acknowledgement is sent with the number from before the packet and the count starts again |
| Transport.FrameCounts | src/spawn_net_ib.c:1866-1882 | The same as a law of the specification: one more counted, or one explicit acknowledgement, or, for an ACCEPT packet, neither |
| Transport.VirtualChannel.CheckAck | src/spawn_net_ib.c:1636-1652 | Sends an explicit acknowledgement exactly if one is due, and then none is |
| AckPolicy.AtMostHundredPending | src/spawn_net_ib.c:1873-1877 | In every reachable state, over any network, no end has counted more than 100 data frames since it last acknowledged |
| AckPolicy.AcksInTime | src/spawn_net_ib.c:1873-1877 | From any reachable state on, an end that hears more than 100 data frames other than ACCEPT packets and transmits no new packet has sent an explicit acknowledgement meanwhile |
| AckPolicy.CheckAcknowledges | src/spawn_net_ib.c:1636-1652 | In every reachable state, after the check for due acknowledgements the last frame sent acknowledges all that was received: the peer may hear it, its window then begins with the first packet not received, and both its queues are empty if everything was received |
| Reliable.HearIsProcessRecv | src/spawn_net_ib.c:1809-1886 | Hearing a frame with its true numbers does to the channel what the 16-bit code does |
| Reliable.AckTest | src/spawn_net_ib_internal.h:311-315 | For acknowledgements up to a turn old, the test on the front packet succeeds if and only if the packet is covered or the acknowledgement has come round into the window |
| Reliable.DropExact | src/spawn_net_ib.c:1399-1425 | Exactly how many packets an acknowledgement up to a turn old removes |
| Reliable.DropRemovesCovered | src/spawn_net_ib.c:1399-1425 | Within the stated staleness that is exactly the packets it covers |
| Reliable.FlushShape | src/spawn_net_ib.c:1353-1395 | Flushing keeps the window consecutive, ending just before the next number, at most 401 long, and takes waiting packets in submission order |
| Reliable.WindowTest | src/spawn_net_ib.c:1507-1530 | For numbers less than a turn apart, a packet passes the window test if and only if it is the due one or ahead by no more than the window, or so old that it has come round into it |
| Staleness.StaleDataIsTight | src/spawn_net_ib.c:1507-1587 | If the network may deliver a packet 63034 behind, there is a run in which a packet is delivered twice |
| Staleness.StaleAckIsTight | src/spawn_net_ib.c:1399-1437 | If the network may deliver an acknowledgement 65135 behind, there is a run after which the sender holds everything for acknowledged and the receiver lacks 401 packets |
| Staleness.ExactBounds | src/spawn_net_ib.c:1287-1587 | For every network that delivers anything at all, delivery is right in all runs if and only if it keeps to both bounds |
| Reliable.InsertMatches | src/spawn_net_ib.c:329-431 | The list of early packets stays strictly increasing in true numbers |
| Reliable.DrainMatches | src/spawn_net_ib.c:1552-1584 | Draining moves over exactly the early packets that have become due |
| Reliable.MoveKeeps | src/spawn_net_ib.c:1287-1587 | Every move of either end keeps the invariants of both ends |
| Reliable.ReliableDelivery | src/spawn_net_ib.c:1287-1587 | Over any loss, duplication and reordering within the staleness bounds, in both directions at once, what is delivered is a prefix of what was submitted, and all of it once everything is acknowledged |
| Reliable.EarlyPacketsInOrder | src/spawn_net_ib.c:329-444 | In every reachable state the out-of-order list increases in circular distance from the next expected number |
| ByteStream.Write | src/spawn_net_ib.c:3679-3726 | At every end whose window is in order, a write appends to what has been posted data packets that join to its bytes, none empty and none over 1984, and leaves the window in order |
| ByteStream.PostDataPosts | src/spawn_net_ib.c:3699-3722 | Posting packets one by one appends exactly them, in order, to what has been posted, whether they are sent or wait |
| Buffers.ChunksFlat | src/spawn_net_ib.c:3699-3722 | The packets together are the bytes, none is empty and each fits |
| ByteStream.TakeMoves | src/spawn_net_ib.c:3634-3670 | One turn of the reading loop moves bytes from the front of what is pending to the end of what is copied, and loses none |
| ByteStream.Inbox.Add | src/spawn_net_ib.c:1440-1458 | A packet that arrives is appended to what is unread |
| ByteStream.Inbox.ReadSome | src/spawn_net_ib.c:3612-3677 | The loop copies until the buffer is full or it must wait; what it copied and what is unread make up what was unread |
| ByteStream.Inbox.Read | src/spawn_net_ib.c:3612-3677 | A read of any size returns the next bytes, across packets, and leaves the rest, by the offset into the front packet |
| ByteStream.HappensKeeps | src/spawn_net_ib.c:3632-3670 | Whatever happens, on the network or in a read, what has been copied and what is pending are all that has arrived |
| ByteStream.StreamDelivered | src/spawn_net_ib.c:3612-3726 | For any interleaving of network actions, writes, reads and turns of the reading loop, with any sizes, and in either direction: what reads have copied is exactly the first bytes written, as many as were asked for when none waits; once all is acknowledged the rest is there |
| Credits.UdContext.PostSendRequest | src/spawn_net_ib.c:1234-1282 | Conserves credits: the buffer goes to the card on a credit, or waits last in line because there is none |
| Credits.UdContext.PostSend | src/spawn_net_ib.c:1318-1349 | The packet is on its way, last in its window and in the unacknowledged queue; other channels are untouched, and all accounting stays valid |
| Credits.UdContext.UpdateSendCredits | src/spawn_net_ib.c:2116-2169 | Card and line keep their order, and afterwards nobody waits while there is a credit |
| Credits.UdContext.GetBuffer | src/spawn_net_ib.c:720-748 | The buffer is in no other place: not free, not with the card, not waiting, in no window and without a mark |
| Credits.ReleaseKeeps | src/spawn_net_ib.c:750-783 | Releasing a buffer that is nowhere else keeps every buffer in one place, whether it is freed now or marked until its send completes |
| Credits.UdContext.DropBuffer | src/spawn_net_ib.c:750-783 | A buffer in use is free at once, as the card does not have it |
| Credits.UdContext.SendCompleted | src/spawn_net_ib.c:2215-2247 | One credit is due, the buffer is off the card and unmarked, and free exactly if it was waiting for this |
| Credits.UdContext.PacketAcked | src/spawn_net_ib.c:1411-1428 | The front packet leaves its window and the unacknowledged queue, other channels keep theirs, and its buffer is free unless the card has it |
| Credits.UdContext.ResendPacket | src/spawn_net_ib.c:1676-1756 | Does nothing while the last send is in progress; otherwise the packet is on its way again, and no queue of packets changes |
| Credits.UdContext.SendExplicitAck | src/spawn_net_ib.c:1594-1633 | The acknowledgement is on its way and no window, mark or free buffer changes |
| Credits.ActKeeps | src/spawn_net_ib.c:720-783 | Every operation keeps the accounting of credits and the place of every buffer |
| Credits.BuffersAndCredits | src/spawn_net_ib.c:2116-2169 | Over any sequence of operations: free credits, posted sends and uncredited completions add up to a constant; sends wait only without credits; the unacknowledged queue is made up of the send windows in order; no buffer is free twice, nor free while posted, waiting, in progress, in use or in a window |
| AvlTree.RebalanceKeepsOrder | src/strmap.c:357-412 | Rebalancing up to the root does not change the order of the nodes |
| AvlTree.FixBalances | src/strmap.c:371-404 | One node whose balanced subtrees differ by at most two comes out balanced and at most one lower |
| AvlTree.RebalanceBalances | src/strmap.c:357-412 | After a subtree has changed by one level, rebalancing from there restores balance everywhere |
| StrNodes.SetHeight | src/strmap.c:180-199 | One more than the taller child |
| StrNodes.RotateNodeLeft | src/strmap.c:201-239 | The pointer updates realise the left rotation of the tree, with parent links and exact heights |
| StrNodes.RotateNodeRight | src/strmap.c:241-278 | The same to the right |
| StrNodes.BalanceFactor | src/strmap.c:333-353 | The difference of the heights of the subtrees |
| StrNodes.FixNode | src/strmap.c:357-404 | Single and double rotations at one node realise its rebalancing |
| StrNodes.RebalanceFrom | src/strmap.c:357-412 | The walk to the root realises the rebalanced tree and returns its root |
| StrSearch.Search | src/strmap.c:282-331 | Finds the node with the key, or the place and side where it belongs, with its parent |
| StrSearch.Leftmost | src/strmap.c:150-162 | The first node of a subtree in order |
| StrSearch.Rightmost | src/strmap.c:164-177 | The last one, with the path of right turns to it |
| StrSearch.Next | src/strmap.c:518-543 | The successor in order, by the right subtree or by the parent links |
| StrSurgery.ExtractSingle | src/strmap.c:430-465 | Splices out a node with at most one child |
| StrSurgery.ReplaceNode | src/strmap.c:726-773 | Two-child deletion: the predecessor takes the node's place, in order, and rebalancing starts where the tree has become lower |
| StrSurgery.InsertNode | src/strmap.c:569-597 | A new node at its place gives a linked, balanced tree with the node in order |
| StrSurgery.RemoveNode | src/strmap.c:720-784 | Removal gives a linked, balanced tree of the other nodes in order |
| StrMaps.StrMap.constructor | src/strmap.c:92-99 | The empty map |
| StrMaps.StrMap.Get | src/strmap.c:659-671 | Looks the key up in the finite map |
| StrMaps.StrMap.Set | src/strmap.c:562-613 | Inserts or overrides in the finite map and keeps search order, parent links, exact heights, balance and packed size |
| StrMaps.StrMap.Unset | src/strmap.c:710-791 | Removes from the finite map and keeps the same |
| StrItems.ItemsUnique | src/strmap.c:518-543 | A finite map has only one list of pairs in key order |
| StrItems.SortedByStrcmp | src/strmap.c:282-331 | A list is in key order if and only if every key comes before all later ones in the dictionary order of strcmp |
| StrTransfer.First | src/strmap.c:468-478 | Returns the entry whose key comes before all other keys of the map in the order of strcmp, and NULL exactly for the empty map |
| StrTransfer.NextOf | src/strmap.c:518-543 | Returns the entry with the least key, in that order, that comes after the given one, and NULL exactly if there is none |
| StrTransfer.Merge | src/strmap.c:117-129 | The destination becomes its content overridden by the source |
| StrTransfer.Pack | src/strmap.c:828-862 | Writes exactly 8 + len bytes at the given place and changes nothing else: each header byte is the digit of the size that network order puts there, and the pairs follow in the order of strcmp |
| StrTransfer.Unpack | src/strmap.c:864-886 | The entries found in the bytes override those of the map |
| StrTransfer.WriteMap | src/spawn_net_util.c:89-120 | The channel gets the packed size and the packed map, all of them bytes if the strings are |
| StrTransfer.ReadMap | src/spawn_net_util.c:122-150 | Reads them back into a map; a channel that ends early changes nothing |
| StrTransfer.WireRoundTrip | src/spawn_net_util.c:89-150 | What is written is read back as the same map, whatever follows on the channel |
| StrPack.BigEndianRoundTrip | src/spawn_util.c:219-232 | Packing and unpacking an integer that fits is the identity |
| StrPack.BigEndianDigits | src/spawn_util.c:219-224 | Byte j of a packed integer is its base-256 digit of weight k - 1 - j: most significant first, every element a byte |
| StrPack.PackedAreBytes | src/strmap.c:828-862 | Every element of a packed map of NUL-free strings is in 0..255, and the header holds the digits of the size |
| StrPack.PackedLayout | src/strmap.c:838-858 | Behind the header and the earlier pairs stand the key, a zero, the value and a zero of each pair |
| StrTransfer.WireAreBytes | src/spawn_net_util.c:89-120 | Everything that is sent for a map of NUL-free strings is in 0..255 |
| StrPack.ParsePacked | src/strmap.c:864-886 | Parsing the packed pairs gives the pairs back |
| StrPack.PackRoundTrip | src/strmap.c:828-886 | Unpacking what was packed gives the map back, for every map of NUL-free strings |
| FifoQueue.Receiver.Progress | src/spawn_net_fifo.c:303-337 | Queues everything in the pipe in order and counts disconnect messages |
| FifoQueue.Receiver.Take | src/spawn_net_fifo.c:308-330 | A disconnect message is counted and its source noted; a packet of any other kind is appended to the queue |
| FifoQueue.Receiver.Extract | src/spawn_net_fifo.c:341-370 | Takes one packet out of the linked list |
| FifoQueue.Receiver.PacketRead | src/spawn_net_fifo.c:373-450 | Returns the earliest packet of the wanted kind and, except for CONNECT, of the wanted source, also when it must wait and searches only what is new; no earlier packet is both, and all others stay in order |
| FifoChannel.TakeMessage | src/spawn_net_fifo.c:373-390 | The first match is the front of that channel's messages, and the other packets are untouched |
| FifoChannel.LaneOfOthers | src/spawn_net_fifo.c:810-853 | Reading one channel leaves all other channels' messages in place |
| FifoChannel.WriteFifo | src/spawn_net_fifo.c:856-909 | A write puts its bytes into the pipe as packets that fit |
| FifoChannel.ReadFifo | src/spawn_net_fifo.c:810-853 | For any size: copies whole messages until the size is reached, as few as possible, and leaves the rest |
| FifoChannel.ReadFits | src/spawn_net_fifo.c:832-848 | That writes exactly the requested size if and only if the size is that of whole messages |
| FifoChannel.LaneOfKept | src/spawn_net_fifo.c:303-337 | Draining the pipe into the queue loses no message |
| FifoChannel.LaneOfWriter | src/spawn_net_fifo.c:393-450 | For any packet-atomic interleaving each writer's packets arrive in its order |
| FifoChannel.ReadSession | src/spawn_net_fifo.c:810-909 | Any number of writers interleave their packets in any way and the process reads its channels in any order: with read sizes that match write sizes, the j-th read on a channel returns exactly the bytes of its peer's j-th write |
| FifoEndpoint.Endpoint.ConnectRequest | src/spawn_net_fifo.c:582-625 | The request carries a new id and the name of the endpoint, as the acceptor will read them |
| FifoEndpoint.Endpoint.ConnectReply | src/spawn_net_fifo.c:627-666 | Takes the first ACCEPT packet that is marked with the id of the request, past requests, messages and replies to others; the id in it becomes the write id, the rest stays, and the writer is counted |
| FifoEndpoint.Endpoint.AcceptRequest | src/spawn_net_fifo.c:670-750 | Takes the first CONNECT packet, past all other kinds; answers to the name in it, marked with the id in it and carrying a new id; the rest stays, and the writer is counted |
| FifoEndpoint.RequestRead | src/spawn_net_fifo.c:590-612 | What the acceptor reads from a request is the id and the name that were put in |
| FifoEndpoint.ReplyRead | src/spawn_net_fifo.c:708-721 | What the connector reads from a reply is the id that was put in |
| FifoSession.StepKeeps | src/spawn_net_fifo.c:373-390 | Each connect, accept, reply, message and read of any process keeps: every call is waiting at its target, answered or finished in one place only, and every request and reply in a pipe belongs to one call |
| FifoSession.ChannelsPairUp | src/spawn_net_fifo.c:582-750 | Any number of processes connect and accept in any order, with any messages in their pipes: the two ends of each channel write with the id that the other reads with, no id is used twice in a process, an accepted channel whose peer still waits has its reply there, and no waiting call is lost |
| FifoEndpoint.Endpoint.Close | src/spawn_net_fifo.c:504-555 | The last close returns only after as many disconnect messages as channels were established |
| FifoEndpoint.AllDeparted | src/spawn_net_fifo.c:520-526 | ... which, with at most one per established peer, means that every peer has disconnected |

## Left out

- Verbs, queue pair setup, memory registration, threads, locks and clocks: posting, completion and timeouts are steps that may happen at any time.
- Connection teardown, retry exhaustion (tossed packets), DISCONNECT and SHUTDOWN packets of the datagram transport: the delivery theorem is about open connections.
- Connection setup of the datagram transport: a repeated CONNECT is treated as data behind the window, and the ACCEPT packet is the first packet of the stream that it answers.
- Reliable.AgainKeeps: the check that skips a packet still in progress is in Credits.UdContext.ResendPacket; the retry count is not modelled.
- Staleness.ExactBounds: a network that delivers neither the next packet nor the first acknowledgement is excluded, as nothing happens over it.
- The intrusive queue links of packet buffers: windows, the unacknowledged queue, the waiting queues and the free list are sequences, updated in place as fields; the `count` field of the receive window is not modelled.
- Recovery of buffers that carried explicit acknowledgements: the library never marks them and never gets them back, so they are never free again in the model either.
- StrTransfer.Unpack: the bytes must hold terminated strings up to the stated size, as the library assumes without checking.
- StrPack.PackRoundTrip: the packed size must fit in 64 bits.
- NULL values, printf-style helpers, backwards iteration, deletion of whole maps and error messages of the string map.
- FifoChannel.ReadFifo: the memory behind the buffer must hold the whole messages that are copied; FifoChannel.ReadFits says when that is no more than the requested size.
- FifoEndpoint.Endpoint.Close: it terminates because every established peer is assumed to disconnect.
- Waiting in the named pipe transport: a call that waits is given the packets that will arrive while it waits, so waiting forever is not modelled; channel ids are not truncated to 32 bits.
- FifoSession.ChannelsPairUp: a process that has given out all 2^64 ids gives out no more, where the library would begin again; a request with an unknown name is not answered.
- The 24-byte header of packets in a pipe: kind, source and payload are fields.
- HopGraph.HopGraphBuilt: addresses are modelled by ranks; sending and receiving within a channel is buffered, as in the variant that the library calls.
- The truncation of ranks to 32 bits in the exchange of the sort, and the blocking variants of the sort, of the split and of connecting.
- lwgrp_shift, the TCP transport, dispatch between transports, endpoint name parsing, the clock, and the PMI and shared memory parts of the example programs.
