# A model of YMPI and its ping-pong programs

YMPI (`src/ympi.c`, `include/ympi.h`) is a small zero-copy messaging layer over InfiniBand verbs.
Around it the repository has the queue it rests on (`include/linkedlist.h`), an all-to-all exchange by
remote writes, a multi-hop shuffle with its own choice of processes (`src/ympi_shuffle.c`), a ring of
receive buffers (`src/iballputall.c`) and the verbs ping-pong programs (`src/rc_pingpong.c`,
`src/srq_pingpong.c`, `src/pingpong.c`).  This project models these parts in Dafny 4.11 and proves what
they promise.  `dafny verify dfyconfig.toml` checks all of it.

## The modules

- `Common`: two shared types, and sums over sequences.
- `PooledQueue`: the two intrusive chains in one node array, with the null pointer -1 and node pointers
  as array indices, proved to be one bounded FIFO sequence.
- `YmpiSetup`: the table from queue pair numbers to ranks, for any choice of the queue pairs that are made.
- `YmpiProcess`, `YmpiNode`, `YmpiNetwork`, `YmpiRuns`: one process as values; the process with its half
  of the network card; n of them joined by links; and whole runs.  A run is any interleaving of sends,
  one-sided requests, deliveries into any posted vbuf, completion reports, polls, receives, returns,
  flushes, and stores by the client into memory it has not handed to a pending send.
- `YmpiContext`: the global context with its counters, arrays and queues, updated in place by the calls,
  each proved against a function of `YmpiProcess`.  `YmpiCalls` ties the calls to the runs: while a call
  waits, the card and the other ranks do anything that the network allows, and each poll finds what is in
  the completion queue at that moment.  `YmpiRefusal` is a run that ends with a refused post, and `YmpiWaiting`
  says exactly when a waiting flush or receive can end.
- `Alltoall`: the rotating loop of writes, and all ranks together: counters, refused writes, the throttle,
  reports and polls, and the single bytes that land.
- `Topology`, `Route`: the two board scans, the choice of board size and number of boards, the selection
  of processes, the route table, and the routes of all ranks together.
- `PingPong`: both programs with any number of queue pairs (one of them for `src/rc_pingpong.c`), as an
  object updated in place and as a two-party step system.
- `RingWindow`: the ring of receive slots and the work request list that is used again and again, under
  completions in any order.
- `Address`: the printed address and the text of the global identifier, on machines of either byte order.

## What is assumed

- A queue pair is reliable-connected: requests of one rank for another are carried out in order, each once,
  and reported after they were carried out (InfiniBand Architecture Specification Volume 1, section 9.7).
  Receive completions of different queue pairs come in any order, and vbufs are taken in any order; no theorem
  about YMPI needs more.  The ring window does need more: its assertion holds exactly if the card completes the
  shared receives in the order in which they were posted (`RingWindow.PassesIffInOrder`).
- The ranks of an all-to-all enter it with any counters, up to the limit, that earlier calls left behind; the
  requests of those earlier calls do not touch the buffers that are exchanged.
- A message is at most one vbuf long, as `include/ympi.h` line 8 asks.
- The sender leaves a sent region alone until its flush returned; short messages are captured when posted
  (`src/ympi.c` 819-823), long ones are read on delivery.
- One thread for each process: the counters are not atomic by choice (`src/ympi.c` 17-34).
- Polls do not fail in a run; what a call does when one fails is part of its function in `YmpiContext`.
- What the card answers (polled completions, acceptance of a post, room in a receive queue) is a parameter.
  A call that polls in a loop is given the answers; it ends as spinning when they are used up.
- MPI collectives and `qsort` do what they are specified to do.

## What came out differently from what a reader may expect

- The throttle (`src/ympi.c` 869-878) polls one non-empty batch and goes on.  There is room for the next
  post if and only if that batch had a completion for the same destination (`YmpiRuns.ThrottleLeavesRoom`).
  Otherwise the counter stays at 256, the next post is refused, and the counters do not change.  From every
  initial state with two connected ranks some run comes to this (`YmpiRefusal.RefusedPost`).
- The all-to-all ignores what `YMPI_Write` answers (`src/ympi.c` 1195-1199), so a refused write leaves its block
  unwritten while flush and barrier succeed (`Alltoall.FullQueueLosesBlock`).  All runs transpose the buffers
  if and only if every rank enters with fewer than 256 pending requests for every other rank
  (`Alltoall.TransposesIff`); a flush before the call is enough (`Alltoall.FlushBeforeIsEnough`).
- A process posts no vbuf while it waits.  A flush can return if and only if what the process sent to itself fits
  the vbufs that it has posted (`YmpiWaiting.FlushCanEndIff`); requests for other ranks never hold it up for good,
  as long as those get on with their receives.  A receive with a message on its way can end if and only if a vbuf is
  posted or a message of that source has arrived (`YmpiWaiting.ReceiveCanEndIff`): a process whose 256 vbufs all
  hold other messages waits for ever.
- An error of the poll inside the throttle ends the loop silently and the call returns 0, while the flush
  and the receive leave the process (`YmpiContext.Context.PollOnce`).
- A refused post in `YMPID_Return` loses the vbuf it was about to post (`YmpiContext.Context.Return`).
  The shared queue has room for 512, so this does not happen (`YmpiRuns.QueuesNeverFull`).
- With several queue pairs a ping-pong side counts exchanges over all of them, although the usage text of
  `src/srq_pingpong.c` (line 615) says per queue pair, and it may post up to `iters + numQp - 1` sends.
  Exactly `iters` is a bound in all runs if and only if there is one queue pair (`PingPong.ExactOnlyWithOneQp`).
- The static `total_iter` of the shuffle is never set back: a call writes behind the rows of the earlier ones.
  Calls with one topology stay inside the 20 rows if and only if the number of calls times the iterations of one
  is at most 20 (`Route.RepeatedCalls`).  A first call always fits (`Route.TopologyFits`); 4096 processes on 256
  boards of 16 choose a topology whose second call does not (`Route.SecondCallDoesNotFit`).
- A best board size below 4 looks up 0 in a table that begins with 1, and reads in front of the table
  (`src/ympi_shuffle.c` 33-41, 133).  The best size is at least 4 if and only if boards of some size of at
  least 4 make use of more processes than boards of 1, 2 and 3 do (`Topology.BestIsFourIff`), and the choice
  leaves its table exactly if not (`Topology.ChooseShape`, `Topology.GetTopology`).  Whenever every node number
  occurs four times it stays inside (`Topology.FourEachPays`); with a single process it does not
  (`Topology.OneProcessIsTooFew`).  With more than 256 boards, and only then, the first scan leaves its array
  (`Topology.ScanBoards`).
- The assertion `idx == id` of the ring window passes for a sequence of completions if and only if their ids come
  in the order of the ring (`RingWindow.PassesIffInOrder`).  All queue pairs share one receive queue there, and the
  note at `src/ympi.c` 426-433 says that such completions may come in another order; two receives that overtake
  each other stop the program (`RingWindow.Overtaken`).
- A flush of the ring window with nothing consumed since the window was full indexes -1
  (`RingWindow.Receiver.OnFlush`).  This is so after every multiple of 1024 receives, and only then
  (`RingWindow.FlushInRange`).
- A number that needs more digits than its field overruns the 52 bytes of the address message
  (`src/rc_pingpong.c` 158, 193-194), exactly if it has more than 16, 24 or 24 bits (`Address.MessageFills`).
- A group of the global identifier without a hexadecimal digit keeps the word of the group before it, and the
  first one an uninitialised word (`src/pingpong.c` 57-70, `Address.WireGidToGid`).
- `YMPI_Alltoall_write_ptr` registers `sendsize * numprocs * numprocs` bytes, where `sendsize * numprocs`
  are used; the bound that its writes need is the smaller one (`Alltoall.PostRow`).

## Model

| member | source | states |
|---|---|---|
| PooledQueue.MoveKeepsChains | include/linkedlist.h:71-79 | taking the first node after one sentinel and linking it behind the other chain leaves two acyclic, disjoint chains that account for the whole pool |
| PooledQueue.ChainsCoverPool | include/linkedlist.h:37-50 | every node of the array is on exactly one of the two chains |
| PooledQueue.VbufQueue.Init | include/linkedlist.h:33-51 | a fresh queue is empty and its chains partition the node array |
| PooledQueue.VbufQueue.Clear | include/linkedlist.h:53-63 | empties the queue, and its nodes are free again |
| PooledQueue.VbufQueue.Enqueue | include/linkedlist.h:65-80 | appends exactly while fewer than `capacity` values are queued; otherwise the "full" exit |
| PooledQueue.VbufQueue.TakeFirst | include/linkedlist.h:89-98 | removes the oldest value, and its node is free again |
| PooledQueue.VbufQueue.Dequeue | include/linkedlist.h:82-100 | hands out the oldest value; -1 and no change on an empty queue |
| PooledQueue.VbufQueue.DequeueInplace | include/linkedlist.h:102-119 | the same through a pointer, which is left alone on an empty queue |
| PooledQueue.Apply | include/linkedlist.h:33-119 | one operation on the heap structure is one step of a bounded FIFO sequence, with the same answer |
| PooledQueue.Execute | include/linkedlist.h:33-119 | every list of operations on a fresh queue is answered as by the bounded FIFO sequence |
| PooledQueue.FirstInFirstOut | include/linkedlist.h:65-119 | what went in is what came out followed by what is queued, in order, never more than the capacity |
| PooledQueue.MinusOneMeansEmpty | include/linkedlist.h:86-88 | if -1 is never stored, a dequeue answers -1 exactly on an empty queue |
| YmpiSetup.BuildRankTable | src/ympi.c:262-307 | the set-up fails its assertion exactly if two wanted ranks collide; otherwise every wanted rank, and only those, is found under its number |
| YmpiSetup.TableExists | src/ympi.c:262-307 | whenever no two wanted ranks collide there is such a table |
| YmpiProcess.BatchRunsIff | src/ympi.c:758-811 | a batch makes the process exit exactly if a completion failed, came through an unknown queue pair, or does not fit its pending queue |
| YmpiProcess.BatchCounts | src/ympi.c:773-798 | otherwise the counters go down by its completions, in all and for each destination |
| YmpiProcess.BatchFiles | src/ympi.c:800-807 | and what arrived from a source stands behind what was pending from it, in order, with the last recorded lengths |
| YmpiNode.WindowAfterWrite | src/ympi.c:475-476 | a message put into a vbuf reads back, and no other vbuf changes |
| YmpiNode.PlacesExclude | src/ympi.c:240-252 | posted, arrived, pending and fetched exclude one another, and together hold exactly the ids 0 to 255 |
| YmpiNode.QueuesHaveRoom | src/ympi.c:243-251 | a pending queue and what is still in the completion queue never exceed 256 together, nor do fetched and pending, nor posted and fetched |
| YmpiNode.PollOneRuns | src/ympi.c:758-811 | no completion that can come makes `process_wc` exit |
| YmpiNode.PollOneConserves | src/ympi.c:800-807 | processing a receive completion moves its vbuf to a pending queue and loses none |
| YmpiNode.PollOneKeepsTotal | src/ympi.c:773-798 | the total counter stays the sum of the counters of the queue pairs |
| YmpiNode.PollOneKeepsMessages | src/ympi.c:800-807 | the messages a source has waiting are the same, in the same order, before and after a completion is processed |
| YmpiNode.PollKeeps | src/ympi.c:884-901 | a batch of any size never exits and keeps the node in order |
| YmpiNode.PollKeepsCredit | src/ympi.c:773-798 | a batch takes the same requests from the completion queue and from the counter |
| YmpiNode.PollKeepsMessages | src/ympi.c:924-932 | a batch neither loses nor reorders the messages of any source |
| YmpiNode.ArrivalKeeps | src/ympi.c:426-433 | delivery into any posted vbuf keeps the node in order |
| YmpiNode.ArrivalAppends | src/ympi.c:426-433 | a delivered message goes behind those its source has waiting, whichever vbuf it took, and disturbs no other |
| YmpiNode.AckMovesCredit | src/ympi.c:775-777 | a reported request counts in the completion queue instead of on its link |
| YmpiNode.TakeKeeps | src/ympi.c:915-920 | handing out a vbuf keeps the node in order, and `vbuf_fetched` always has room for it |
| YmpiNode.TakeIsOldest | src/ympi.c:915-920 | what is handed out is the oldest message waiting from that source, with its recorded length |
| YmpiNode.GiveBackConserves | src/ympi.c:467-489 | posting a fetched vbuf again loses no vbuf, and none is posted twice |
| YmpiNode.PostKeepsTotal | src/ympi.c:867-868 | posting keeps the total equal to the sum |
| YmpiNetwork.DeliverableFits | include/ympi.h:8-9 | the oldest undelivered message fits a vbuf, and what is posted is a vbuf |
| YmpiNetwork.DeliverKeeps | src/ympi.c:814-881 | a delivery keeps the invariant of the whole network |
| YmpiNetwork.FlushMeansDone | src/ympi.c:884-901 | a pending count of 0 means every request of this rank was carried out, reported and polled |
| YmpiNetwork.StepKeeps | src/ympi.c:758-937 | every step keeps conservation of vbufs, exact credits, genuine completions and routes, on all nodes |
| YmpiNetwork.PostedIsFifo | src/ympi.c:820-866 | a post appends its message, if it is a send, to what is in flight for its destination and to nothing else |
| YmpiNetwork.DeliveredIsFifo | src/ympi.c:426-433 | a delivery, into whichever vbuf, leaves what is in flight between any two ranks as it was |
| YmpiNetwork.StepIsFifo | src/ympi.c:758-937 | refinement: for every pair of ranks a send appends to one queue, a receive takes its head, and every other step leaves it alone |
| YmpiRuns.InitialInv | src/ympi.c:240-252 | the state after set-up, with all vbufs in `vbuf_fetched` and any choice of queue pairs, satisfies the invariant |
| YmpiRuns.InOrder | src/ympi.c:814-937 | over any run, what was in flight plus what is sent is what is received plus what is in flight |
| YmpiRuns.KthReceivedIsKthSent | src/ympi.c:814-937 | from the start, the k-th message received by d from s is byte for byte the k-th message s sent to d |
| YmpiRuns.InitialExists | src/ympi.c:262-307 | such a state exists for every choice of queue pairs without collisions, with the tables that the set-up builds and anything in the clients' memories |
| YmpiRuns.PollBrings | src/ympi.c:924-932 | polling one completion brings the oldest message closer and changes nothing else about it |
| YmpiRuns.DeliverBrings | src/ympi.c:426-433 | so does a delivery into any posted vbuf |
| YmpiRuns.CanBeReceived | src/ympi.c:903-937 | no message is stuck: from every reachable state with a vbuf posted, or the message already arrived, some run hands the oldest message in flight to its receiver |
| YmpiRuns.ExactlyOnePlace | src/ympi.c:240-252 | in every reachable state each of the ids 0 to 255, and no other number, is in exactly one place |
| YmpiRuns.QueuesNeverFull | src/ympi.c:245-248 | pending queues, `vbuf_fetched` and the shared receive queue never overflow, so the "full" exit and the lost vbuf are unreachable |
| YmpiRuns.NeverExits | src/ympi.c:767-771 | no batch that a process can poll makes it exit |
| YmpiRuns.StepUndisturbed | src/ympi.c:467-489 | no step but a return of the process itself changes the bytes or lengths of what it was handed |
| YmpiRuns.StableUntilReturn | src/ympi.c:912-921 | the same over every run without a return |
| YmpiRuns.HandedOutApart | src/ympi.c:917-919 | the messages handed out lie in windows of the receive region with no byte in common |
| YmpiRuns.BatchSettles | src/ympi.c:773-798 | a batch lowers a counter by as many as it has completions for that destination |
| YmpiRuns.ThrottleLeavesRoom | src/ympi.c:869-878 | at the limit, the polled batch leaves room for the next post if and only if it has a completion for the same destination |
| YmpiRuns.CreditsExact | src/ympi.c:867-901 | each counter is the number of posted but unpolled requests, at most 256; the total is their sum; total 0 means none is left |
| YmpiContext.BatchKeepsIds | src/ympi.c:805 | whatever is polled, a pending queue holds only ids of vbufs, so -1 means empty |
| YmpiContext.FirstAnswer | src/ympi.c:872-877 | the throttle goes on at the first poll that is not empty |
| YmpiContext.FlushEnds | src/ympi.c:884-901 | a flush returns 0 after the first poll by which it has seen as many completions as there were requests, exits exactly on a fatal poll before that, and polls on otherwise |
| YmpiContext.RecvEnds | src/ympi.c:903-937 | a receive hands out the oldest pending vbuf after the first poll by which there is one, with the length recorded for it, exits exactly on a fatal poll before that or without room in `vbuf_fetched`, and polls on otherwise |
| YmpiContext.CreateQueues | src/ympi.c:243-247 | n empty queues of capacity 1024 that share no memory |
| YmpiContext.CreateFetched | src/ympi.c:248-251 | a queue of capacity 256 with the ids 0 to 255 in order |
| YmpiContext.Context.constructor | src/ympi.c:155-252 | the context after set-up is the initial process |
| YmpiContext.Context.SettleCredit | src/ympi.c:775-777 | both counters go down by one and nothing else changes |
| YmpiContext.Context.FileVbuf | src/ympi.c:802-805 | records the length, appends the id to its source's queue, and fails exactly when that queue is full |
| YmpiContext.Context.HandleCompletion | src/ympi.c:758-811 | the update in place agrees with the function on values, and exits in the same cases |
| YmpiContext.Context.HandleBatch | src/ympi.c:895-897 | so does the loop over a batch |
| YmpiContext.Context.Zflush | src/ympi.c:884-901 | returns 0 at once when nothing is pending, and otherwise exactly when the polls have settled everything; ends as the loop on values does |
| YmpiContext.Context.DropPending | src/ympi.c:915-916 | takes the oldest id of a source; -1 exactly if there is none |
| YmpiContext.Context.PushFetched | src/ympi.c:919 | appends to `vbuf_fetched`, and fails exactly when it is full |
| YmpiContext.Context.TakeVbuf | src/ympi.c:914-922 | moves the oldest vbuf of a source from its queue to `vbuf_fetched` |
| YmpiContext.Context.Zrecv | src/ympi.c:903-937 | hands out the start and recorded length of that vbuf, after as many polls as it takes |
| YmpiContext.Context.Post | src/ympi.c:814-881 | the assertions, the request that is handed to the card with its range, inline flag and remote place, a refused post that changes nothing, and the throttle after an accepted one |
| YmpiContext.Context.TakeCredit | src/ympi.c:867-868 | both counters go up by one and nothing else changes |
| YmpiContext.Context.PollOnce | src/ympi.c:869-878 | empty polls are repeated; an error ends the loop without a change |
| YmpiContext.Context.Return | src/ympi.c:449-492 | with room for all, exactly the fetched vbufs are posted, in order, each whole and at its place; otherwise the refused one is in neither place |
| YmpiContext.Context.DropFetched | src/ympi.c:467 | takes the oldest fetched id; -1 exactly if there is none |
| YmpiCalls.ContextIsInitial | src/ympi.c:155-252 | what the set-up leaves in the context is the process with which runs begin |
| YmpiCalls.HandedIsCarried | src/ympi.c:819-841 | the send that the network carries is the one that the call hands over: the same bytes, captured at once exactly if the inline flag is set |
| YmpiCalls.OutsideRun | src/ympi.c:884-937 | whatever the card and the other ranks do while a call waits, the counters and queues of the process stay as they are, its completion queue only grows, and it receives nothing |
| YmpiCalls.RoundRun | src/ympi.c:884-901 | one poll of a waiting loop, with anything before and after it, does to the process exactly what the polled batch does |
| YmpiCalls.ZrecvIsARun | src/ympi.c:903-937 | a receive call never exits, whatever arrives while it waits, and hands out the message that its run of the network receives, where that run put it |
| YmpiCalls.ZrecvCanEnd | src/ympi.c:903-937 | a receive that waits can end: some deliveries and polls make it hand out the oldest message in flight |
| YmpiCalls.ZflushIsARun | src/ympi.c:884-901 | a flush never exits, whatever completes while it waits, and returns 0 exactly if its run settled all requests; then nothing of this rank is left between post and poll and all its counters are 0 |
| YmpiCalls.ThrottleIsARun | src/ympi.c:869-878 | the throttle ends where its run ends: after the first poll that finds something, however late that comes |
| YmpiCalls.PostIsARun | src/ympi.c:814-881 | an accepted send, write or read never exits, and ends, or goes on polling, where its run of the network does |
| YmpiCalls.PostLeavesRoom | src/ympi.c:867-878 | after an accepted request the next one for the same destination is accepted if and only if it did not fill the queue or the batch that the throttle polled had a completion for that destination |
| YmpiCalls.ReturnIsARun | src/ympi.c:449-492 | a return posts exactly the vbufs of the last group, in order, whatever happens between its posts, and leaves the rest of the process alone |
| YmpiCalls.ReturnedArePosted | src/ympi.c:467-489 | afterwards each of these vbufs is posted, or a message has already arrived in it |
| YmpiRefusal.RefusedPost | src/ympi.c:869-878 | from every initial state with two connected ranks some run fills the send queue, has the throttle poll a batch without a completion for it, and ends with every further request for that rank refused |
| YmpiWaiting.MakeRoom | src/ympi.c:449-492 | every other rank can come to post a vbuf, without anything happening to the waiting process or to the links |
| YmpiWaiting.FlushCanEnd | src/ympi.c:884-901 | from every reachable state in which its own messages fit its posted vbufs, some rounds make the flush return 0 |
| YmpiWaiting.FlushCanEndIff | src/ympi.c:884-901 | and if they do not fit, none do |
| YmpiWaiting.ReceiveCanEndIff | src/ympi.c:903-937 | with a message on its way, some rounds make a receive hand out a message if and only if a vbuf is posted or a message of that source has arrived |
| Alltoall.Target | src/ympi.c:1196 | the destination of the k-th write is a rank, with at most one wrap-around |
| Alltoall.EveryOtherRankOnce | src/ympi.c:1196 | in n - 1 turns the loop visits every other rank exactly once, and never its own |
| Alltoall.WrittenExactly | src/ympi.c:1195-1199 | whatever the card accepts, a rank gets its whole block at the place that waits for it, and nothing else, exactly if the write of its turn was accepted |
| Alltoall.PostRow | src/ympi.c:1193-1199 | tries n - 1 writes inside the send buffer; posts exactly those that the card takes, in turn, each from `dst * sendsize` to `rank * recvsize` and `sendsize` long; fails exactly if the sizes differ or the block for another rank does not fit |
| Alltoall.FullQueueHolds | src/ympi.c:1196-1198 | a write that fills a send queue, and no other, holds the loop until something was polled |
| Alltoall.BlocksApart | src/ympi.c:1197-1198 | different blocks of a buffer have no byte in common, and lie inside it |
| Alltoall.LandKeepsOthers | src/ympi.c:1198 | a byte that lands makes its own place right and disturbs no place that is right |
| Alltoall.CopyKeepsOthers | src/ympi.c:1200 | the copy of the own block makes that block right and disturbs no other |
| Alltoall.StepKeepsInv | src/ympi.c:1195-1202 | every post, refusal, landing byte, report, poll, copy, flush and barrier exit keeps the invariant |
| Alltoall.RunKeepsInv | src/ympi.c:1195-1202 | so does every run |
| Alltoall.AcceptedIsCarriedOut | src/ympi.c:1195-1202 | once a rank has left the barrier every accepted write was carried out, because the counters of its writer were 0 |
| Alltoall.TransposeUnlessRefused | src/ympi.c:1195-1202 | then block i of rank j's receive buffer is block j of rank i's send buffer, under any interleaving, unless the write of i to j was refused |
| Alltoall.Transpose | src/ympi.c:1286-1293 | under any interleaving from counters below the limit, once a rank has left the barrier block i of rank j's receive buffer is block j of rank i's send buffer, for all i and j |
| Alltoall.NothingAfterBarrier | src/ympi.c:1201-1202 | after that no accepted write is on its way and no receive buffer changes |
| Alltoall.SomebodyMoves | src/ympi.c:1195-1202 | until every rank has left, some rank, request or byte can move |
| Alltoall.StepLowersMeasure | src/ympi.c:1195-1202 | every step lowers one measure of the work that is left |
| Alltoall.Finish | src/ympi.c:1195-1202 | from every reachable state some run brings all ranks behind the barrier |
| Alltoall.RunKeepsHole | src/ympi.c:1195-1202 | after a refused write nothing is ever written where it would have gone |
| Alltoall.FullQueueLosesBlock | src/ympi.c:1195-1202 | a rank that enters with 256 pending for another one can lose its block: some run brings all ranks behind the barrier with that block as it was |
| Alltoall.TransposesIff | src/ympi.c:1195-1202 | all runs transpose if and only if every rank enters with fewer than 256 pending for every other rank |
| Alltoall.FlushBeforeIsEnough | src/ympi.c:1201 | a flush before the call, after which all counters are 0, is enough for that |
| Topology.FindLargest | src/ympi_shuffle.c:34-41 | the largest entry not above the number, with exponents that multiply up to it; in front of the table exactly for a number below 1 |
| Topology.FourTimes | src/ympi_shuffle.c:134-135 | two more factors of 2 make four times the number |
| Topology.BoardInterval | src/ympi_shuffle.c:58 | a board has the 256 node numbers from a multiple of 256 on; below 0 the boards are mirrored |
| Topology.RunIsBoard | src/ympi_shuffle.c:99-113 | in a sorted list a run of the scan is exactly the entries of one board |
| Topology.RunIsInterval | src/ympi_shuffle.c:99-113 | for node numbers from 0 on, an entry is in a run exactly if it lies in the same interval of 256 as the first entry of the run |
| Topology.ScanBoards | src/ympi_shuffle.c:99-113 | the first scan writes the length of every run, in order; outside the array exactly if there are more boards than it has room for |
| Topology.SuffixIsBest | src/ympi_shuffle.c:126-132 | no board size makes use of more processes than the best suffix of the sorted sizes |
| Topology.BestIsFourIff | src/ympi_shuffle.c:126-133 | the best size is at least 4 if and only if some size of at least 4 makes use of more processes than 1, 2 and 3 do |
| Topology.ChooseSize | src/ympi_shuffle.c:124-132 | the chosen size maximises size times the number of boards that large, over all sizes, and is the smallest that does |
| Topology.CountBoards | src/ympi_shuffle.c:137-142 | the loop counts the boards of at least that size |
| Topology.CountOfPermutation | src/ympi_shuffle.c:114 | sorting the sizes changes no count |
| Topology.Occurs | src/ympi_shuffle.c:162-167 | finds the node exactly if it is among the entries of the board's head |
| Topology.SelectBoards | src/ympi_shuffle.c:153-188 | the second scan selects a process exactly if its node is in the head of one of the first `target` large boards, and counts these boards |
| Topology.NothingAfter | src/ympi_shuffle.c:168-171 | stopping at the target leaves nothing out |
| Topology.AllPicked | src/ympi_shuffle.c:189-192 | the second scan finds the target number of boards if and only if the first scan's sizes have as many |
| Topology.ChooseShape | src/ympi_shuffle.c:99-151 | best size, a quarter of it rounded down in the table, and the number of boards rounded down in the table; outside the array exactly for more than 256 boards, in front of the table exactly if no size of at least 4 pays |
| Topology.SizeIsRounded | src/ympi_shuffle.c:133-136 | the board size is the largest number not above the best size that is four times an entry of the table |
| Topology.GetTopology | src/ympi_shuffle.c:75-198 | the same for the whole choice; the error exit is never taken, although the sizes were sorted in between |
| Topology.RanksAgree | src/ympi_shuffle.c:90-151 | all ranks come to the same board size and number of boards |
| Topology.SelectionCount | src/ympi_shuffle.c:153-188 | at least boards times size ranks are selected, and exactly that many if and only if no chosen head ends between two entries of one node |
| Topology.GroupsOfFour | src/ympi_shuffle.c:195 | if every node number occurs exactly four times, the sorted list changes exactly at the multiples of four |
| Topology.BoundsAligned | src/ympi_shuffle.c:154-175 | then every board begins at a multiple of four |
| Topology.FourEachNeverSplits | src/ympi_shuffle.c:133-136 | and a head whose length is a multiple of four splits no node |
| Topology.FourEachPays | src/ympi_shuffle.c:133 | then boards of four make use of more processes than smaller ones, so the table is never asked for 0 |
| Topology.FourEachSelection | src/ympi_shuffle.c:153-193 | and exactly boards times size ranks are selected, no more than there are |
| Topology.FitsProcesses | src/ympi_shuffle.c:145 | boards times size never exceeds the number of processes |
| Topology.RankOfEntry | src/ympi_shuffle.c:194-195 | with no node split, the selected entry at place p of the i-th chosen board gets the new rank i * board size + p, so quotient and remainder of a rank by the board size are its board and its place |
| Topology.OneProcessIsTooFew | src/ympi_shuffle.c:37-40 | with a single process no size of at least 4 pays, so the choice reads in front of the table |
| Route.HopParts | src/ympi_shuffle.c:238-239 | an entry of the table has the wanted digit, and all digits above and below it unchanged |
| Route.HopsCompose | src/ympi_shuffle.c:232-243 | hops at two adjacent digits are one hop at the digit they form together |
| Route.ChainIsOneHop | src/ympi_shuffle.c:232-243 | so are all hops of a chain of group sizes, for every list of sizes |
| Route.GroupsMultiply | src/ympi_shuffle.c:232-256 | the group sizes multiply up to the factored number |
| Route.RouteRowAt | src/ympi_shuffle.c:258-269 | the rows in the order in which they are written: twos, threes and fives between boards, with weights that are multiples of the board size, and then twos, threes and fives on the board |
| Route.BoardsReached | src/ympi_shuffle.c:258-263 | after the inter-board hops a message is on the board of its destination, at its old place there |
| Route.BoardsFirst | src/ympi_shuffle.c:258-269 | of the rows that are written, the first ones change only the board, and bring a message to the board of its destination; the later ones change only the place |
| Route.RouteReaches | src/ympi_shuffle.c:258-269 | after all hops a message is at its destination, for all exponents of 2, 3 and 5 and all pairs of ranks |
| Route.RouteStaysInside | src/ympi_shuffle.c:232-256 | after any number of hops it is at a rank below boards times size |
| Route.TablesReach | src/ympi_shuffle.c:291-299 | if every rank forwards by its own table with digit `dst / base % size`, every message ends at `dst` |
| Route.TablesReachBoardsFirst | src/ympi_shuffle.c:291-299 | the same for a message that each rank forwards by its own table |
| Route.OneCallFits | src/ympi_shuffle.c:16-20 | one call for at most MAX_NPROCS processes makes at most 17 iterations |
| Route.TopologyFits | src/ympi_shuffle.c:204-207 | this holds for every topology that can be chosen |
| Route.RepeatedCalls | src/ympi_shuffle.c:204-271 | calls with one topology all stay inside the arrays if and only if their number times the iterations of one is at most 20 |
| Route.SecondCallDoesNotFit | src/ympi_shuffle.c:204-207 | 4096 processes on 256 boards of 16 choose a topology whose rows fit once and not twice |
| Route.BoardHop | src/ympi_shuffle.c:238-239 | the inter-board entry replaces one digit of the rank, at weight board size times group base |
| Route.PlaceHop | src/ympi_shuffle.c:251-252 | the intra-board entry replaces one digit of the rank, at weight group base |
| Route.RouteTable.constructor | src/ympi_shuffle.c:204-207 | an empty table |
| Route.RouteTable.FillBoardRow | src/ympi_shuffle.c:237-240 | one row, inside the array, with all earlier rows unchanged |
| Route.RouteTable.FillPlaceRow | src/ympi_shuffle.c:250-253 | the same on a board |
| Route.RouteTable.GenItersInterBoard | src/ympi_shuffle.c:232-243 | the rows of one factor between boards follow those that were there; inside the arrays exactly if they fit |
| Route.RouteTable.GenItersIntraBoard | src/ympi_shuffle.c:245-256 | the rows of one factor on a board follow those that were there; inside the arrays exactly if they fit |
| Route.RouteTable.GenBoards | src/ympi_shuffle.c:258-263 | twos, threes and fives make the chain of the number of boards |
| Route.RouteTable.GenPlaces | src/ympi_shuffle.c:264-269 | twos, threes and fives make the chain of the board size |
| Route.RouteTable.GenRoutes | src/ympi_shuffle.c:221-271 | a call writes exactly the rows for which the reachability theorems are proved, behind those of earlier calls, and stays inside its arrays exactly if they fit |
| Route.RouteTable.WrittenIsTable | src/ympi_shuffle.c:204-207 | the entries in the arrays after a first call are the table of that rank |
| Route.AllTables | src/ympi_shuffle.c:221-299 | the tables that the program writes on all ranks are the ones by which every message ends at its destination |
| PingPong.Program.constructor | src/rc_pingpong.c:903-918 | both bits set on the client, one on the server, all receives posted |
| PingPong.Program.PostRecv | src/rc_pingpong.c:536-556 | posts as many receives as are asked for and accepted |
| PingPong.Program.OnCompletion | src/rc_pingpong.c:586-658 | the update in place agrees with the step of the two-party system, and so do the receives and the send that it posts; the count of receives follows those posted, and is back at the depth once no more than one for each queue pair was left; gives up exactly on a failed or unknown completion or a refused post |
| PingPong.ActedKeepsSide | src/srq_pingpong.c:946-954 | a side gives up the ball of a queue pair exactly when it posts a send on it |
| PingPong.StepKeepsInv | src/srq_pingpong.c:906-956 | on each queue pair there stays one ball, and the counters stay exact |
| PingPong.StartInv | src/srq_pingpong.c:854-864 | the state before the main loops satisfies the invariant |
| PingPong.RunKeepsInv | src/srq_pingpong.c:872-958 | so does every state of every run |
| PingPong.NeverStarves | src/srq_pingpong.c:748-753 | messages on their way never exceed the posted receives that hold none yet, every one can be delivered, and each queue pair has at most one uncompleted send |
| PingPong.StuckMeansOver | src/rc_pingpong.c:919 | if nothing can move, both programs are through |
| PingPong.SomethingMoves | src/rc_pingpong.c:919-1002 | as long as a program is in its loop, the card or a program in its loop can move |
| PingPong.StepLowersMeasure | src/rc_pingpong.c:586-658 | every step lowers one measure of the work left on both sides |
| PingPong.RunsAreFinite | src/rc_pingpong.c:919-1002 | no run has more steps than there is work at its start |
| PingPong.FinalCounts | src/srq_pingpong.c:947-954 | no side ever posts or counts more than iters + numQp - 1 |
| PingPong.ReceivesAreExact | src/srq_pingpong.c:926-936 | in every run the count of receives is that of the receives posted and not seen complete, at least one for each queue pair and never more than the depth |
| PingPong.OneQpIsExact | src/rc_pingpong.c:648-655 | with one queue pair both sides end with exactly `iters` sends posted, sends counted and receives counted |
| PingPong.OvershootHappens | src/srq_pingpong.c:947-954 | the bound is tight for every configuration: some run posts iters + numQp - 1 sends |
| PingPong.ExactOnlyWithOneQp | src/srq_pingpong.c:947-954 | `iters` bounds the sends of all runs if and only if there is one queue pair |
| RingWindow.SlotsDistinct | src/iballputall.c:283-297 | no slot is in the window twice |
| RingWindow.SlotAt | src/iballputall.c:283-297 | the k-th slot of a window is k places on in the ring, and has its own number as id |
| RingWindow.Receiver.constructor | src/iballputall.c:785-793 | the list is linked to its end before the first use, and the window is empty |
| RingWindow.Receiver.PostSrqRecv | src/iballputall.c:300-303 | the card takes exactly the chain up to its null link, or as much of it as the queue has room for |
| RingWindow.Receiver.FillList | src/iballputall.c:286-297 | the first work requests describe the slots of the ring from the given one on |
| RingWindow.Receiver.PostList | src/iballputall.c:298-308 | cuts the list behind them, posts them in order, and links it again |
| RingWindow.Receiver.Refill | src/iballputall.c:269-313 | every missing slot is posted once, in order behind the posted ones, with the links as before; outside the list exactly if none is missing |
| RingWindow.Receiver.Arrive | src/iballputall.c:663 | any posted receive completes, and what arrived and what is posted stays the window |
| RingWindow.Receiver.OnRecv | src/iballputall.c:320-338 | the assertion `idx == id` fails exactly for an id that is not the first of the window; otherwise the window moves on by one or is posted anew |
| RingWindow.Receiver.SeeReceive | src/iballputall.c:1006-1008 | the same for the next completion of the queue, whatever else has arrived; nothing fails if the card kept the order |
| RingWindow.Receiver.OnFlush | src/iballputall.c:340-353 | fills up the window without touching what arrived; outside the list exactly if the window is full |
| RingWindow.Overtaken | src/iballputall.c:320-324 | two receives that complete in the other order make the assertion fail |
| RingWindow.PassesIffInOrder | src/iballputall.c:320-338 | for any sequence of completions the assertions all pass if and only if the ids come in the order of the ring |
| RingWindow.WindowFollows | src/iballputall.c:325-335 | the window follows the number of receives modulo 1024 |
| RingWindow.FlushInRange | src/iballputall.c:283-308 | a flush stays inside the list if and only if the number of receives since a full window is no multiple of 1024 |
| Address.PrintedValue | src/rc_pingpong.c:194 | printed digits have the value that was printed |
| Address.Digits | src/rc_pingpong.c:194-212 | digits are printed in lower case and read in either case, and nothing else is a digit |
| Address.PrintedLength | src/rc_pingpong.c:194 | a number takes exactly its width if and only if it is small enough, and never less |
| Address.ScanIsLongest | src/rc_pingpong.c:212 | `%x` reads the longest run of digits, and nothing where there is none |
| Address.ScanPrinted | src/rc_pingpong.c:212 | `%x` reads a printed number back and stops behind it |
| Address.ScanMessage | src/rc_pingpong.c:193-213 | the message reads back as the same numbers and text |
| Address.MessageFills | src/rc_pingpong.c:158 | the message and its NUL fill the buffer exactly if and only if the numbers have at most 16, 24 and 24 bits, and never fall short |
| Address.MessageFields | src/rc_pingpong.c:193-194 | in a message that fills the buffer each field has its place, in this order: lid, queue pair, sequence number, identifier |
| Address.StoreLoad | src/pingpong.c:67-69 | storing a loaded word gives the same bytes, in either order |
| Address.PrintedWord | src/pingpong.c:77-79 | what is printed is the word in the order of its bytes, on either kind of machine |
| Address.StoredWord | src/pingpong.c:65-69 | what is stored are the bytes in the order of the text, on either kind of machine |
| Address.PrintWord | src/pingpong.c:79 | eight digits are two for each byte, in order |
| Address.PrintAt | src/pingpong.c:79 | puts the text and its NUL at its place, and leaves what is in front of it alone |
| Address.GroupSetsWord | src/pingpong.c:63-66 | a group without a number leaves the word of the group before it; a group of digits sets its value |
| Address.GidToWireGid | src/pingpong.c:72-80 | the text is the hexadecimal form of the 16 bytes in order, whatever the machine |
| Address.WireGidToGid | src/pingpong.c:57-70 | each group of eight characters becomes the four bytes it stands for on the reading machine; without a number the word keeps its value |
| Address.TextReadBack | src/pingpong.c:57-80 | every group of a printed text is read back as its four bytes, whatever the machines |
| Address.Exchange | src/rc_pingpong.c:158-214 | what a machine of either byte order prints, a machine of either byte order reads back unchanged, exactly if the numbers have at most 16, 24 and 24 bits; otherwise the message overruns its buffer |

## Left out

- Device, protection domain, completion queue and queue pair creation and teardown, and the clean-up chains: calls into verbs.
- Sockets, options, printing, timing and profiling, and everything under `osu_benchmark/` and `benchmark/`.
- The exchange loop of `YMPI_Shuffle` (`src/ympi_shuffle.c` 281-327) beyond its digit choice: it is unfinished and does not use the route table.
- The 5-smooth table itself (`src/ympi_shuffle.c` 33): a parameter that is sorted, begins with 1, ends with MAX_NPROCS and has correct exponents.
- `MPI_Comm_split` itself: `Topology.RankOfEntry` counts the selected entries of the sorted list in front of one, which is its order by key.
- Several threads in one process, completion queue overflow, and the queue pair arithmetic of the Sunway build.
- Reuse of the all-to-all with other arguments, or before the previous result was read: the source forbids the first (`src/ympi.c` 1239-1243).
- `src/uc_pingpong.c`, `src/ud_pingpong.c`, `src/xsrq_pingpong.c` and the smaller tools.
- YmpiNetwork.Step: the memory effect of `YMPI_Write` and `YMPI_Read` is not part of the message network (it is the subject of `Alltoall`).
- YmpiContext.Context.Post: the three posting calls are one method, because they differ only in the request they hand to the card; the registered buffer is its length, and the keys of memory regions are left out but for the remote one.
- YmpiContext.FirstAnswer: the polls of one call are given in advance, so a call that spins for ever is not modelled.
- Topology.ChooseSize: reads the sorted sizes as a sequence; the products stay below 2^31 for MAX_NPROCS processes on 256 boards, so `int` does not overflow.
- Topology.GetTopology: says that the source leaves its array or its table, and not what it reads or writes there.
- Route.RouteTable.GenRoutes: likewise says that the source leaves its arrays, and not what it overwrites.
- PingPong.Program.OnCompletion: time stamps and the lookup of the queue pair by number are not modelled; both ping-pong programs share this one method.
- RingWindow.Receiver.OnRecv: with assertions switched off the source would go on where this answers that one failed.
- RingWindow.Receiver.PostSrqRecv: the card refuses only what the queue has no room for.
- Address.ScanMessage: blanks, signs and a `0x` prefix, which `%x` also accepts, never occur in a printed message and are not modelled; neither is the undefined result of reading a malformed one.
- Address.WireGidToGid: the uninitialised word is a parameter.
- Address.Exchange: says that the message overruns its buffer, and not what the source overwrites then.
- Alltoall.Transpose: the ranks are those of the exchange, so a queue pair with a rank outside it has no part in the counters.
- YmpiCalls.ZrecvIsARun: a call whose loop is not over when the given polls are used up counts as waiting; when it can end is `YmpiWaiting.ReceiveCanEndIff`.
