# Verified core of an NCCL network plugin and tuner

A Dafny model of the parts of the plugin that carry real algorithms, with proofs of what they
promise: the queue, barrier, sorter, allocator and map of the imported NCCL runtime subset, its
socket handshake, its division and size codes, its work partition and QP striping, and the tuner's
decision procedure. `dafny verify dfyconfig.toml` checks everything.

How each part is modelled:

- **MpscQueue**, with **MpscInvariant**, **MpscGuarantees** and **MpscCalls**, is a transition system. Each step is
  one shared-memory access, mutex or condition operation of one thread; any number of Enqueue calls
  and one consumer interleave freely, the compare-exchange may fail spuriously and the condition
  wait may return spuriously. Main results:
  `DeliveredInOrder`, `NoLostWakeup`, `SleeperIsWoken`, `DrainTakesEverything`,
  `AbandonRefusesFirst`, `WaiterDrains`, `EnqueueReturns`.
- **IntraBarrier** is a transition system over any number of ranks below 2^31. Main results:
  `OutReturnsRoundSum`, `RanksStayTogether`, `RoundCompletes`.
- **TaskSorter** keeps the linked list in the heap, with links addressed as the source addresses
  them (`&head` or `&task->next`). Main results: `Sorter.Insert`, `InsertAllSorts`,
  `BinIsLastInFirstOut`, `DescendingInBytes`.
- **StackState**, **StackSteps**, **StackRuns** and **MemoryStack** are the frame allocator. Memory
  is a map from addresses to cells; writing a range destroys every cell it overlaps, freeing a block
  destroys what it held, and malloc may return any address clear of what is allocated. The first
  three have the invariant, the steps and whole runs on values, MemoryStack the class whose methods
  take the steps. Main results: `AllDisjoint`, `PopUndoesPush`, `RunLoses`, `Stack.Allocate`, `Stack.Pop`, `Stack.Destruct`.
- **AddressMap** threads its chains through heap objects. It is proved against one stack of objects
  per key, and against a plain `map` while no key is used twice.
- **Handshake** takes the outcomes of the system calls from an arbitrary script and the bytes from
  arbitrary peer streams, in both modes, so that its results hold for every chunking. Main results:
  `Connect` and `Accept`, exact in the script, `FinalizeAccept`, `FinalizeConnect`, `BothEnds`,
  `PairMeets`. In `CheckReady` and `ProgressState` what a call does is said of the `d`, `s` or `g` that
  `DialTurn`, `Serve` or `Receive` gives for its script.
- **Bits**, **FloatCode** and **Reciprocal** are stated for words of any width n, which covers the
  32- and the 64-bit functions at once.
- **CostModel**, **CostLaws** and **Tuner** take `double` and `float` as `real` and work on a mutable
  two-dimensional cost table. CostLaws says what the prices mean: hops and traffic of the schedules.
- **Partition**, **QpStriping** and **BusId** are arithmetic with tiling, fairness and round trips.

Where the code does not do what its documentation or the obvious law says, the model follows the
code and the exact condition is proved:

- Abandon refuses the first tail exchange after it *writes* the tail, which may come before it
  returns (`RefusalCanComeEarly`); counted from the write, exactly the first is refused
  (`ExactlyFirstIsRefused`).
- The PAT branch of the cost model does not check the sign of the latency, so such a cell can be
  priced at one size and not at another, exactly when `NegativePat` holds (`PricingIgnoresSize`,
  `PatCanDependOnSize`). Another cell that is the cheapest at two sizes can then lose in between,
  exactly when such a PAT cell has come into its price and undercuts it (`CheapestBetween`,
  `RingLosesInBetween`).
- `imulRcp` above half the word range is right exactly when the high product is not zero
  (`IMulRcp`, `ComposedReciprocalCanFail`).
- A collective on one channel is tiled only if the absent high channel has no work (`CbdTiles`,
  `LoneChannelCanMiss`).
- A load-balancing weight can be 0 (`WeightCanBeZero`), although the comment says it never is. It is
  0 exactly for a device, not the last, with less than a hundredth of the total speed, or among more
  than a hundred devices that share evenly; and for the last device exactly if it has no speed and
  rounding left nothing over (`ComputeLbWeights`, `ZeroWeight`).
- Bus ids survive printing and parsing exactly if they are not negative (`RoundTripIff`).
- An asynchronous handshake call loses count of its bytes exactly when the step it ends with moves
  some and meets the abort flag (`FinalizeConnect`, `FinalizeAccept`, `SendSlips`, `RecvSlips`). The
  next call then sends bytes again (`AbortSendsTwice`), or takes a later byte of the magic for the
  first and turns the right peer away (`AbortMisreads`). A synchronous call loses count exactly when
  the run its script makes of it is `Stranded`: it fails after moving bytes (`SendAll`, `RecvAll`).
- With equal keys the address map finds the object inserted last, until it grows: then the order under
  each key is reversed (`Insert`, `Rehash`).
- The allocator's destructor leaves behind exactly the hunks that had dropped out of the chain
  (`Stack.Destruct`). An allocation drops the waiting hunks exactly when `Drops` holds
  (`Stack.Allocate`), a run loses a hunk exactly when one of its allocations does (`RunLoses`), and
  some do (`LosesAHunk`).

## Model

| member | source | states |
|---|---|---|
| MpscInvariant.StepKeepsInv | net/include/utils.h:489-590 | every atomic step of any producer or of the consumer keeps the queue invariant: list shape, pending links, sentinels, mutex, owed wakeups, deliveries |
| MpscInvariant.RunKeepsInv | net/include/utils.h:489-590 | the invariant holds in every reachable state of every interleaving |
| MpscGuarantees.DeliveredInOrder | net/include/utils.h:489-590 | in every interleaving the returned lists followed by the elements not yet taken are exactly the enqueued elements in tail-exchange order, and every returned list ends in null |
| MpscGuarantees.NoLostWakeup | net/include/utils.h:495-531 | a consumer asleep, or about to sleep, over a replaced sentinel is always owed a notify by a producer that cannot pass the mutex first; `waiting` is never null when read |
| MpscGuarantees.SleeperIsWoken | net/include/utils.h:495-531 | from every such state producer steps alone wake the consumer |
| MpscGuarantees.WalkToTheEnd | net/include/utils.h:537-551 | once pending links are stored, the consumer's walk reaches the detached tail and returns |
| MpscGuarantees.DrainTakesEverything | net/include/utils.h:510-552 | with no link pending, one DequeueAll returns everything enqueued and not yet taken, in order |
| MpscGuarantees.ExactlyFirstIsRefused | net/include/utils.h:489-507 | after Abandon wrote the tail, exactly the first later tail exchange makes its Enqueue return false |
| MpscGuarantees.RefusalCanComeEarly | net/include/utils.h:554-590 | a reachable run in which that refusal happens before Abandon returns and the first Enqueue after its return is accepted |
| MpscCalls.AbandonWrites | net/include/utils.h:554-590 | on every run from the call of an Abandon that returns, the tail is written on the way, whichever branch it took |
| MpscCalls.AbandonRefusesFirst | net/include/utils.h:489-590 | of the elements enqueued from the call of Abandon until it is called again, exactly the first after that write is refused, and before it none, unless the queue was abandoned already |
| MpscCalls.WaitSomeGetsSome | net/include/utils.h:510-552 | a DequeueAll with waitSome that returns hands over one list, and not an empty one |
| MpscCalls.WaiterDrains | net/include/utils.h:510-552 | from every state of a waiting DequeueAll, asleep or awake, with an element there and no link pending, some run hands over everything in order |
| MpscCalls.EmptyQueueSleeps | net/include/utils.h:516-533 | a consumer spinning on an empty queue can go to sleep, with its sentinel in the tail |
| MpscCalls.AbandonDrains | net/include/utils.h:554-590 | an Abandon of an empty queue, or with no link pending, can return at once with all there is |
| MpscCalls.EnqueueReturns | net/include/utils.h:489-507 | from every state some run without a new call lets a given Enqueue return |
| IntraBarrier.StepKeepsInv | net/include/comm.h:901-935 | every step of In or Out keeps counter word, gate and phases consistent with the rounds |
| IntraBarrier.RunKeepsInv | net/include/comm.h:901-935 | this holds in every reachable state |
| IntraBarrier.GateMatches | net/include/comm.h:920-935 | the gate shows a spinning rank's phase exactly when its own round was released |
| IntraBarrier.OutReturns | net/include/comm.h:920-935 | a load of the gate makes Out return the sum of its round exactly if that round was released, and otherwise changes nothing |
| IntraBarrier.OutReturnsRoundSum | net/include/comm.h:901-935 | each Out returns the sum modulo 2^32 of what all ranks passed to In for the same round, after all of them entered it |
| IntraBarrier.RanksStayTogether | net/include/comm.h:901-935 | no rank gets a full round ahead of another |
| IntraBarrier.NeverStuck | net/include/comm.h:920-935 | in every reachable state some step can be taken that changes the state |
| IntraBarrier.RoundCompletes | net/include/comm.h:901-935 | from every reachable state some run lets all ranks that have not entered the round enter it and every Out of it return; no further In is needed if all have entered |
| TaskSorter.BinInRange | net/include/comm.h:402-428 | every computed bin lies inside the array |
| TaskSorter.Sorter.constructor | net/include/comm.h:412-418 | the zeroed sorter is the empty list |
| TaskSorter.Sorter.Successor | net/include/comm.h:436-438 | the scan finds the next non-empty bin and stays in the array |
| TaskSorter.Sorter.OpenBin | net/include/comm.h:430-445 | exactly the entries of the bin and of its successor change, `tail` and `binEdge` follow |
| TaskSorter.Sorter.Push | net/include/comm.h:447-448 | storing through a link inserts the task at that position and nowhere else |
| TaskSorter.Sorter.LinkIn | net/include/comm.h:430-448 | the combined effect of an insertion on fields, bins and links |
| TaskSorter.Sorter.InsertInBin | net/include/comm.h:430-449 | keeps bins, edge, tail and links consistent and places the task first in its bin |
| TaskSorter.Sorter.Insert | net/include/comm.h:421-449 | the list becomes the old one with the task placed first in the bin of its size, and the history one longer; every bin entry is the link to its bin's first node |
| TaskSorter.InsertAllSorts | net/include/comm.h:421-449 | any sequence of inserts gives a permutation of the inserted tasks ordered by bin; a valid sorter holds just that of its history of inserts |
| TaskSorter.BinIsLastInFirstOut | net/include/comm.h:446-448 | inside a bin, tasks come in reverse order of insertion |
| TaskSorter.NearlyDescending | net/include/comm.h:406-410 | a task of u1 units before one of u2 > u1 units means 4 * u2 < 5 * u1 |
| TaskSorter.DescendingInBytes | net/include/comm.h:402-428 | a task of s1 bytes before one of s2 bytes means 4 * min(s2, 1 GiB) < 5 * min(s1, 1 GiB) + 4 KiB |
| TaskSorter.Sorter.DequeueAll | net/include/comm.h:456-460 | returns a permutation of everything inserted since the sorter was empty, ordered in bytes as below and by bin, last inserted first in each bin, with its links intact, and leaves an empty sorter |
| StackState.AllDisjoint | net/include/utils.h:231-316 | all live objects, snapshots, proxies and hunk headers, in hunks and out of them, occupy pairwise disjoint memory |
| StackState.WriteKeepsInv | net/include/utils.h:276-280 | a write clear of the allocator's own data keeps the invariant |
| StackSteps.BumpKeepsInv | net/include/utils.h:264-274 | taking free space of the current hunk keeps it, and the frame before stays restorable |
| StackSteps.EnterKeepsInv | net/misc/utils.cc:257-268 | so does moving to the empty hunk above |
| StackSteps.GrowKeepsInv | net/misc/utils.cc:281-292 | so does linking in a new hunk, which touches no allocation |
| StackSteps.AddOutKeepsInv | net/misc/utils.cc:302-315 | so does registering an out-of-hunk object through its proxy |
| StackSteps.PushKeepsInv | net/include/utils.h:300-307 | so does saving a frame in the allocator's own memory |
| StackSteps.PopKeepsInv | net/include/utils.h:309-316 | so does restoring it and freeing the later out-of-hunk objects |
| StackRuns.WroteKeepsInv | net/include/utils.h:231-316 | an owner writing its object disturbs neither the allocator nor any other allocation |
| StackRuns.PopUndoesPush | net/include/utils.h:300-316 | over every run between a Push and its Pop, the Pop restores top, depth, saved frames, blocks and out-of-hunk objects of the Push, and every older allocation its owner did not write to holds what it held |
| StackRuns.DroppedExactly | net/misc/utils.cc:253-287 | an allocation loses a hunk if and only if the guards that lead past the waiting hunk hold |
| StackRuns.RunLoses | net/misc/utils.cc:247-292 | over a whole run hunks are lost if and only if some allocation in it drops the waiting ones |
| MemoryStack.Stack.constructor | net/include/utils.h:254-262 | an empty, valid stack |
| MemoryStack.Stack.AllocateUnhunked | net/misc/utils.cc:302-315 | the object is a region of its own and its proxy a new block of the current hunk |
| MemoryStack.Stack.EnterAbove | net/misc/utils.cc:257-268 | the empty hunk above is current and nothing allocated moved |
| MemoryStack.Stack.AddHunk | net/misc/utils.cc:279-292 | a new, larger hunk is current, nothing allocated moved, and exactly the waiting hunks drop out of the chain |
| MemoryStack.Stack.AllocatePastWaiting | net/misc/utils.cc:270-315 | with the waiting hunk passed over or absent: out of band or in a new hunk, with the exact set of hunks lost |
| MemoryStack.Stack.AllocateSpilled | net/misc/utils.cc:247-320 | in every branch one new object results and all others keep place and contents; objects up to 8 KiB with their alignment stay in a hunk; the hunks lost are exactly the waiting ones if the guards of the last branch hold, else none |
| MemoryStack.Stack.Allocate | net/include/utils.h:264-274 | the same for every allocation; a hunk is lost if and only if the object fits neither in the little space left nor in the waiting hunk and is not put out of band at once |
| MemoryStack.Stack.Alloc | net/include/utils.h:276-280 | the object is zeroed and otherwise the same |
| MemoryStack.Stack.Push | net/include/utils.h:300-307 | the old frame is saved in a hunk, no out-of-hunk object is dropped |
| MemoryStack.Stack.FreeList | net/include/utils.h:310-314 | frees each out-of-hunk object of the frame once, reading no freed memory |
| MemoryStack.Stack.Pop | net/include/utils.h:309-316 | restores the saved frame and frees exactly the objects allocated since |
| MemoryStack.Stack.Destruct | net/misc/utils.cc:322-340 | frees every out-of-hunk object and every hunk of the chain once; what remains are the dropped hunks |
| MemoryStack.LosesAHunk | net/misc/utils.cc:283-287 | a run of the allocator after which the destructor leaves a hunk allocated |
| AddressMap.HashPointer | net/misc/utils.cc:370-375 | the bucket is below 2^hbits |
| AddressMap.ScrambledIsInjective | net/misc/utils.cc:370-375 | xor and multiplication lose nothing: the bucket is the top bits of a word no two keys share |
| AddressMap.DoublingSplits | net/misc/utils.cc:370-375 | with one bit more every bucket splits in two |
| AddressMap.IntruAddressMap.Insert | net/misc/utils.cc:405-492 | pushes the object on the stack of its key, every stack turned over if the table grows; a map of distinct keys gets the new entry; or fails exactly as the validation or allocation does and changes nothing |
| AddressMap.IntruAddressMap.PushOn | net/misc/utils.cc:476-489 | the object becomes the first of its bucket and of its key |
| AddressMap.IntruAddressMap.MakeRoom | net/misc/utils.cc:421-473 | afterwards at most two objects to a bucket, contents unchanged, the stacks turned over exactly if the table grew |
| AddressMap.IntruAddressMap.BuildTable | net/misc/utils.cc:449-467 | a table of twice the buckets holding the same contents, every stack upside down |
| AddressMap.IntruAddressMap.Rehash | net/misc/utils.cc:437-473 | the doubled table replaces the old one, contents unchanged, every stack upside down |
| AddressMap.TurnOne | net/misc/utils.cc:459-466 | moving one object keeps what was moved under each key in reverse order in the new table |
| AddressMap.IntruAddressMap.MoveBucket | net/misc/utils.cc:456-467 | moves exactly the objects of one old bucket, those under one key in reverse order |
| AddressMap.IntruAddressMap.Find | net/misc/utils.cc:494-531 | returns the top of the key's stack, or null exactly if no object has the key; in a map the mapped object |
| AddressMap.IntruAddressMap.Remove | net/misc/utils.cc:533-586 | takes the top of the key's stack out and leaves all other stacks; a map loses the key; the last removal returns the map to its initial state |
| AddressMap.IntruAddressMap.Scan | net/misc/utils.cc:550-582 | finds the first object under the key and its predecessor |
| AddressMap.IntruAddressMap.Drop | net/misc/utils.cc:557-576 | the contents and stacks without one object; the table goes with the last |
| AddressMap.Link | net/misc/utils.cc:476-489 | a new object at the front of its bucket leaves all chains linked |
| AddressMap.Unlink | net/misc/utils.cc:557-566 | an object taken out of a chain leaves all chains linked |
| Handshake.Socket.constructor | net/misc/socket.cc:560-570 | an initialised socket that has moved no byte |
| Handshake.Socket.ProgressRecv | net/os/linux.cc:205-243 | appends to the buffer exactly the bytes taken from the stream; one attempt in asynchronous mode, in both modes a first part of the wait for the rest |
| Handshake.Socket.ProgressSend | net/os/linux.cc:205-243 | sends exactly the data between the offsets, the same way |
| Handshake.Socket.WaitRecv | net/misc/socket.cc:66-76 | receives exactly n bytes or reports why not; code, number of bytes and script left are those of `Wait` |
| Handshake.Socket.WaitSend | net/misc/socket.cc:66-76 | sends all the data, once, or reports why not, as `Wait` says |
| Handshake.Continued | net/misc/socket.cc:66-76 | a wait is its parts joined: bytes moved without failure, then whatever the next calls do |
| Handshake.Ended | net/misc/socket.cc:66-76 | a wait that failed or moved all its bytes is the recursive `Wait` over the script |
| Handshake.FirstTrouble | net/os/linux.cc:212-243 | a wait ends at the first step that is aborted, hung up or in error: the code, and the bytes moved as the sum of what the steps offered |
| Handshake.StillWaiting | net/misc/socket.cc:66-76 | until then, and until all bytes have come, it goes on |
| Handshake.WaitSucceeds | net/misc/socket.cc:66-76 | one byte or more a step, in whatever chunks, ends it in success |
| Handshake.Socket.FinalizeAccept | net/misc/socket.cc:327-389 | the state is the verdict on the bytes received, however they were cut, or a reset for a peer gone before its magic was whole; a reset zeroes the counter; code, state, bytes taken and script left are those of `Receive` for every script; counter and bytes disagree afterwards if and only if an abort met a step that moved bytes, or the synchronous run of the script fails after taking some |
| Handshake.Socket.RecvBoth | net/misc/socket.cc:336-388 | code, number of bytes and script left by the synchronous reads, for every script and stream, and what the bytes decide |
| Handshake.Socket.ReadMagic | net/misc/socket.cc:335-367 | state, counter, buffer, bytes and code after the asynchronous magic phase, from any counter and buffer; a hang-up resets, an error or abort keeps the counter |
| Handshake.Socket.MagicReadKeeps | net/misc/socket.cc:346-367 | counter and bytes still agree after it if and only if no abort met a moving step, and it goes on exactly with the whole right magic |
| Handshake.Socket.ReadType | net/misc/socket.cc:368-389 | the same for the type phase; a hang-up is an error |
| Handshake.Socket.TypeReadKeeps | net/misc/socket.cc:372-388 | counter and bytes still agree after it if and only if no abort met a moving step, and the state is the verdict |
| Handshake.Socket.TryAccept | net/os/linux.cc:92-110 | a new peer starts with nothing read; the code and the retry count are functions of the outcome: a transient error is forgiven up to the limit, other errors end in SystemError |
| Handshake.Socket.ConnectCheck | net/os/linux.cc:155-183 | connected, polling, retrying or failed as the outcome says, before any byte is sent; RemoteError exactly at the retry limit |
| Handshake.Socket.StartOrPoll | net/os/linux.cc:185-203 | one connection attempt or poll: code, state and retry count as functions of the outcome |
| Handshake.Socket.DialRetries | net/os/linux.cc:155-183 | a synchronous connect makes any number of refused attempts again if the retry count allows, and goes on as if it began there; else it ends in RemoteError |
| Handshake.Socket.DialPolls | net/os/linux.cc:191-203 | an attempt under way is polled through any number of timeouts at no cost in retries |
| Handshake.Socket.SendRest | net/misc/socket.cc:407-418 | code, counter and bytes sent by an asynchronous call from any counter and any script |
| Handshake.SendSlipsExactly | net/os/linux.cc:230-240 | the counter stored differs from what was sent if and only if the step the call ends with moved bytes and was aborted, and then the code is InternalError |
| Handshake.Socket.SendingKeeps | net/misc/socket.cc:407-418 | so counter and bytes agree after it if and only if they did not slip |
| Handshake.Socket.FinalizeConnect | net/misc/socket.cc:400-421 | Ready means magic then type were sent, once, in order; otherwise a prefix was; counter and bytes disagree if and only if an abort met a step that moved bytes, or the synchronous run of the script fails after sending some |
| Handshake.Socket.SendBoth | net/misc/socket.cc:402-406 | code, bytes sent and script left by the synchronous sends, for every script |
| Handshake.Socket.ProgressState | net/misc/socket.cc:423-440 | every progress call keeps the invariant unless it is aborted; acceptors and connectors stay in their states |
| Handshake.Socket.CheckReady | net/misc/socket.cc:442-458 | reports running exactly when Ready, with the whole handshake sent or received; code and state are decided by the script from every state; between calls no byte is lost, and a peer is given up only for wrong bytes or too few |
| Handshake.Socket.Connect | net/misc/socket.cc:460-504 | for every script, the code, state and bytes sent are those of the attempts to connect followed by the handshake; InternalError after a success exactly if the abort flag is seen; Ready means the handshake was sent |
| Handshake.Socket.Accept | net/misc/socket.cc:506-558 | for every script and every list of peers, code, state and peers left are those of serving them one after the other; Ready means the handshake was received and equal to its own; without retry at most one peer is taken |
| Handshake.Socket.ServesRightPeer | net/misc/socket.cc:506-558 | a first peer that is right and whole makes it Ready |
| Handshake.Socket.ServesNextPeer | net/misc/socket.cc:528-540 | with retry, a wrong peer costs only what was read of it |
| Handshake.PeersAgree | net/misc/socket.cc:327-421 | for every prefix of what a connector sends, the acceptor is Ready exactly after all of it if both configurations agree, and turns the peer away at the end of the first field that differs |
| Handshake.VerdictIsFinal | net/misc/socket.cc:359-388 | a rejected prefix stays rejected |
| Handshake.BothEnds | net/misc/socket.cc:460-558 | a connector and an acceptor on one connection, in either mode and any order of calls: no byte is lost, repeated or reordered; the acceptor is Ready exactly after the whole handshake of a peer with its own magic and type, and gives such a peer up only if it was lost before its magic was whole |
| Handshake.ConnectorTurn | net/misc/socket.cc:442-458 | a call of the connector keeps both ends of the connection in step |
| Handshake.AcceptorTurn | net/misc/socket.cc:442-458 | so does a call of the acceptor |
| Handshake.JoinedIsDecided | net/misc/socket.cc:327-421 | at such ends the bytes taken are the first ones of the peer, and they and the two configurations decide the acceptor's state |
| Handshake.Meet | net/misc/socket.cc:460-558 | one ncclSocketConnect and one ncclSocketAccept leave both ends Ready if and only if the connector reaches its peer and sends all, and the acceptor finds it right |
| Handshake.PairMeets | net/misc/socket.cc:460-558 | any two synchronous ends with the same magic and type end up Ready, in whatever chunks the bytes move, if each system call moves some and none is aborted |
| Handshake.AbortSendsTwice | net/os/linux.cc:235-240 | a connection whose second call sends again the bytes an aborted first call had sent |
| Handshake.AbortMisreads | net/os/linux.cc:235-240 | an acceptor that turns the right peer away because an aborted call took bytes without counting them |
| Bits.Pow2Test | net/include/bitops.h:98-101 | the bit test recognises exactly the powers of two |
| Bits.AlignUp | net/include/bitops.h:76-79 | the least multiple at or above, and no more than a - 1 above |
| Bits.AlignUpIsMask | net/include/bitops.h:76-83 | rounding up is what the mask computes in a word |
| FloatCode.EncodeMonotone | net/include/bitops.h:470-480 | the code respects order |
| FloatCode.SameCodeIsClose | net/include/bitops.h:470-480 | values sharing a code differ by less than one part in 2^bits |
| FloatCode.EncodeBelow | net/include/bitops.h:470-480 | the largest code for values of a given width |
| FloatCode.DecodeEncode | net/include/bitops.h:470-487 | decoding an encoded value loses at most an eighth, nothing below 16 |
| FloatCode.EncodeDecode | net/include/bitops.h:482-498 | every code below 240 is the code of what it decodes to |
| Reciprocal.RcpFormsAgree | net/include/nccl_device/utility.h:197-203 | both definitions of the reciprocal agree |
| Reciprocal.IDivModFast | net/include/bitops.h:182-209 | exact quotient and remainder for every word and every divisor |
| Reciprocal.IDivModFastDevice | net/include/nccl_device/utility.h:242-263 | the same for the second form |
| Reciprocal.IMulRcp | net/include/bitops.h:163-180 | the exact reciprocal of the product up to half the word range, and beyond that exactly if the high product is not zero |
| Reciprocal.ComposedReciprocalCanFail | net/include/bitops.h:165-172 | a product above half the range whose composed reciprocal is wrong |
| CostModel.CostLog2i | tuner/plugin.c:507-512 | the loop computes the logarithm rounded down: 2^r <= n < 2^(r+1) |
| CostModel.PriceIsAffine | tuner/plugin.c:792-924 | every price is a size-free fixed part plus a size-free time per byte |
| CostModel.FixedSign | tuner/plugin.c:872-889 | the fixed part is negative only for PAT with a negative latency |
| CostModel.PricingIgnoresSize | tuner/plugin.c:792-924 | whether a cell is priced is independent of size, exactly unless it is such a PAT cell |
| CostModel.PriceGrows | tuner/plugin.c:834-837 | with more than one rank, more bytes cost strictly more |
| CostModel.PriceMono | tuner/plugin.c:792-924 | more bytes never cost less |
| CostModel.CheapestBetween | tuner/plugin.c:792-924 | a cell cheapest at two sizes is cheapest in between if and only if no usable PAT cell of negative latency has come into its price and undercuts it |
| CostModel.CheapestIsInterval | tuner/plugin.c:792-924 | the sizes at which a cell is the cheapest form an interval, if no other usable cell is such a PAT cell |
| CostModel.PatCanDependOnSize | tuner/plugin.c:872-889 | the rail profile with a negative graph latency, where PAT is priced at one size and not at another |
| CostModel.RingLosesInBetween | tuner/plugin.c:872-889 | there, RING is the cheapest at two sizes and not in between |
| CostLaws.RingLatency | tuner/plugin.c:739-762 | the latency of RING is the base and one walk over all ranks, two for AllReduce, each hop a link or the network as the nodes of its ends say |
| CostLaws.TreeLatency | tuner/plugin.c:739-764 | the latency of TREE is the base and the way up the chain of a node and up the binary tree of nodes, and down again |
| CostLaws.LastIsDeepest | tuner/plugin.c:507-512 | that way is the longest in the tree |
| CostLaws.NvlsLatency | tuner/plugin.c:765-767 | NVLS pays one hop to the switch and one over the network if there is one |
| CostLaws.NvlsTreeLatency | tuner/plugin.c:768-770 | NVLS_TREE pays the base, one hop to the switch, and up and down the tree of nodes |
| CostLaws.PatLatencyLaw | tuner/plugin.c:878-881 | PAT pays the base, the way up the tree of nodes, and a term for each rank |
| CostLaws.LatCountLaw | tuner/plugin.c:835-836 | the latency counts for each operation of a ring and for every four of another algorithm, at least once |
| CostLaws.TrafficLaw | tuner/plugin.c:708-734 | the transfer term is the traffic of the schedule over the bus bandwidth: n - 1 steps of a nth of the data for each round, or all of it up and down a tree |
| CostLaws.ChannelIsLeast | tuner/plugin.c:636-672 | a channel's bandwidth is the least of its link and the caps that apply; NVLS has none but with SIMPLE and two channels |
| CostLaws.BusIsLeast | tuner/plugin.c:674-706 | the bus bandwidth is the least of the limits of protocol and algorithm, each from the table entry for one, two or more nodes |
| CostLaws.WithinTheLinks | tuner/plugin.c:636-706 | no ring or tree exceeds what its links carry together |
| CostLaws.PriceOfSchedule | tuner/plugin.c:792-924 | a cell's price is its scaled latency as often as it counts and the traffic of its schedule; none without bandwidth or with a negative latency |
| CostLaws.PatPrice | tuner/plugin.c:868-889 | PAT is priced exactly with an efficiency, SIMPLE and one rank to a node, the data crossing the links once at that efficiency |
| CostLaws.OtherCells | tuner/plugin.c:792-924 | a single rank pays nothing, and every other cell has no price |
| CostLaws.RegisteredBuffers | tuner/plugin.c:777-786 | registered buffers scale what is paid for latency by the profile's factor, and nothing else |
| CostLaws.AllReduceIsBothPhases | tuner/plugin.c:708-775 | an AllReduce on the ring costs what ReduceScatter and AllGather cost, paying the base latency once |
| Tuner.PriceCell | tuner/plugin.c:966-974 | a usable cell gets its price or is listed, IGNORE and all other cells are untouched |
| Tuner.PriceRow | tuner/plugin.c:965-984 | the same for a row |
| Tuner.PriceCells | tuner/plugin.c:957-984 | the same for the table; the list never overflows its buffer |
| Tuner.DisableCells | tuner/plugin.c:986-996 | exactly the listed cells get the disabled cost |
| Tuner.ApplyCostModel | tuner/plugin.c:947-998 | each usable cell ends with its price, the disabled cost or its old value as specified; the result tells whether any was priced |
| Tuner.FirstRule | tuner/plugin.c:1085-1106 | the first rule that matches and names a usable cell in range |
| Tuner.WindowIsClosed | tuner/plugin.c:1088-1094 | a rule that applies at one size applies exactly at the sizes of its window, both ends included |
| Tuner.FieldsNarrow | tuner/plugin.c:1088-1094 | a field set to -1 matches everything, any other value only itself |
| Tuner.GetCollInfo | tuner/plugin.c:1071-1158 | a deciding rule zeroes its cell alone and sets the channels unless -1, else the model applies, else nothing changes |
| Tuner.RuleWins | tuner/plugin.c:1106-1107 | a deciding rule makes its cell cheaper than every usable cell of positive cost |
| Tuner.IgnoreIsKept | tuner/plugin.c:1106-1107 | an IGNORE cell is never altered and none is made |
| Tuner.NothingPricedNothingChanged | tuner/plugin.c:1154-1157 | with no deciding rule and nothing priced the table is unchanged |
| Tuner.NeverMixed | tuner/plugin.c:940-944 | where no rule decides and the model prices a cell with disabling on, usable cells hold its prices or the disabled cost only |
| Tuner.WinnerIsInterval | tuner/plugin.c:947-998 | where no rule decides at the sizes asked, the sizes at which a given cell holds the table's minimum form an interval, if no other usable cell is a PAT cell of negative latency |
| Partition.P2pPartBounds | net/include/device.h:261-271 | the part's bounds; a non-empty part starts 4 KiB-aligned |
| Partition.PartsRise | net/include/device.h:261-271 | the parts abut, from 0 to the byte count |
| Partition.PartIsLeast | net/include/device.h:263 | the size of a part is the least multiple of 4 KiB with which the parts cover the bytes |
| Partition.PartSize | net/include/device.h:261-271 | no part is larger, and every part but the last with bytes is of that size |
| Partition.PartOfItsChannel | net/include/device.h:276-283 | the part of a part's channel is that part, for any base |
| Partition.ChannelOfItsPart | net/include/device.h:276-283 | and the channel of a channel's part is that channel |
| Partition.EveryByteMovesOnce | net/include/device.h:261-283 | every byte of a transfer belongs to exactly one channel |
| Partition.CollCbdPart | net/include/device.h:338-362 | the part covers exactly the channel's elements: offset, count and chunk of the low, a middle or the high channel |
| Partition.CbdTiles | net/include/device.h:338-362 | the parts tile the count exactly if there are two channels or the absent high one has no work |
| Partition.LoneChannelCanMiss | net/include/device.h:338-362 | one channel with a count for an absent high one leaves an element out |
| QpStriping.GetNqpsPerRequest | net/transport/net_ib/common.h:448-463 | the QPs of a request, an error exactly while uninitialised |
| QpStriping.RequestCovers | net/transport/net_ib/common.h:445-463 | a request whose data is split uses every QP of the connection once, any other nDataQps different ones |
| QpStriping.GetQpForRequest | net/transport/net_ib/common.h:467-484 | the picked QP, an error exactly if uninitialised or missing |
| QpStriping.PicksAreDistinct | net/transport/net_ib/common.h:467-484 | one request's picks are pairwise distinct |
| QpStriping.StripingIsFair | net/transport/net_ib/common.h:467-484 | any nqps consecutive requests use each QP exactly nQps times |
| QpStriping.EveryDeviceIsReached | net/transport/net_ib/common.h:435-484 | every request reaches every device |
| QpStriping.ComputeLbWeights | net/transport/net_ib/common.h:404-416 | the weights add up to 100, all but the last are the rounded-down shares, and exactly which of them are 0 |
| QpStriping.LastIsZero | net/transport/net_ib/common.h:413-415 | the last weight, share and left-over together, is 0 if and only if that device has no speed and nothing is left over |
| QpStriping.NothingLeftOver | net/transport/net_ib/common.h:409-412 | the shares add up to 100 if and only if every speed is a whole number of hundredths of the total |
| QpStriping.FillShares | net/transport/net_ib/common.h:408-412 | every device gets its share, and the uint8 total is their sum |
| QpStriping.SharesAtMostFull | net/transport/net_ib/common.h:409-412 | no prefix of the shares exceeds 100, so the uint8 sum does not wrap |
| QpStriping.ShareIsZero | net/transport/net_ib/common.h:409-411 | exactly when a share is 0 |
| QpStriping.WeightCanBeZero | net/transport/net_ib/common.h:404-416 | two speeds for which a weight is 0 |
| BusId.PrintHex | net/misc/utils.cc:27-31 | hexadecimal digits of the number, at least the width asked for |
| BusId.BusIdToInt64 | net/misc/utils.cc:33-48 | the value of the first 16 hexadecimal digits, separators skipped, to the first other character |
| BusId.RoundTrip | net/misc/utils.cc:27-48 | parsing a printed id that is not negative gives it back, with at most 16 digits |
| BusId.NegativeIsLost | net/misc/utils.cc:27-48 | a negative id comes back as the largest number |
| BusId.RoundTripIff | net/misc/utils.cc:27-48 | the round trip holds exactly for ids that are not negative |

## Left out

- Weak-memory effects, clocks, yields and sleeps: steps are sequentially consistent, the 10 microsecond spin is a choice at every turn.
- Progress under fairness: the queue and the barrier are shown never to be stuck; that a scheduler runs the enabled step is not modelled. A spuriously failing compare-exchange makes Abandon of an empty queue wait for the next Enqueue.
- Memory stack: zero-size objects (two may share an address), the alignment of out-of-hunk objects, malloc failure and address wrap-around.
- AddressMap.IntruAddressMap.Insert: asks that the object is not in the map already and that `2 << hbits`, which it computes, is an int. Null map and output pointers and objects whose key changes while they are in the map are left out.
- Handshake: descriptors, socket options and their errors, the creation of a new descriptor on a connect retry, null arguments, address fields and byte order of the magic.
- Tuner: configuration file parsing, environment variables, profile selection, logging and floating-point rounding; the context is an input. The number of nodes is at least one, as the division needs.
- Partition: 64-bit wrap-around of part offsets; chunk sizes beyond the product the source returns.
- QpStriping: speeds large enough for `speed * 100` to wrap; the fairness results exclude wrap-around of `id * nQps`.
- FloatCode: encoding with no mantissa bits, decoding for widths other than 3, whose leading-one constant is fixed.
- Reciprocal: idivFast64, which truncates its result to 32 bits.
- ncclUserRedOpMangle, ncclMemoryPool, ncclIntruQueue, ncclSocketMultiOp, rollingLessEq, eatHash: easier members of the same files.
- The InfiniBand data path, CUDA, verbs, NVML and GDRCopy wrappers: calls into libraries that are not part of this model.
