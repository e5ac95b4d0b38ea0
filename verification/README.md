# A verified model of ntirpc's core

ntirpc is the transport-independent RPC library under NFS-Ganesha. This project models five of its components in Dafny
and proves what they are for. Every file declares one module; `dafny verify dfyconfig.toml` checks all of them.

| module | component |
|---|---|
| `RbShape`, `RbBalance`, `RbRemove`, `RbTrees` | the red-black tree with parent pointers that the tables below are built on |
| `Crc32c`, `Crc32cTables` | CRC32C with one table, and slicing by eight |
| `SeqWindow` | the sequence number window of an RPCSEC_GSS context |
| `GssCache`, `GssThreads`, `GssMachine`, `GssRuns` | the cache of RPCSEC_GSS contexts under concurrent requests, and the switch that turns RPCSEC_GSS off |
| `GssTraps`, `GssProgress`, `GssLookups`, `GssRequests`, `GssScenarios` | which requests finish, what they achieve, and runs that show it and reach the exceptions |
| `GssSweep` | the collector of idle contexts |
| `ClientCalls`, `Expiry`, `AckSync`, `Negotiate` | client requests: transaction ids, deadlines, races for completion, version negotiation |
| `Xdr`, `RpcMessage`, `RpcWire`, `RpcDecode`, `RpcEncode`, `RpcTransfer` | RPC call and reply headers over queues of buffers |
| `Basics` | what several of these share |

How the models are made:

- **The tree** is a class over heap nodes with the fields of the source (`left`, `right`, `parent`, `red`, `gen`), and
  its methods write those fields in the order of the source. A ghost tree and a ghost path from the node at hand to the
  root (`At`) say what the fields hold at every point of the upward loops. `Valid` says: the fields form one tree with
  consistent parent links, it is red-black with a black root, its keys increase strictly in order, `size` is the number
  of nodes, and every linked node has a generation other than zero. The comparison callback is the comparison of integer
  keys; any callback that orders a finite set of nodes can be numbered that way. The request tables in `ClientCalls` and
  `Expiry` run on this very tree.
- **The GSS cache** is a state machine. A thread is at a label of its program (`GssThreads.Edge` is the flow graph of
  requests that create, look up and destroy contexts, of the collector and of the switch), and each step does one
  operation on the shared state: taking or dropping a mutex, testing the switch, changing a count, working on one
  partition under its mutex. Any number of threads, partitions and contexts take part, in any interleaving. What the GSS
  library answers, whether a reply can be sent and which contexts are idle is left open: both outcomes are steps.
- **Races for a client request** (`AckSync`) are a state machine as well: any number of replies and expiry tasks against
  the thread that owns the request; the decrement of the refresh count is a load and a store.
- **Headers** are read by methods over a cursor into a queue of buffers and written by methods that fill buffers and add
  new ones. A flat parser (`ParseMsg`) and a header function with explicit padding (`Header`) are the specification, and
  both agree with a layout that gives every field by position and number (`OnWire`).

What the proofs bring to light, each stated as an exact condition:

- The sequence window, of any size (the source uses 512), accepts a number again if and only if it is the highest one so
  far (`ReplayAccepted`).
- A request whose establishing reply cannot be sent deletes its context while it holds the lock of the context. It is
  stuck for ever if and only if the context has been put into the cache (`FailedReply`, `TrappedForever`), whether it
  is still queued or a sweeper has it: in the first case the request waits for the lock it holds itself
  (`SelfLockReachable`), in the second it waits for the mutex of the sweeper, which waits for the lock of the request
  (`CrossLockReachable`). From every reachable state all threads can come to rest if and only if there is no such
  request (`FinishIff`).
- A second context under a key that is queued already takes the slot but not the tree. A removal leaves a queued context
  that lookups miss if and only if it removes the context the tree has while another one is queued under the same key
  (`DequeueServes`). Over a whole run lookups find exactly the queued contexts if and only if no context is put into the
  cache while its key is queued (`FaithfulIff`). A run that goes wrong (`MissedReachable`) needs two live contexts whose
  GSS handles hold the same pair of addresses; the comment at src/authgss_hash.c:287-293 asks
  whether that should be dealt with.
- ACKSYNC lets one reply through between two clears, but a reply let through earlier may call back late. From every
  state, and so after every clear, at most one callback is made until the next clear if and only if those made, those
  due and the one that an open gate lets through are not more than one (`OneOnlyIff`, `LateReachable`).
- A collector call visits every partition exactly once if and only if its 32-bit counter does not wrap during the call
  or the number of partitions divides 2^32 (`TurnsOnce`).
- A rejected reply with an unknown reason is decoded to the same message from any buffers, but the cursor is left one
  word further if its first five words lie in one buffer (`DecodeBoth`, `SplitRejection`).

## Model

| member | source | states |
|---|---|---|
| `RbTrees.RbTree.constructor` | src/rbtree.c:62-68 | an empty tree is valid |
| `RbTrees.RbTree.UpdateParentPtr` | src/rbtree.c:47-58 | whatever pointed at a node from above, its parent or the root, points at its replacement, and nothing else changes |
| `RbTrees.RbTree.RotateRight` | src/rbtree.c:142-157 | the pointers after a rotation, for any node with a left child, with or without inner grandchild and parent |
| `RbTrees.RbTree.RotateLeft` | src/rbtree.c:159-174 | the mirror image |
| `RbTrees.RbTree.RotateRightAt` | src/rbtree.c:142-157 | wherever it is done, a rotation leaves a well-linked tree with the same nodes in the same order |
| `RbTrees.RbTree.RotateLeftAt` | src/rbtree.c:159-174 | the mirror image |
| `RbBalance.GrandparentExists` | src/rbtree.c:191-192 | when the recolouring loop reads the grandparent there is one, and it is black |
| `RbBalance.RedUncle` | src/rbtree.c:197-203 | recolouring past a red uncle keeps the loop invariant two levels up |
| `RbBalance.InnerChild` | src/rbtree.c:205-208 | rotating an inner child outward keeps the loop invariant |
| `RbBalance.OuterChild` | src/rbtree.c:210-212 | rotating the grandparent ends with a sound tree |
| `RbTrees.RbTree.InsertRecolour` | src/rbtree.c:186-236 | from a tree whose only fault is a red node under a red parent, the loop ends in a red-black tree with a black root and the same nodes in order |
| `RbTrees.RbTree.InsertAt` | src/rbtree.c:238-258 | linking a red leaf at a free place and repairing gives a red-black tree with the node at that place of the order, and a generation that is not zero |
| `RbTrees.RbTree.Insert` | src/rbtree.c:263-288 | returns the node with an equal key and changes nothing, or keeps the tree valid and adds exactly this node at its place in the order; null if and only if the key was new |
| `RbTrees.RbTree.Lookup` | src/rbtree.c:292-314 | finds the node with the key if there is one; with c comparisons in a tree of n nodes, 2^c is at most (n+1)^2 |
| `RbBalance.HeightBound` | src/rbtree.c:186-382 | a red-black tree with n nodes is at most 2*log2(n+1) high |
| `RbBalance.SizeBound` | src/rbtree.c:186-382 | a tree of black height h has at least 2^h - 1 nodes and is at most 2h + 1 high |
| `RbBalance.SiblingExists` | src/rbtree.c:322-331 | the removal loop always finds a sibling, and a red one has two children |
| `RbBalance.RedSibling` | src/rbtree.c:325-330 | rotating a red sibling up keeps the shortage at the focus and gives it a black sibling |
| `RbBalance.BlackNephews` | src/rbtree.c:331-335 | painting the sibling red moves the shortage one level up |
| `RbBalance.RedNearNephew` | src/rbtree.c:337-343 | rotating the sibling turns a red near nephew into a red far one |
| `RbBalance.RedFarNephew` | src/rbtree.c:344-349 | rotating the parent ends the shortage |
| `RbTrees.RbTree.RemoveRecolour` | src/rbtree.c:316-382 | from a tree one black node short at one place, the loop terminates in a red-black tree with a black root and the same nodes in order |
| `RbTrees.RbTree.RemoveOuter` | src/rbtree.c:395-470 | removing a node with at most one child leaves a red-black tree without just this node |
| `RbTrees.RbTree.RemoveInner` | src/rbtree.c:405-456 | moving the successor into the place of a node with two children leaves a red-black tree without just that node |
| `RbTrees.RbTree.Remove` | src/rbtree.c:384-476 | a linked node leaves the order, everything else stays in it, the tree is valid and the generation zero; a node that is not linked changes nothing |
| `RbTrees.RbTree.Ordered` | src/rbtree.c:263-288 | in a valid tree the keys increase strictly along the order |
| `RbTrees.RbTree.KeysDiffer` | src/rbtree.c:263-288 | linked nodes with equal keys are the same node |
| `RbTrees.RbTree.First` | src/rbtree.c:70-82 | the first node in order, or null if there is none |
| `RbTrees.RbTree.Last` | src/rbtree.c:84-97 | the last node in order, or null if there is none |
| `RbTrees.RbTree.Next` | src/rbtree.c:99-121 | the node after this one in order, or null after the last |
| `RbTrees.RbTree.Prev` | src/rbtree.c:123-140 | the node before this one in order, or null before the first |
| `RbTrees.RbTree.Walk` | src/rbtree.c:70-121 | first and then next visit every linked node exactly once, in order, and end |
| `RbTrees.RbTree.StepAndBack` | src/rbtree.c:99-140 | prev undoes next at every node but the last |
| `Crc32c.CrcIsBitSerial` | src/rpc_crc32.c:205-213 | the byte loop over one table is the shift register of the reflected polynomial, bit by bit |
| `Crc32c.CrcConcat` | src/rpc_crc32.c:205-213 | the CRC of a concatenation is the CRC of the second part seeded with that of the first |
| `Crc32c.TurnsXor` | src/rpc_crc32.c:205-213 | the register is linear over GF(2) |
| `Crc32c.BlockIsEightUpdates` | src/rpc_crc32.c:923-959 | eight lookups for eight bytes are eight steps of the byte loop |
| `Crc32c.ByteOrderIrrelevant` | src/rpc_crc32.c:923-959 | the big-endian branch computes the same as the little-endian one |
| `Crc32c.SingleTable` | src/rpc_crc32.c:205-213 | the loop computes the CRC |
| `Crc32c.SlicingBy8` | src/rpc_crc32.c:907-966 | for any number of leading bytes the fast loop computes the same CRC |
| `Crc32c.MultiTable` | src/rpc_crc32.c:968-977 | for any alignment of the buffer, too |
| `Crc32c.Calculate` | src/rpc_crc32.c:979-986 | the entry point computes the CRC of any buffer, seed and alignment |
| `Crc32c.CrcXor` | src/rpc_crc32.c:205-213 | the CRC of two buffers added bit by bit is the sum of their CRCs |
| `Crc32c.CrcEnters` | src/rpc_crc32.c:205-213 | the byte loop lets the bits of the buffer enter the register one after the other |
| `Crc32c.DetectsBursts` | src/rpc_crc32.c:907-986 | two different buffers of any length whose bits differ only within a window of 32, at any bit offset, have different CRCs |
| `Crc32cTables.PolyIsReflected` | src/rpc_crc32.c:126-128 | the polynomial of the register is 0x1EDC6F41 with its bits reversed |
| `Crc32cTables.TablesAre` | src/rpc_crc32.c:138-904 | every entry of the eight tables is the sum of their literal entries at the powers of two |
| `Crc32cTables.CheckValue` | src/rpc_crc32.c:138-213 | the digits from 1 to 9 have the check value of CRC32C, 0xE3069283 |
| `SeqWindow.RunBounded` | src/svc_auth_gss.c:597-653 | over any run nothing above the highest number has been accepted, and what was accepted stays accepted |
| `SeqWindow.NeverAgain` | src/svc_auth_gss.c:597-653 | an accepted number that has been overtaken is never accepted again |
| `SeqWindow.ReplayAccepted` | src/svc_auth_gss.c:597-653 | a number is accepted twice if and only if it is the highest so far |
| `SeqWindow.ReplayOfLast` | src/svc_auth_gss.c:630-653 | such a replay, for every window |
| `SeqWindow.AcceptedIff` | src/svc_auth_gss.c:597-653 | over any run exactly those numbers have been accepted that came in while they were less than the window behind every number before them |
| `SeqWindow.AnswerIff` | src/svc_auth_gss.c:597-653 | a number is accepted if and only if it is the highest that has come in, or has not come in before and is less than the window behind every other |
| `SeqWindow.UnseenIff` | src/svc_auth_gss.c:602-627 | a number not accepted before is accepted if and only if it is less than the window behind the highest |
| `SeqWindow.SeqNumWindow.MoveUp` | src/svc_auth_gss.c:630-648 | clearing the bits on the way up, or all of them, keeps the bitmap equal to the accepted numbers of the window |
| `SeqWindow.SeqNumWindow.IsSeqNumValid` | src/svc_auth_gss.c:597-653 | the number is accepted if and only if it is the highest that has come in, or within the window and new; the highest number and the accepted ones follow, and the circular bitmap shows exactly the accepted numbers of the window afterwards |
| `GssCache.CompareOrders` | src/authgss_hash.c:83-117 | the comparison of contexts is a total order in which only equal keys are equal |
| `GssCache.HashIs` | src/authgss_hash.c:72-81 | the hash is the sum of the two addresses modulo 2^32 |
| `GssCache.EnqueueSound` | src/authgss_hash.c:261-267 | inserting keeps a partition sound: no duplicates in the queue, size its length, and everything in the tree or a slot queued under its own key |
| `GssCache.TouchSound` | src/authgss_hash.c:202-213 | a hit finds a queued context of this key and keeps the partition sound |
| `GssCache.DequeueSound` | src/authgss_hash.c:299-303 | removing keeps a partition sound |
| `GssCache.EmptyQueue` | src/authgss_hash.c:391-403 | a sound partition with an empty queue has nothing in its tree and slots |
| `GssCache.DuplicateLost` | ntirpc/misc/rbtree_x.h:88-160 | a context inserted under a queued key is lost to lookups when the first one is removed |
| `GssCache.EnqueueIndexed` | ntirpc/misc/rbtree_x.h:88-125 | inserting keeps the key of every queued context in the tree |
| `GssCache.TouchIndexed` | src/authgss_hash.c:202-213 | so does a hit |
| `GssCache.DequeueServes` | ntirpc/misc/rbtree_x.h:127-160 | a removal keeps every queued context within reach of lookups if and only if it is not the tree's context of a key under which another one is queued |
| `GssCache.ExactIff` | ntirpc/misc/rbtree_x.h:55-86 | with every key in the tree, lookups find exactly the queued contexts if and only if no two are queued under one key |
| `GssThreads.EdgeFollows` | src/svc_auth_gss.c:683-984 | every step of every thread changes the references it holds by what its operation does to the count, takes and drops exactly the mutexes and locks its operation says, works on a partition under its mutex only, inserts a context only as its creator, once and under its lock, and clears the cache partition by partition |
| `GssMachine.InvKept` | src/authgss_hash.c:165-407 | every step of every thread keeps the invariant of the whole machine |
| `GssMachine.CountKept` | src/authgss_hash.c:165-313 | every step keeps a context's count equal to one if queued plus the threads' references, and freed equal to a count of zero |
| `GssMachine.PartsKept` | src/authgss_hash.c:165-313 | every step keeps all partitions sound and their queues in the order of last use |
| `GssMachine.TotalKept` | src/authgss_hash.c:270-271 | every step keeps the global size right but for what threads still have to count |
| `GssMachine.PassedEmptyKept` | src/authgss_hash.c:379-407 | every step keeps the partitions that clearing has passed empty and out of reach of insertions |
| `GssMachine.UnqueuedKept` | src/authgss_hash.c:219-274 | a context that is being established is in no queue before its insertion |
| `GssMachine.ExclusiveKept` | src/svc_auth_gss.c:760-770 | no other thread has a reference on a context before its insertion |
| `GssRuns.RunInv` | src/svc_auth_gss.c:683-984 | every state of every run satisfies the invariant |
| `GssRuns.References` | src/svc_auth_gss.c:683-984 | in every reachable state the count of a context is one if it is queued plus the references of all threads; it is freed if and only if that is zero, so never while queued or held |
| `GssRuns.FreedOnce` | ntirpc/rpc/gss_internal.h:132-145 | no step touches a freed context, and a freed context never changes again |
| `GssRuns.Sizes` | src/authgss_hash.c:165-313 | in every reachable state a partition's size is its queue length, its queue is in the order of last set or get, every tree entry is queued, and the global size is the sum of the queues but for pending counts, modulo 2^32 |
| `GssRuns.SettledTotal` | src/authgss_hash.c:270-308 | when no thread has a count pending the global size is the number of queued contexts |
| `GssRuns.OffStaysEmpty` | src/svc_auth_gss.c:101-171 | while RPCSEC_GSS is off, a partition that clearing has passed is empty, and no request that tested the switch before is about to insert into it |
| `GssRuns.OffIsEmpty` | src/svc_auth_gss.c:101-171 | off and done clearing means an empty cache |
| `GssRuns.PassedUntilOn` | src/svc_auth_gss.c:101-171 | a passed partition stays passed and empty over any further steps until RPCSEC_GSS is turned on |
| `GssTraps.RunTraps` | src/authgss_hash.c:357-366 | in every reachable state a sweeper has the mutex of the partition its context belongs to, and while its creator holds the lock of a context all other threads with a reference wait for it |
| `GssTraps.CaughtWasQueued` | src/authgss_hash.c:357-366 | a context in the hands of a sweeper has been put into the cache |
| `GssTraps.TrappedKept` | src/svc_auth_gss.c:857-861 | no step of any thread frees a trapped request |
| `GssTraps.TrappedForever` | src/svc_auth_gss.c:857-861 | a trapped request never finishes and keeps the lock of its context, over any further steps of any thread |
| `GssTraps.FailedReply` | src/svc_auth_gss.c:841-861 | a request whose establishing reply has failed is trapped if and only if its context has been put into the cache |
| `GssProgress.FreeMoves` | src/svc_auth_gss.c:683-984 | a thread at work can always take a step that brings it closer to its end, but for a mutex or lock that another one holds |
| `GssProgress.NoDeadlock` | src/svc_auth_gss.c:683-984 | in every reachable state without a trapped request, some thread at work can go on if any is at work |
| `GssProgress.Homecoming` | src/svc_auth_gss.c:683-984 | every run without a trapped request can be continued until all threads are at rest |
| `GssProgress.FinishIff` | src/svc_auth_gss.c:683-984 | all threads can come to rest if and only if no reply has failed after its context had been put into the cache |
| `GssLookups.FaithfulIff` | src/authgss_hash.c:165-313 | lookups find exactly the queued contexts in every state of a run if and only if it never queues a context while its key is queued |
| `GssLookups.RunDirected` | src/authgss_hash.c:186-192 | in every reachable state a request that looks a context up is at the partition where one with its key would be queued |
| `GssLookups.HitIsQueued` | src/authgss_hash.c:202-213 | in every run, the context that a request finds is queued under its key |
| `GssLookups.LookupFinds` | src/authgss_hash.c:165-217 | while no context is queued under a queued key, a hit is the one context queued under the key in the whole cache, and a miss means that there is none |
| `GssRequests.SetQueues` | src/authgss_hash.c:219-274 | while RPCSEC_GSS stays on, a request that puts a context into the cache goes on until the context has been queued |
| `GssRequests.LookupAnswers` | src/authgss_hash.c:165-217 | while RPCSEC_GSS stays on, a request that looks a key up goes on until it has an answer, which is right for the whole cache at that moment |
| `GssRequests.DestroyedIsGone` | src/authgss_hash.c:276-313 | a request that destroys a context goes on until the context is in no queue, and never will be again |
| `GssRequests.GoneForGood` | src/authgss_hash.c:165-407 | a context that has been taken out of the cache never comes back |
| `GssRequests.TurnsIt` | src/svc_auth_gss.c:101-171 | a request to turn RPCSEC_GSS on or off goes on until it is so; when that is off, the cache is empty |
| `GssRequests.NoLeak` | ntirpc/rpc/gss_internal.h:132-145 | when all threads are at rest, exactly the contexts that are not queued have been freed |
| `GssScenarios.SelfLockReachable` | src/svc_auth_gss.c:841-861 | a run of a single request that waits for the lock it holds |
| `GssScenarios.CrossLockReachable` | src/authgss_hash.c:357-366 | a run of a request and a sweeper in which each waits for what the other holds |
| `GssScenarios.MissedReachable` | src/authgss_hash.c:287-303 | a run that ends with a queued context that no lookup finds |
| `GssScenarios.LifeReachable` | src/svc_auth_gss.c:683-984 | a run in which a context is created, served, found, destroyed and freed, and the cache is empty at the end |
| `GssSweep.ContextCache.RemoveHead` | src/authgss_hash.c:357-363 | the oldest context leaves the queue, the rest stays, and the partition stays sound |
| `GssSweep.ContextCache.CollectPart` | src/authgss_hash.c:345-373 | a run of oldest contexts is removed, each because it was expired or the partition too large at its turn, until the head is not due or the budget is spent |
| `GssSweep.TakenMeans` | src/authgss_hash.c:345-373 | what is taken off a queue is the longest run of oldest contexts that are expired or above the limit, while the budget lasts |
| `GssSweep.ContextCache.CollectIdle` | src/authgss_hash.c:330-377 | at most the budget is removed, always the oldest of a partition and for a reason; only visited partitions change; short of the budget every turn is taken and nothing visited is still due |
| `GssSweep.TurnsOnce` | src/authgss_hash.c:325-342 | every partition has its turn exactly once if and only if the counter does not wrap in between or the number of partitions divides its modulus |
| `GssSweep.VisitsAll` | src/authgss_hash.c:339-342 | turns that do not repeat reach every partition |
| `GssSweep.AllSettled` | src/authgss_hash.c:330-377 | then a call short of its budget leaves every partition empty, or within its limit with an unexpired head |
| `GssSweep.YoungStay` | src/authgss_hash.c:345-373 | a context that is not expired, and with the younger ones within the limit, stays queued with them |
| `ClientCalls.Connection.constructor` | src/clnt_generic.c:452-468 | a new connection has no pending requests |
| `ClientCalls.Connection.XidsDiffer` | src/clnt_generic.c:452-468 | in every state that the operations keep valid, pending requests have different xids |
| `ClientCalls.Connection.NextXid` | src/clnt_generic.c:538-541 | a request gets the next 32-bit xid only while it is not pending, so no key of a linked node changes |
| `ClientCalls.Connection.Setup` | src/clnt_generic.c:594-640 | a timeout out of range or a taken xid is reported and leaves the pending requests as they were; otherwise the request is pending under the next xid |
| `ClientCalls.Connection.Refresh` | src/clnt_generic.c:531-555 | the request stops being pending under its old xid and is pending under the next one, or reported and pending no more if that is taken |
| `ClientCalls.Connection.Reset` | src/clnt_generic.c:571-577 | the request is not pending, the others are as before |
| `ClientCalls.Connection.ProcessReply` | src/clnt_generic.c:654-664 | a reply finds exactly the request pending under its xid, if there is one |
| `Expiry.ExpiryQueue.Insert` | src/clnt_generic.c:473-496 | the request is queued at the least free millisecond from its deadline on, all other deadlines stay, and the search for it ends |
| `Expiry.ExpiryQueue.Remove` | src/clnt_generic.c:560-569 | a request is taken out of the queue if it is there |
| `Expiry.ExpiryQueue.Scan` | src/rpc_rdma.c:1168-1208 | exactly the requests due by now are taken out and submitted, once each and in ascending order, with their deadlines reset; the timeout becomes the least of the old one and the times to all remaining deadlines |
| `AckSync.RunInv` | src/clnt_generic.c:665-784 | every state of every run of the race satisfies its invariant |
| `AckSync.OnePerClear` | src/clnt_generic.c:678-713 | between two clears of ACKSYNC one reply or expiry has been let through if and only if the clear left no flag set and one is set since, and each calls back once; at most one callback falls between two clears unless an earlier one is late |
| `AckSync.ExpiryCallsBack` | src/svc_rqst.c:414-432 | while the gate is open an expiry can come in and call back |
| `AckSync.OneOnlyIff` | src/clnt_generic.c:678-769 | from every state, and so after every clear, every continuation makes at most one callback before the next clear if and only if the callbacks made, those due and one more while the gate is open are not more than one |
| `AckSync.LateReachable` | src/clnt_generic.c:716-769 | a run in which one is late |
| `AckSync.ThreeSends` | src/clnt_generic.c:729-769 | a wait sends at most three times |
| `AckSync.ThirdSendReachable` | src/clnt_generic.c:729-769 | and a run that sends three times |
| `AckSync.WaitEnds` | src/clnt_generic.c:729-784 | every step of the waiting thread brings it closer to its return, and no reply or expiry sets it back |
| `Negotiate.Create` | src/clnt_generic.c:72-135 | against any server at most one call per version asked for, with falling versions and each after a mismatch, and the last version if the server accepted that; against a server with any set of versions that reports their least and greatest, the highest of them asked for, or failure exactly when there is none, and at most two calls if they have no gaps |
| `Xdr.WordRoundTrip` | ntirpc/rpc/xdr.h:480-504 | a word is read back as it was written |
| `Xdr.WordsDiffer` | ntirpc/rpc/xdr.h:480-504 | and four bytes are written back as they were read |
| `RpcWire.WordOrder` | ntirpc/rpc/xdr.h:480-504 | words are written with the most significant byte first |
| `Xdr.Reader.Inline` | ntirpc/rpc/xdr.h:417-430 | the next bytes if they are in the current buffer, and no change otherwise |
| `Xdr.Reader.GetUnit` | src/xdr_ioq.c:912-939 | the next word of the stream, if and only if the next buffer that is not exhausted has four bytes; with word-aligned buffers it fails only at the end of the stream |
| `Xdr.Reader.GetBytes` | src/xdr_ioq.c:969-1000 | the next bytes of the stream from any number of buffers, if and only if there are as many |
| `Xdr.Reader.GetOpaque` | ntirpc/rpc/xdr_inline.h:434-474 | opaque data and its padding, whatever the padding holds |
| `Xdr.Writer.PutUint32` | src/xdr_ioq.c:941-962 | the stream grows by the word, in the current, a later or a new buffer |
| `Xdr.Writer.PutBytes` | src/xdr_ioq.c:1151-1180 | the stream grows by the bytes, over as many buffers as it takes |
| `RpcMessage.RoundTrip` | src/rpc_callmsg.c:56-263 | parsing a header gives back the message and what follows it, for every arm, every length of credential and verifier up to 400 bytes and any padding |
| `RpcMessage.HeadersDiffer` | src/rpc_dplx_msg.c:66-470 | different messages have different headers, whatever the padding |
| `RpcMessage.ParsedIsHeader` | src/rpc_dplx_msg.c:283-470 | whatever is parsed is the header of that message with some padding, but for rejections with an unknown reason |
| `RpcWire.ParsesIff` | src/rpc_dplx_msg.c:283-470 | a message is parsed from bytes if and only if its fields are there by position and number, and what follows its length is left |
| `RpcWire.HeaderOnWire` | src/rpc_callmsg.c:78-115 | the header of a message has its fields there by position and number |
| `RpcWire.EncodableIff` | src/rpc_callmsg.c:56-76 | a message has an encoding if and only if such bytes exist, and it is not a rejection with an unknown reason |
| `RpcDecode.DecodeAuth` | ntirpc/rpc/auth_inline.h:126-149 | credential or verifier, inline or word by word, as the flat bytes say |
| `RpcDecode.DecodeCall` | src/rpc_callmsg.c:192-263 | the rest of a call, with either kind of words inline or not, as the flat bytes say |
| `RpcDecode.DecodeAccepted` | src/rpc_dplx_msg.c:304-357 | an accepted reply as the flat bytes say |
| `RpcDecode.DecodeDenied` | src/rpc_dplx_msg.c:358-414 | a rejected reply as the flat bytes say, but for the word taken inline and not used when the reason is unknown |
| `RpcDecode.DecodeReply` | src/rpc_dplx_msg.c:283-424 | the rest of a reply, with the same exception |
| `RpcDecode.DecodeMsg` | src/rpc_dplx_msg.c:429-470 | from any word-aligned buffers a message is read if and only if its fields are there by position and number, with the cursor at the first byte after it but for the same exception; from any other buffers that or a failure |
| `RpcDecode.DecodeBoth` | src/rpc_dplx_msg.c:429-470 | two streams of the same bytes in different buffers give the same message, and the same rest unless the reason is unknown and only one of them has its first five words in one buffer |
| `RpcDecode.SplitRejection` | src/rpc_dplx_msg.c:358-414 | such a message, left apart by two ways of buffering it |
| `RpcEncode.EncodeAuth` | ntirpc/rpc/auth_inline.h:75-100 | flavor, length, body and zero padding, if and only if the body is not too long |
| `RpcEncode.StoreAuth` | src/rpc_callmsg.c:100-115 | the same inline, with the padding that was in the buffer |
| `RpcEncode.EncodeCall` | src/rpc_callmsg.c:56-185 | a call is written if and only if its version is 2 and its credential and verifier fit; inline or not it is the same header up to padding |
| `RpcEncode.StoreCall` | src/rpc_callmsg.c:78-115 | what is written inline takes exactly the room that was reserved |
| `RpcEncode.Reserved` | src/rpc_callmsg.c:78-81 | the room reserved for a header is its length, but for the versions of a mismatch |
| `RpcEncode.EncodeAccepted` | src/rpc_dplx_msg.c:73-173 | inline or not the same header up to padding, and only word by word the results follow a successful one |
| `RpcEncode.PutAcceptArm` | src/rpc_prot.c:75-103 | the arm of an accepted reply, with the results after SUCCESS |
| `RpcEncode.EncodeDenied` | src/rpc_dplx_msg.c:174-267 | a rejection with a known reason is written the same from every buffer, any other is refused |
| `RpcEncode.EncodeMsg` | src/rpc_dplx_msg.c:475-494 | every encodable message is added to the output with each field at its position and by its number, and with results after it only for a successful reply written word by word; everything else is refused |
| `RpcTransfer.Transfer` | src/rpc_dplx_msg.c:429-494 | whatever the sizes of the buffers, in whole words, an encodable message that is written to them is read back as it was, and the reader is left at what follows the header |

## Left out

- Sockets, event channels, RDMA verbs, thread pools and connection setup: calls into the system.
- GSS-API calls and credential rotation: their outcomes are open in the model. Signatures and the contents of tokens do not appear.
- `authgss_hash_init` and the bound on the number of partitions: the cache is set up, with any number of partitions.
- `xdr_ncallmsg`, `xdr_nreplymsg` and XDR_FREE: they only dispatch to what is modelled, or free memory.
- Allocation, freeing and logging: freeing a context is a flag that nothing may touch afterwards.
- The references of a CLIENT handle and `CLSET_XID`: the source states no invariant for them.
- Running out of buffers: a writer can always add one, of at least four bytes.
- `opr_rbtree_replace`: it would only add an easy member.
- RbTrees.RbTree.Insert: the comparison callback is the comparison of integer keys.
- RbTrees.RbTree.Lookup: the same; and the bound is stated on powers of two, as 2^c <= (n+1)^2.
- GssProgress.NoDeadlock: says that some thread can go on, and `Homecoming` that all can finish, not that every fair run does; fairness of the mutexes is not modelled.
- GssSweep.ContextCache.CollectIdle: which contexts have expired does not change during the call.
- GssMachine.CountKept: the reference count is not bounded above; only its decrement could wrap, and is proved not to.
- Expiry.ExpiryQueue.Insert: deadlines are integers without overflow.
- AckSync.OnePerClear: memory is sequentially consistent; the mutex around the callback is not modelled, which only adds runs.
- Xdr.Writer.PutUint32: new buffers are of a fixed size; the branch that reallocates a single buffer up to a maximum, and buffers fetched by a transport's own function, are not modelled.
- Xdr.Writer.PutBytes: the same.
- RpcTransfer.Transfer: buffer sizes are whole words; with others a reader may fail in the middle of a word, as `DecodeMsg` says.
- Crc32cTables.TablesAre: of each table eight entries are literals; the others are what linearity makes of them.
- RpcDecode.DecodeMsg: the message is returned as a value; fields that a failed decode may have filled in are not modelled.
