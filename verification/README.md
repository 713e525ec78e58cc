# A verified model of the Online Boutique services

This project models, in Dafny, the parts of the microservice suite under
`apps/boutique/sure` that hold state and carry its correctness: the red-black
tree and map of its container library, the RPC runtime of its services, the
growable deque, the card validator, and its money arithmetic. Line numbers below
refer to the C sources. Where the C code departs from what it evidently means to
do, the model does what the code does, and states what follows from it and when
it does no harm.

| file | what it models |
|---|---|
| `RedBlackTheory.dfy`, `KeyOrder.dfy` | coloured trees and their paths as values; what each case of the fixups does to the rules; keys in order |
| `Addresses.dfy`, `RedBlackHeap.dfy` | nodes as cells of a heap with parent links and a shared sentinel, and the tree they depict |
| `RedBlackTree.dfy` | insertion, removal, search and self-check on that heap, in place |
| `RedBlackTraversal.dfy`, `RedBlackTeardown.dfy` | minimum, maximum, successor; the non-recursive deletion of a whole tree |
| `CMap.dfy` | the map and its iterator |
| `Layouts.dfy` | the message bodies as structures in memory, and their sizes |
| `Messages.dfy`, `StreamTheory.dfy` | message lengths, the greedy parse of a stream, and reassembly on byte strings |
| `Bulks.dfy`, `BulkLimits.dfy` | reassembly with the buffers the bytes sit in, as values: where each buffer ends up, and when one is forgotten or overrun |
| `Resets.dfy` | what a peer that is gone before its reply leaves behind, and what is given back twice |
| `Reassembly.dfy`, `SyncService.dfy` | the same in shared-memory buffers, in place; one bulk of a synchronous service |
| `Stations.dfy` | a synchronous service over its whole life, with many connections |
| `Coroutines.dfy`, `AsyncService.dfy` | the coroutine pool of an asynchronous service and its back-pressure; its two receive loops |
| `Handovers.dfy` | the buffers in which these hand requests and replies to coroutines |
| `Sums.dfy`, `ServiceSystem.dfy`, `SystemRuns.dfy` | the ten services together as a state machine, and its runs |
| `Handlers.dfy` | the calls that the handlers of the three asynchronous services make, and runs of pages |
| `Deliveries.dfy` | replies in transit between the services, and the receive loop that reads them |
| `Basics.dfy` | a few notions used by several of these |
| `SocketTable.dfy`, `Connections.dfy` | the socket table of the poll loop, and whose bytes its slots hold |
| `Deque.dfy` | the deque and its iterator |
| `Luhn.dfy` | the card validator and `Charge` |
| `Money.dfy` | sums and multiples of money, and the totals of an order |

A tree lives in a heap that maps addresses to cells; address 0 is the null
pointer and address 1 the tree's sentinel. `malloc` picks an unused address and
`free` takes one out of the map, so that every read of a freed node would be a
proof error. Buffers are modelled the same way.

Departures of the code from its intent, as the model has them:

- `service.h:226` tests `>` where `>=` is needed (`HeaderTest.Strict` is the code,
  `AtLeast` the evident intent): `StreamTheory.SpinsIff`, `FragmentsDoNotMatter`.
- `service.h:169-172` adopts a buffer without asking for room:
  `BulkLimits.OverrunsIff`, `SplitHeaderOverruns`.
- `service.h:189-199` neither keeps nor puts back the buffer it copied from:
  `BulkLimits.LostIff`, `ShortBufferIsLost`, `Stations.LosesNothingIff`.
- `service_sync.h:130-134` and `service_async.h:339-344` do not move the partial
  messages: `SocketTable.FaithfulIffQuiet`.
- `service_sync.h:52-64` gives back a whole bulk, parts of which are not owned any more,
  and leaves the slot pending: `Resets.TwiceIff`, `SentIsGivenBack`, `Stations.LifeBalances`.
- `service_async.h:196-200` ends the process: `Coroutines.BulkExits`, `LargeBulkExits`;
  as the services are deployed it never does: `SystemRuns.BulksNeverExit`.
- `utilities.h:35-41` doubles: `Money.MultipliesIff`, `ThreeForFour`, `ChargesRightIff`.
- `utilities.h:28-31` misses the normal form promised at `message.h:132-137`:
  `Money.PlusIsNormal`, `Money.PlusOverflows`.
- `c_rb.c:423-428` answers the opposite of its name, `c_rb.c:199-201` leaks a node,
  the iterator of an empty map gives the sentinel (`c_rb.c:408-413`), an iterator
  used after its end starts again (`c_map.c:120-121`), and `c_deque.c:165-171` is one
  too small.

## Model

| member | source | states |
|---|---|---|
| `RedBlackTree.RbTree.constructor` | apps/boutique/sure/common/cstl/src/c_rb.c:83-100 | A new tree is valid, stands for the empty map and has allocated no node beside the sentinel. |
| `RedBlackTree.RbTree.LeftRotateAt` | apps/boutique/sure/common/cstl/src/c_rb.c:41-61 | Rotating left anywhere keeps every entry and node in order, replaces the subtree by its rotation and touches nothing else; every parent link stays right. |
| `RedBlackTree.RbTree.RightRotateAt` | apps/boutique/sure/common/cstl/src/c_rb.c:62-81 | The mirror image. |
| `RedBlackTheory.PushedRedUpKeeps` | apps/boutique/sure/common/cstl/src/c_rb.c:106-110 | With a red uncle, recolouring moves the only violation two levels up and breaks no other rule. |
| `RedBlackTheory.RaisedFromLeftKeeps` | apps/boutique/sure/common/cstl/src/c_rb.c:116-118 | With a black uncle, recolouring and one rotation repair the only violation and keep all black counts. |
| `RedBlackTree.RbTree.InsertStepLeft` | apps/boutique/sure/common/cstl/src/c_rb.c:104-119 | One turn of the insertion loop keeps "the only violation is red x under a red parent, or a red root", the entries and the nodes, and brings x nearer the root. |
| `RedBlackTree.RbTree.InsertStepRight` | apps/boutique/sure/common/cstl/src/c_rb.c:120-136 | The mirror image. |
| `RedBlackTree.RbTree.InsertFixup` | apps/boutique/sure/common/cstl/src/c_rb.c:101-139 | From any tree whose only violation is at x the loop ends in a red-black tree with the same entries in the same order. |
| `RedBlackTree.RbTree.Insert` | apps/boutique/sure/common/cstl/src/c_rb.c:162-233 | On every valid tree: a new key is added and all red-black rules hold again; an existing key keeps its value, the tree is untouched, the duplicate code is returned, and one node is leaked. |
| `RedBlackTheory.LoweredKeeps` | apps/boutique/sure/common/cstl/src/c_rb.c:239-244 | Removal case 1: with a red sibling the extra black sinks one level under a red parent, and nothing else is violated. |
| `RedBlackTheory.AbsorbedKeeps` | apps/boutique/sure/common/cstl/src/c_rb.c:245-247 | Removal case 2: the sibling turns red and the parent takes over exactly one extra black. |
| `RedBlackTheory.StraightenedKeeps` | apps/boutique/sure/common/cstl/src/c_rb.c:249-254 | Removal case 3: the rotation at the sibling keeps the extra black at x and gives x a sibling with a red far child. |
| `RedBlackTheory.SettledFits` | apps/boutique/sure/common/cstl/src/c_rb.c:255-259 | Removal case 4: the last rotation pays the extra black back. |
| `RedBlackTree.RbTree.RemoveStepLeft` | apps/boutique/sure/common/cstl/src/c_rb.c:237-260 | One turn of the removal loop keeps "exactly one extra black at x", also when x is the sentinel, whose parent link stays right, and lowers a measure that case 1 lowers too. |
| `RedBlackTree.RbTree.RemoveStepRight` | apps/boutique/sure/common/cstl/src/c_rb.c:261-285 | The mirror image. |
| `RedBlackTree.RbTree.RemoveFixup` | apps/boutique/sure/common/cstl/src/c_rb.c:234-288 | From any tree with one extra black at x the loop ends in a red-black tree with the same entries. |
| `RedBlackTree.RbTree.FindSplice` | apps/boutique/sure/common/cstl/src/c_rb.c:295-301 | The node unlinked has at most one child, and is the first one to the right of a node with two. |
| `RedBlackTree.RbTree.Splice` | apps/boutique/sure/common/cstl/src/c_rb.c:302-316 | Unlinking drops exactly that node and leaves the parent of its child, perhaps the sentinel, written. |
| `RedBlackTree.RbTree.Trade` | apps/boutique/sure/common/cstl/src/c_rb.c:317-326 | Exchanging the contents gives the unlinked node the removed pair and the tree the successor's. |
| `RedBlackTree.RbTree.Remove` | apps/boutique/sure/common/cstl/src/c_rb.c:334-355 | On every valid tree: the map loses exactly that key, all red-black rules hold again, and the node handed back holds the removed pair, is out of the tree and still allocated; null exactly when the key is absent. |
| `RedBlackTree.RbTree.Find` | apps/boutique/sure/common/cstl/src/c_rb.c:140-160 | Finds a node with the key and its value exactly when the key is in the map, in t turns with 2^t at most (n + 1)^2. |
| `RedBlackTheory.HeightBound` | apps/boutique/sure/common/cstl/src/c_rb.c:504-523 | A red-black tree with n nodes has height at most 2 log2(n + 1). |
| `RedBlackTree.RbTree.VerifyProperty4` | apps/boutique/sure/common/cstl/src/c_rb.c:493-502 | The check passes exactly if no red node below n has a red child or n a red parent. |
| `RedBlackTree.RbTree.VerifyProperty5` | apps/boutique/sure/common/cstl/src/c_rb.c:504-523 | The check passes exactly if all paths below n have the black count seen before, if any. |
| `RedBlackTree.RbTree.DebugVerify` | apps/boutique/sure/common/cstl/src/c_rb.c:471-523 | The self-check passes exactly on red-black trees; insertion and removal prove that it passes after each of them. |
| `RedBlackTree.RbTree.Empty` | apps/boutique/sure/common/cstl/src/c_rb.c:423-428 | The answer is true exactly when the tree is not empty. |
| `RedBlackTraversal.Minimum` | apps/boutique/sure/common/cstl/src/c_rb.c:408-413 | The first node in order of a subtree; the sentinel on an empty one. |
| `RedBlackTraversal.Maximum` | apps/boutique/sure/common/cstl/src/c_rb.c:415-420 | The last node in order of a subtree. |
| `RedBlackTraversal.Successor` | apps/boutique/sure/common/cstl/src/c_rb.c:429-444 | The next node in order, null after the last; the upward walk meets no null parent. |
| `RedBlackTeardown.Delete` | apps/boutique/sure/common/cstl/src/c_rb.c:377-407 | Ends, destroys and frees every node of the tree in postorder, and reads no freed node. |
| `RedBlackTeardown.PostorderOnce` | apps/boutique/sure/common/cstl/src/c_rb.c:377-407 | No node is destroyed or freed twice. |
| `CMap.InsertMap` | apps/boutique/sure/common/cstl/src/c_map.c:43-49 | Inserting never overwrites; 501 without a map. |
| `CMap.ExistsMap` | apps/boutique/sure/common/cstl/src/c_map.c:50-63 | True exactly if there is a map and the key is in it. |
| `CMap.RemoveMap` | apps/boutique/sure/common/cstl/src/c_map.c:64-85 | Takes the key out and frees its node; succeeds also for an absent key. |
| `CMap.FindMap` | apps/boutique/sure/common/cstl/src/c_map.c:86-101 | Found exactly if the key is in the map, with its value. |
| `CMap.Run` | apps/boutique/sure/common/cstl/src/c_map.c:29-101 | Any sequence of insertions, removals, searches and membership tests on a new map answers as the mathematical map does. |
| `CMap.LookupIs` | apps/boutique/sure/common/cstl/src/c_map.c:43-101 | After any operations a key is in the map exactly if some insertion is its first since it was last removed, and with the value of that insertion. |
| `CMap.AnswersAre` | apps/boutique/sure/common/cstl/src/c_map.c:43-101 | So every answer of a run is fixed by the operations before it: what a search finds, what a membership test says, and the codes 0 and 401. |
| `CMap.MapIterator.GetNext` | apps/boutique/sure/common/cstl/src/c_map.c:118-130 | Moves from one node to the next in order, from the last to null, and from null to the first. |
| `CMap.Iterate` | apps/boutique/sure/common/cstl/src/c_map.c:118-130 | Iterating a non-empty map visits every pair exactly once in increasing key order; iterating an empty one visits the sentinel. |
| `Layouts.LayoutIsUnique` | apps/boutique/sure/common/service/message.h:53-499 | The types of its fields alone decide the offsets, size and alignment of a structure. |
| `Layouts.SizesAreLayouts` | apps/boutique/sure/common/service/service.h:88-144 | The length of each command's message is the size of its body, computed field by field from `message.h` for x86-64, and of the header; every other command is unknown. |
| `Messages.HeaderReadsBack` | apps/boutique/sure/common/service/message.h:519-526 | An id and a command written into a header are read back from it, and the body stays. |
| `Messages.HeaderBytes` | apps/boutique/sure/common/service/message.h:519-526 | The id is the first four bytes and the command the next four, lowest byte first. |
| `Messages.ParseConserves` | apps/boutique/sure/common/service/service.h:88-144 | The greedy header-then-length parse loses no byte, and everything it emits is one whole message. |
| `Messages.ParseResumes` | apps/boutique/sure/common/service/service.h:161-236 | Parsing a stream may stop anywhere and go on from the unparsed rest with the same result. |
| `StreamTheory.StepKeeps` | apps/boutique/sure/common/service/service.h:161-236 | One step skips no byte and takes none twice; what is ready is one whole message, what is not is partial again. |
| `StreamTheory.StrictNeverLooks` | apps/boutique/sure/common/service/service.h:225-229 | As written, the length lookup for a header completed from several descriptors never happens. |
| `StreamTheory.NoProgress` | apps/boutique/sure/common/service/service.h:216-235 | A step on a non-empty descriptor takes no byte exactly when a full header without a length is pending, and then changes nothing. |
| `StreamTheory.DriveStep` | apps/boutique/sure/common/service/service_sync.h:36-76 | Each turn of the driver loop shortens the stream and keeps messages + pending + rest equal to it. |
| `StreamTheory.DriveIsParse` | apps/boutique/sure/common/service/service_sync.h:35-76 | For all fragments of all streams: a run that ends emits exactly the messages of the greedy parse and keeps exactly its unparsed rest; one that exits emits those before the unknown command; one that spins emits a prefix of them. |
| `StreamTheory.DriveResumes` | apps/boutique/sure/common/service/service_sync.h:35-76 | A run that comes to its end goes on with later fragments as if they had come at once. |
| `StreamTheory.FragmentsDoNotMatter` | apps/boutique/sure/common/service/service.h:216-235 | With `>=` at line 226, two ways of cutting one stream give the same run, which never spins, and exits exactly on a bad stream. |
| `StreamTheory.SpinsIff` | apps/boutique/sure/common/service/service.h:225-229 | As written, the loop spins exactly when a fragment ends inside a header and the stream goes on past that header. |
| `StreamTheory.SplitHeaderSpins` | apps/boutique/sure/common/service/service.h:225-229 | Two fragments, of four and five bytes, on which it spins. |
| `Reassembly.Pool.MoveData` | apps/boutique/sure/common/service/service.h:151-159 | Appends the first n bytes of one descriptor to another and drops them from the first; no other buffer changes. |
| `Reassembly.Pool.Receive` | apps/boutique/sure/common/service/service_sync.h:20-33 | A bulk comes in with buffers of its own, which get the next numbers; no other buffer changes. |
| `Reassembly.ProcessDesc` | apps/boutique/sure/common/service/service.h:161-236 | On shared-memory buffers, does exactly the turn on values (`Bulks.Turn`): which buffer is adopted, obtained, put back or, on the path of lines 189-199, forgotten, and when a copy would run past a buffer's end; touches only its own slot and, in memory, only the buffers of that turn. |
| `Bulks.WalkIsDrive` | apps/boutique/sure/common/service/service_sync.h:36-76 | Whatever the buffers, what a bulk sends is what the run on its bytes emits; an overrun or a reset cuts that short, a reset with the next of its messages still in the slot. |
| `Bulks.WalkBalances` | apps/boutique/sure/common/service/service.h:161-236 | However a bulk ends (read, exit, spin, overrun, reset), every buffer that was pending, received or obtained is in exactly one of: put, sent, forgotten, pending, unread. |
| `BulkLimits.LostIff` | apps/boutique/sure/common/service/service.h:189-199 | However a bulk ends, it has forgotten exactly the buffers, among those read by then, in which some message begins that shows its whole header, is not all there, and is too long for the room behind its beginning; a bulk read to its end or to an unknown command has no other such buffer. |
| `BulkLimits.OverrunsIff` | apps/boutique/sure/common/service/service.h:169-172 | A bulk runs past the end of a buffer exactly if the message pending before it outgrows its place, or a message whose header is split between descriptors (as written, the first such) does not fit behind where it begins. |
| `BulkLimits.SplitHeaderOverruns` | apps/boutique/sure/common/service/service.h:169-172 | Two descriptors, of four and five bytes, on which it does. |
| `BulkLimits.ShortBufferIsLost` | apps/boutique/sure/common/service/service.h:189-199 | One descriptor, a header at the end of its buffer, that is forgotten. |
| `SyncService.HandleSocket` | apps/boutique/sure/common/service/service_sync.h:35-80 | A whole bulk in memory is the walk on values, for every end; each message is answered once, in order, in its own buffer, with its own header and what the handler makes of it as the body; exactly the buffers put or sent are given up; buffers of other connections keep their bytes. If the peer is gone at some reply, that is the same walk cut there; the whole bulk is given up; the slot keeps the request, and its buffer is owned exactly if it is not of the bulk, with that reply in it; and which buffers are given back twice is stated from the lengths of the descriptors. |
| `Resets.WalkCut` | apps/boutique/sure/common/service/service_sync.h:52-64 | A peer that is gone at some reply cuts the walk there and changes nothing before; one that is gone later changes nothing. |
| `Resets.ReadByThen` | apps/boutique/sure/common/service/service_sync.h:52-64 | The descriptors read to their end by a reset are exactly those that end with the failing request or before. |
| `Resets.TwiceIff` | apps/boutique/sure/common/service/service_sync.h:52-64 | A reset gives back twice exactly the buffers of those descriptors, except the one the request is in and those in which a message is too tight. |
| `Resets.SentIsGivenBack` | apps/boutique/sure/common/service/service_sync.h:52-64 | Two descriptors with a request each, on which the buffer sent with the first reply is given back as well. |
| `Resets.OneRequestIsClean` | apps/boutique/sure/common/service/service_sync.h:52-64 | One descriptor with one request, on which nothing is, though the slot keeps pointing to the buffer. |
| `SyncService.ReplyEchoes` | apps/boutique/sure/common/service/service_sync.h:50-52 | A reply carries the id, command and length of its request, so the caller's size check (service_async.h:402-408) passes, and its body is what the handler makes of the request. |
| `SyncService.Answer` | apps/boutique/sure/common/service/service_sync.h:38-71 | The size check passes; the reply, in the same buffer, has the header of the request and the body the handler makes of it; the slot is cleared, unless the sending fails. |
| `SyncService.TurnKeeps` | apps/boutique/sure/common/service/service_sync.h:36-76 | Every turn whose reply finds its peer keeps what is done plus what is to do equal to the whole walk, the owned buffers exact and foreign ones untouched, and shortens the bulk. |
| `Stations.Service.Handle` | apps/boutique/sure/common/service/service_sync.h:115-124 | A bulk on the connection in any slot of the table, also one whose peer is gone at some reply, is one step of the life on values; the partial messages in all other slots are as they were. |
| `Stations.Service.Live` | apps/boutique/sure/common/service/service_sync.h:115-124 | So is any sequence of bulks in any slots, resets included, until the process ends or a bulk comes in a slot that a reset left with a request in it. |
| `Stations.LifeBalances` | apps/boutique/sure/common/service/service.h:161-236 | Over every such life, however it ends, no buffer ever received or obtained goes missing: each is put, sent, forgotten, pending in a slot, or unread. Each is in exactly one of these places, once, exactly if at every reset each descriptor read by then has a message that is too tight. |
| `Stations.EveryBufferIsInOnePlace` | apps/boutique/sure/common/service/service.h:161-236 | In particular from the start of the service. |
| `Stations.PatientPeers` | apps/boutique/sure/common/service/service_sync.h:52-64 | That condition holds if every peer waits for its replies. |
| `Stations.ConnectionsDoNotMix` | apps/boutique/sure/common/service/service_sync.h:115-124 | Whatever arrives on other connections, and even if their peers are gone: what is answered on one whose peer stays, and what is pending there, is what the run on the bytes that arrived there comes to. |
| `Stations.LosesNothingIff` | apps/boutique/sure/common/service/service.h:189-199 | A life, however it ends, forgets no buffer for good exactly if no message is too tight in a descriptor that is read to its end in a bulk without a reset. |
| `Coroutines.NewPoolOk` | apps/boutique/sure/common/service/service_async.h:252-262 | At the start the free stack holds every coroutine once. |
| `Coroutines.StartOk` | apps/boutique/sure/common/service/service_async.h:203-228 | Starting a request keeps the free stack free of duplicates and exactly the complement of the suspended coroutines; a request that makes no call leaves the pool as it was. |
| `Coroutines.ResumeOk` | apps/boutique/sure/common/service/service_async.h:95-114 | So does resuming a suspended coroutine, which was not on the stack. |
| `Coroutines.NoneFree` | apps/boutique/sure/common/service/service_async.h:170-176 | The stack is empty exactly when every coroutine is suspended. |
| `Coroutines.BulkExits` | apps/boutique/sure/common/service/service_async.h:193-200 | The process exits exactly if requests of one bulk use up the free coroutines and a byte follows them; else the bulk costs one coroutine for each request that suspends. |
| `Coroutines.LargeBulkExits` | apps/boutique/sure/common/service/service_async.h:193-200 | A bulk of thirty-three requests on which a fresh process exits. |
| `Coroutines.EachGoesOut` | apps/boutique/sure/common/service/service_async.h:202-227 | For each request of a bulk, in their order, there goes out either the reply to its own connection and id, or its handler's first call, from a coroutine that was free and now waits for that service with the rest to do. |
| `AsyncService.ReadsRequests` | apps/boutique/sure/common/service/service_async.h:193-233 | The upstream loop on the bytes of a bulk is the pool's account of exactly the requests the reassembly finds in them, with the ids their bytes carry; a byte follows them if the bulk ends inside a message. |
| `AsyncService.OneRequest` | apps/boutique/sure/common/service/service_async.h:203-228 | For a bulk of one request: what goes out is the first call of its handler, from the coroutine on top of the stack, or the reply to that connection under the number in its first four bytes. |
| `AsyncService.ReadsReplies` | apps/boutique/sure/common/service/service_async.h:90-119 | The downstream loop on the bytes of a bulk resumes, in order, the coroutines named by the ids in the replies found in them, and gives each that reply, which is one whole message. |
| `AsyncService.OneReply` | apps/boutique/sure/common/service/service_async.h:96-114 | A bulk of one reply whose first bytes are c, 0, 0, 0 resumes coroutine c and hands it that reply. |
| `AsyncService.EachGetsItsReply` | apps/boutique/sure/common/service/service_async.h:96-114 | Each reply of a bulk, in their order, is handed to the coroutine it names, which goes on with its own next call or its own reply. |
| `AsyncService.Runtime.constructor` | apps/boutique/sure/common/service/service_async.h:249-262 | The arrays hold the new pool. |
| `AsyncService.Runtime.RunCoroutine` | apps/boutique/sure/common/service/service_async.h:39-73 | Until it yields, the coroutine sends its next call under its own id and waits, or sends its reply to its own connection, frees itself on top of the stack and lifts the back-pressure if the stack was empty. |
| `AsyncService.Runtime.HandleUpstream` | apps/boutique/sure/common/service/service_async.h:166-238 | Refused exactly without a free coroutine, and then reception is disabled; closed, and nothing changed, exactly if there is one and the peer has closed the connection; otherwise the loop on the bytes of the bulk, in place. |
| `AsyncService.Runtime.HandleDownstream` | apps/boutique/sure/common/service/service_async.h:75-122 | The downstream loop on the bytes of the bulk, in place; an id out of range exits, and a reply to a coroutine that does not wait is told apart. |
| `Handovers.RequestsInBuffers` | apps/boutique/sure/common/service/service_async.h:202-227 | The requests that coroutines are started with are those that `process_desc` gathers, in its buffers and its order, unless a copy overruns. |
| `Handovers.RepliesInBuffers` | apps/boutique/sure/common/service/service_async.h:91-114 | So are the replies that coroutines are resumed with. |
| `Handovers.HandedOnce` | apps/boutique/sure/common/service/service_async.h:202-227 | No buffer is handed to two coroutines, and none that is handed over is given back, forgotten, pending or read on. |
| `ServiceSystem.DependenciesGoDown` | apps/boutique/sure/checkoutservice/main.c:16-23 | Every service waits only for services with smaller ids (with the lists of the frontend and of recommendation). |
| `ServiceSystem.MessageIsAwaited` | apps/boutique/sure/common/service/service_async.h:382-409 | In every reachable state each request from and each reply to a coroutine belongs to one that waits for the very service at the other end. |
| `ServiceSystem.WaitsForOneThing` | apps/boutique/sure/common/service/service_async.h:382-409 | Each waiting coroutine has exactly one outstanding call, which is in transit or being served, at a service with a smaller id. |
| `ServiceSystem.IdsAreDistinct` | apps/boutique/sure/common/service/service_async.h:90-119 | The ids in transit for one service are pairwise distinct. |
| `ServiceSystem.HandleConserves` | apps/boutique/sure/common/service/service_async.h:39-119 | Handling a message conserves obligations: in transit or held, plus answered, equals awaited plus arrived. |
| `ServiceSystem.HandleSpends` | apps/boutique/sure/common/service/service_async.h:39-119 | Whatever is counted (all messages, or the requests to one service): handling a message takes exactly that message off what is still due in plans, on the way and in coroutines; a refusal takes off nothing. So every call of every plan is still made. |
| `ServiceSystem.AcceptedSends` | apps/boutique/sure/common/service/service_async.h:203-228 | A request that is taken sends its handler's first call, under the id of the coroutine on top of the stack, which waits for it; or at once the reply. |
| `ServiceSystem.ResumedSends` | apps/boutique/sure/common/service/service_async.h:95-114 | A coroutine that is resumed sends its next call under its own id; the reply goes out exactly at the end of its plan, to the request it was started for. |
| `ServiceSystem.FirstCallGoesOut` | apps/boutique/sure/common/service/service_async.h:39-73 | The first request of a browser to a handler that calls a service: that call goes out, under id 31, and no reply does. |
| `ServiceSystem.HandleKeeps` | apps/boutique/sure/common/service/service_async.h:313-357 | Every step of a service keeps the whole invariant, pools included. |
| `ServiceSystem.ArriveKeeps` | apps/boutique/sure/common/service/service_async.h:359-378 | So does every request from a browser. |
| `ServiceSystem.AnsweredAtMostOnce` | apps/boutique/sure/common/service/service_async.h:46-65 | No request is answered twice, and nothing is answered that did not arrive. |
| `ServiceSystem.TakenOrBlocked` | apps/boutique/sure/common/service/service_async.h:170-176 | A message is stuck only in front of a service that has disabled reception; replies never are. |
| `ServiceSystem.ObligationProgress` | apps/boutique/sure/common/service/service_async.h:60-69 | From every open obligation some message can be taken, at that service or one with a smaller id. |
| `ServiceSystem.Progress` | apps/boutique/sure/common/service/service_async.h:313-357 | No deadlock: in every reachable state with a request unanswered some service can take a message, even with full pools. |
| `ServiceSystem.HandleDecreases` | apps/boutique/sure/common/service/service_async.h:313-357 | Every message handled lowers a measure, refusals included. |
| `ServiceSystem.QuiescentIsDone` | apps/boutique/sure/common/service/service_async.h:313-357 | Where no service can go on, all coroutines are free, nothing is in transit and the requests answered are those that arrived. |
| `SystemRuns.FreeCoroutine` | apps/boutique/sure/common/service/service_async.h:170-176 | A request on its way to recommendation or checkout always finds a free coroutine there. |
| `SystemRuns.BulksNeverExit` | apps/boutique/sure/common/service/service_async.h:193-200 | So no bulk of these two ends the process, whatever its size and even if it ends inside a request; it leaves what its requests leave one by one. |
| `SystemRuns.OnlyFrontendRefuses` | apps/boutique/sure/common/service/service_async.h:170-176 | In every run no service but the frontend is ever held back. |
| `SystemRuns.RunsAreBounded` | apps/boutique/sure/common/service/service_async.h:313-357 | Without new arrivals every run, bulks included, ends within the measure of its first state. |
| `SystemRuns.RunSpends` | apps/boutique/sure/common/service/service_async.h:313-357 | Over every run, for each service: the requests it has handled and those still due are those that the arrivals ask for, directly or through the calls of their plans. |
| `Deliveries.FirstReply` | apps/boutique/sure/common/service/service_async.h:90-114 | In every reachable state the oldest reply on each channel is awaited by the coroutine whose id it carries; resuming that one takes exactly that id off the channel. |
| `Deliveries.EveryReplyIsAwaited` | apps/boutique/sure/common/service/service_async.h:90-114 | In every run, a bulk whose replies carry the ids next in transit resumes coroutines that wait, each with its own reply: the receive loop meets no invalid id and none that does not wait, and leaves the coroutines as handling those replies one by one does. |
| `Deliveries.CallComesBack` | apps/boutique/sure/common/service/service_async.h:382-409 | The id a coroutine writes into its request comes back in the reply of a synchronous service, which, read as a bulk, resumes that very coroutine with what the handler wrote. |
| `SystemRuns.EveryRequestIsAnswered` | apps/boutique/sure/common/service/service_async.h:313-357 | Over every run in every order and in bulks of every size: only the frontend is held back, and when no service can go on, every request that arrived has been answered exactly once, each service has handled exactly as many requests as the plans of those that arrived call for, all coroutines are free and nothing is in transit. |
| `Handlers.HandlersOk` | apps/boutique/sure/frontend/main.c:137-487 | The calls that every page of the frontend leads to, with those made for them by checkout and recommendation, go only to services the caller is connected to. |
| `Handlers.CheckoutAsks` | apps/boutique/sure/checkoutservice/main.c:16-23 | Checkout is connected to exactly the services that an order of at least one item asks. |
| `Handlers.FrontendAsks` | apps/boutique/sure/frontend/main.c:37-45 | The frontend is connected to exactly the services that some page asks. |
| `Handlers.RecommendationAsks` | apps/boutique/sure/recommendationservice/main.c:15-17 | Recommendation is connected to exactly the service it asks. |
| `Handlers.OrderGoes` | apps/boutique/sure/checkoutservice/main.c:111-262 | Placing an order asks, in this order: the cart; product and price of each item; shipping quote and its price; the charge; the shipment; the emptied cart; the mail. |
| `Handlers.OrderAsks` | apps/boutique/sure/checkoutservice/main.c:211-262 | An order of n items asks payment and mail once, shipping and cart twice, the catalogue n times, the currency service n + 1 times, and nobody else. |
| `Handlers.EveryOrderIsChargedOnce` | apps/boutique/sure/checkoutservice/main.c:211-262 | In every run of pages: when no service can go on, payment has handled one request for each order that arrived, and mail one, and neither any other. |
| `SocketTable.StepKeeps` | apps/boutique/sure/common/service/service_async.h:330-378 | Sockets stay distinct and in order, and the dependencies keep their slots; a removal takes out exactly one socket, and its flag with it. |
| `SocketTable.RunKeeps` | apps/boutique/sure/common/service/service_async.h:313-379 | So it is over every run. |
| `SocketTable.RemovalMisfiles` | apps/boutique/sure/common/service/service_async.h:339-344 | After a removal each survivor has its own partial message exactly if the partial messages from that slot on were all equal. |
| `SocketTable.StepIsFaithful` | apps/boutique/sure/common/service/service_async.h:339-344 | Each connection keeps its own bytes and the next one starts with none exactly if nothing was pending from the removed slot on. |
| `SocketTable.FaithfulIffQuiet` | apps/boutique/sure/common/service/service_async.h:313-379 | A run never misfiles bytes exactly if each of its removals happens while nothing from its slot on is pending. |
| `SocketTable.BytesGoAstray` | apps/boutique/sure/common/service/service_sync.h:130-134 | A table on which closing one connection takes another one's bytes away. |
| `Connections.EachKeepsItsOwnRest` | apps/boutique/sure/common/service/service_async.h:313-379 | Over every run with such removals each slot holds exactly the unparsed rest of all that its own connection ever sent. |
| `SocketTable.ScanIsRun` | apps/boutique/sure/common/service/service_async.h:330-357 | A poll round is a run. |
| `SocketTable.ScanVisitsOnce` | apps/boutique/sure/common/service/service_async.h:330-357 | A round visits slots in increasing order, so each socket at most once. |
| `SocketTable.ScanIsRound` | apps/boutique/sure/common/service/service_async.h:330-357 | What a round does with which sockets is fixed by the sockets and flags at its start: each is judged by its own flag, also behind a removal. |
| `SocketTable.RoundIsReady` | apps/boutique/sure/common/service/service_async.h:330-357 | A round reads or closes only sockets that were ready when it began. |
| `SocketTable.RoundIsComplete` | apps/boutique/sure/common/service/service_async.h:330-357 | Every socket that was ready is read or closed, unless the one before it was closed in this round, or coroutines ran out at it or before. |
| `SocketTable.NextIsPassedOver` | apps/boutique/sure/common/service/service_async.h:335-345 | The socket after a closed one takes its slot and is passed over in this round. |
| `SocketTable.PollTable.constructor` | apps/boutique/sure/common/service/service_async.h:264-311 | The listening socket, the dependencies in order, and nothing pending. |
| `SocketTable.PollTable.Remove` | apps/boutique/sure/common/service/service_async.h:339-344 | The shifting loop takes out one socket and its flag, moves those behind up, and does not move the partial messages. |
| `SocketTable.PollTable.HandleUpstreams` | apps/boutique/sure/common/service/service_async.h:330-357 | The loop in place is the scan, and does with the sockets what the round says; nothing while reception is disabled; dependencies stay. |
| `SocketTable.PollTable.Accept` | apps/boutique/sure/common/service/service_async.h:359-378 | A new connection goes to the end; the process exits exactly on a full table. |
| `Deque.ClibDeque.constructor` | apps/boutique/sure/common/cstl/src/c_deque.c:51-71 | Empty, with room for at least eight. |
| `Deque.ClibDeque.Recentre` | apps/boutique/sure/common/cstl/src/c_deque.c:92-100 | Growing at the front moves exactly the live elements, in bounds, although one slot more is copied. |
| `Deque.ClibDeque.PushBack` | apps/boutique/sure/common/cstl/src/c_deque.c:72-84 | Appends; the capacity doubles exactly when the end is reached. |
| `Deque.ClibDeque.PushFront` | apps/boutique/sure/common/cstl/src/c_deque.c:85-104 | Prepends; the capacity doubles exactly when the front is reached. |
| `Deque.ClibDeque.PopBack` | apps/boutique/sure/common/cstl/src/c_deque.c:122-138 | Takes the last element off and destroys it. |
| `Deque.ClibDeque.PopFront` | apps/boutique/sure/common/cstl/src/c_deque.c:140-157 | Takes the first element off and destroys it. |
| `Deque.ClibDeque.Front` | apps/boutique/sure/common/cstl/src/c_deque.c:106-112 | The first element. |
| `Deque.ClibDeque.Back` | apps/boutique/sure/common/cstl/src/c_deque.c:114-120 | The last element. |
| `Deque.ClibDeque.Empty` | apps/boutique/sure/common/cstl/src/c_deque.c:158-164 | True exactly if there are no elements. |
| `Deque.ClibDeque.Size` | apps/boutique/sure/common/cstl/src/c_deque.c:165-171 | One less than the number of elements. |
| `Deque.ClibDeque.Delete` | apps/boutique/sure/common/cstl/src/c_deque.c:184-206 | Destroys every element once, first to last. |
| `Deque.ClibDeque.Run` | apps/boutique/sure/common/cstl/src/c_deque.c:72-157 | Every run of pushes and pops that pops nothing from an empty deque leaves the sequence it should. |
| `Deque.PushedBack` | apps/boutique/sure/common/cstl/src/c_deque.c:72-84 | Elements pushed at the back stand there in the order they were pushed. |
| `Deque.PushedFront` | apps/boutique/sure/common/cstl/src/c_deque.c:85-104 | Those pushed at the front stand in reverse, before what there was. |
| `Deque.PoppedFront` | apps/boutique/sure/common/cstl/src/c_deque.c:140-157 | Popping n at the front leaves all but the first n: a deque is a queue. |
| `Deque.PoppedBack` | apps/boutique/sure/common/cstl/src/c_deque.c:122-138 | Popping n at the back leaves all but the last n: it is a stack. |
| `Deque.DequeIterator.GetNext` | apps/boutique/sure/common/cstl/src/c_deque.c:208-218 | Gives the next element, then none for ever. |
| `Deque.DequeIterator.ReplaceValue` | apps/boutique/sure/common/cstl/src/c_deque.c:226-235 | Overwrites the element given last and no other. |
| `Deque.Iterate` | apps/boutique/sure/common/cstl/src/c_deque.c:208-246 | A full iteration gives the contents in order. |
| `Luhn.GetDigits` | apps/boutique/sure/paymentservice/main.c:16-19 | One less than the number of digits of a positive number (with an exact logarithm); anything below one. |
| `Luhn.NextDigit` | apps/boutique/sure/paymentservice/main.c:33-45 | One turn adds the next digit's contribution to the Luhn sum and drops that digit. |
| `Luhn.SumByPairs` | apps/boutique/sure/paymentservice/main.c:33-45 | The sum in numbers: of the last two digits the one before the last counts as the digits of its double, and all before them as on their own. |
| `Luhn.CreditcardValidator` | apps/boutique/sure/paymentservice/main.c:25-66 | Gives each type exactly for numbers of any length that pass the formula of Annex B of ISO/IEC 7812-1 and have that type's length and leading digits; numbers below one are invalid, whatever their logarithm is taken to be. |
| `Luhn.AmexIs` | apps/boutique/sure/paymentservice/main.c:48-50 | American Express numbers, as intervals. |
| `Luhn.MastercardIs` | apps/boutique/sure/paymentservice/main.c:51-54 | MasterCard numbers, as intervals. |
| `Luhn.VisaIs` | apps/boutique/sure/paymentservice/main.c:55-57 | Visa numbers, as intervals. |
| `Luhn.SingleErrorIsDetected` | apps/boutique/sure/paymentservice/main.c:33-47 | Changing any one digit of a card number that passes makes it fail. |
| `Luhn.SwapIsDetected` | apps/boutique/sure/paymentservice/main.c:33-47 | Swapping two neighbours of a passing number goes unnoticed exactly if they are equal or 0 and 9. |
| `Luhn.TwinErrorIsDetected` | apps/boutique/sure/paymentservice/main.c:33-47 | Replacing two equal neighbours by another such pair goes unnoticed exactly for 22/55, 33/66, 44/77. |
| `Luhn.CheckDigit` | apps/boutique/sure/paymentservice/main.c:33-47 | For every payload exactly one check digit passes, and which. |
| `Luhn.DigitsOfFrom` | apps/boutique/sure/paymentservice/main.c:33-45 | The digits of a number written with leading zeros are those digits without them. |
| `Luhn.FromDigitsOf` | apps/boutique/sure/paymentservice/main.c:33-45 | The digits of a number determine it. |
| `Luhn.ChargeRR.Charge` | apps/boutique/sure/paymentservice/main.c:68-116 | A transaction id is written exactly for a valid Visa or MasterCard that has not expired by May 2022; otherwise the message is unchanged. |
| `Luhn.AcceptedIs` | apps/boutique/sure/paymentservice/main.c:68-116 | Which cards are charged, in numbers: the intervals of Visa and MasterCard, and from May 2022 on. |
| `Money.MoneySum` | apps/boutique/sure/common/service/utilities.h:12-33 | Adds in place, conserving units * 10^9 + nanos, also when both arguments are one object. |
| `Money.PlusIsNormal` | apps/boutique/sure/common/service/message.h:132-137 | The sum of normal amounts is normal unless the units cancel and the nanos make neither zero nor a whole unit. |
| `Money.PlusOverflows` | apps/boutique/sure/common/service/utilities.h:28-31 | For normal amounts the 32-bit nanos overflow exactly if the units cancel and the nanos are too far below zero. |
| `Money.PricesAreClosed` | apps/boutique/sure/common/service/utilities.h:12-33 | Amounts that are not negative are closed under addition without overflow of the nanos. |
| `Money.NotNormal` | apps/boutique/sure/common/service/utilities.h:28-31 | Concrete sums that are not normal, and that overflow. |
| `Money.MoneyMultiplySlow` | apps/boutique/sure/common/service/utilities.h:35-41 | Multiplies the value by 2^(n-1), for every n from one on; nothing changes for n = 0. |
| `Money.MultipliesIff` | apps/boutique/sure/common/service/utilities.h:35-41 | Multiplies by n exactly if n is 1 or 2 or the amount is nothing. |
| `Money.ThreeForFour` | apps/boutique/sure/common/service/utilities.h:35-41 | One unit ordered three times is charged as four. |
| `Money.PlaceOrder` | apps/boutique/sure/checkoutservice/main.c:236-245 | The amount charged is, in value, shipping plus each price times 2^(quantity-1), or once for a quantity of zero. |
| `Money.TotalPaid` | apps/boutique/sure/frontend/main.c:474-480 | So is the frontend's total. |
| `Money.TotalsAgree` | apps/boutique/sure/frontend/main.c:474-480 | Both totals of every order agree in value. |
| `Money.TotalsAreTheSame` | apps/boutique/sure/checkoutservice/main.c:237-240 | They are the same units and nanos for every order exactly if a normal shipping cost has units or is nothing. |
| `Money.TotalsDifferIff` | apps/boutique/sure/checkoutservice/main.c:237-245 | For one order of prices they differ in form exactly if the shipping cost is below one unit and every line keeps the two forms apart. |
| `Money.ApartIsSmall` | apps/boutique/sure/checkoutservice/main.c:237-245 | If all line amounts are normal, that is exactly a total below one unit. |
| `Money.ChargesRightIff` | apps/boutique/sure/checkoutservice/main.c:241-245 | Of prices, never too little is charged, and quantity times price exactly if every item is ordered once or twice or is free. |
| `Money.OrderFits` | apps/boutique/sure/checkoutservice/main.c:236-245 | Of prices, no addition overflows in either service while the total is at most 2^63 - 2 units. |
| `Money.FittingIsBounded` | apps/boutique/sure/checkoutservice/main.c:236-245 | Conversely, if none does, the total is below 2^63 units. |
| `Money.SeventyOverflow` | apps/boutique/sure/common/service/utilities.h:35-41 | One unit ordered seventy times overflows. |

## Left out

- RedBlackTree.RbTree.Insert: does not model a failing `malloc`, nor a null value pointer; keys and values are immutable values of arbitrary types, without `memcpy` and destructors.
- RedBlackTree.RbTree.Remove: the comparator is a total order that answers 0 on equal keys only; two distinct keys that compare equal are not modelled.
- RedBlackTree.RbTree.InsertFixup: its loop body, like that of the removal loop, is split into methods, one for each case; nodes are cells of an address map rather than objects.
- RedBlackTree.RbTree.DebugVerify: a failing `assert` is the answer false; property 1, that a colour is red or black, holds by type.
- RedBlackTeardown.Delete: destructors are a log of the nodes they are called for; nodes leaked by duplicate insertions stay allocated; freeing the tree's own header is not modelled.
- CMap.MapIterator.GetNext: the position in order is a ghost argument; changing a map while it is iterated, and `replace_value_c_map`, are not modelled.
- SyncService.HandleSocket: a failing receive has no effect but closing the connection, or ends the process, and is not modelled; nor is a send that fails otherwise than by a reset, which ends the process. A handler is any function that rewrites the body of a message and keeps its size, and does not end the process on a command of another service. A spinning loop is an outcome, because it has no next state to speak of, and nothing is done after an overrun.
- Stations.Service.Handle: is about slots of the table; which connection is in one, and what closing and accepting do to that, is `SocketTable.PollTable`.
- Stations.Service.Live: ends at the first bulk in a slot that a reset left with a request in it. What becomes of that request, which the next connection in the slot is answered with although its buffer may have been given back, is not modelled.
- Reassembly.ProcessDesc: descriptors are not empty, buffers are numbered in the order they are obtained or received, and a pool that runs out is not modelled; `get_rpc_size` ending the process is an outcome.
- Layouts.SizesAreLayouts: the sizes and alignments of `char`, `int` and `int64_t` are those of x86-64.
- AsyncService.Runtime.HandleUpstream: works on the bytes of descriptors, with the step of `StreamTheory`; that `process_desc` does this step in shared memory is `Reassembly.ProcessDesc`. `handle_upstream_http`, one request for each bulk, is the case of one request.
- AsyncService.Runtime.HandleDownstream: nothing is claimed of the state once a reply names a coroutine that does not wait; that none ever does is `Deliveries.EveryReplyIsAwaited`.
- Handovers.HandedOnce: what a coroutine does with a buffer once it has it, and which buffer it sends its calls in, depends on the handler and is not modelled.
- Deliveries.EveryReplyIsAwaited: takes as given that the replies in a bulk carry the ids of the messages next in transit, which the caller writes and the callee keeps (for a synchronous callee, `Deliveries.CallComesBack`).
- ServiceSystem.Progress: channels are unbounded and first in, first out. What a handler calls is a plan fixed when the request is sent, any plan over the service's dependencies, so every dependence on replies is covered by some plan; those of the actual handlers are in `Handlers`.
- Handlers.EveryOrderIsChargedOnce: counts requests; that payment refuses a card is `Luhn.ChargeRR.Charge`, and checkout goes on with the order all the same. The number of products or cart items in a page is taken as known; a malformed form, an unknown page, and the pages that ask nobody, are `NoCalls`.
- SystemRuns.EveryRequestIsAnswered: is about runs that reach a state where no service can go on, which every run does once requests stop arriving (`SystemRuns.RunsAreBounded`); fairness under endless arrivals is not modelled. Only recommendation and checkout are given bulks: the frontend reads one request at a time, and a synchronous service answers the requests of a bulk one by one.
- SocketTable.PollTable.HandleUpstreams: what arrives on a socket during one round is a function of the socket; reading on downstream sockets is the same event as on upstream ones.
- Deque.ClibDeque.PopBack: popping from an empty deque, which the code does not guard, is a precondition, as it is for the other pop and for front and back; null deques, failing allocation and the 32-bit width of the indices are not modelled.
- Luhn.GetDigits: takes the logarithm of a positive number as exact; just below a power of ten `log10` rounds up, which adds a leading zero to the count.
- Luhn.ChargeRR.Charge: takes the value that `strtoll` reads, and year and month without the 32-bit overflow of `year * 12 + month`.
- Money.MoneySum: computes on unbounded integers; where the fixed-width ones agree is `Money.PlusOverflows`, `Money.PricesAreClosed`, `Money.OrderFits` and `Money.FittingIsBounded`. Currency codes are not modelled.
- Money.PlusOverflows: takes the 64-bit units as fitting; `Money.OrderFits` and `Money.FittingIsBounded` bound the totals under which they do.
- `c_set.c`, `c_array.c`, `c_slist.c`: the set repeats the map without values, the other two add only easy members.
- unimsg sockets, `poll`, shared-memory allocation and libaco: they appear as channels, a ledger of buffers, and atomic resume and yield steps.
- cartservice, currencyservice, adservice, emailservice, shippingservice, productcatalogservice, recommendationservice: the bodies of their handlers are fixed tables, string copies and floating point.
- HTTP parsing in the frontend, the benchmark applications, drivers, scripts and configuration.
