# OpenHT: models and proofs

OpenHT lets an application on a host work with a coprocessor, and translates SystemC modules to
Verilog.  This project models the parts of it in which correctness is hardest to see, and proves
what they are meant to do.  `dafny verify dfyconfig.toml` checks everything.

## Contents

* **Host/coprocessor interface** (`Hif*.dfy`).  Two units share two rings of control messages,
  in which a valid bit says who owns a slot, and two arrays of data blocks.  Blocks go to the other
  side with RDY messages and come back with AVL messages; timer threads hand half-filled blocks
  over at any moment.  `HifProtocol` is the whole system as a state machine: an action is what one
  thread does while it holds a unit's lock, except that every copy of a message into a slot is an
  action of its own; an application whose call waits does nothing else meanwhile.  `HifSafety` is the
  invariant, `HifRuns` what follows for all runs, `HifDelivery` that everything can be delivered,
  `HifDeadlock` when units block each other, and `HifRoom` when no call waits.  The coprocessor's unit
  is told by the first messages where its blocks are; `HifNotes` is about these messages, and `HifSetup`
  about an application that uses a block before they were received.
  `HifCalls` shows that the public calls are made of these actions, and `HifStreams` says what each call
  sends or receives in terms of the messages and credits on their way alone.  `HifUnit`, on top of
  `HifMessages` (64-bit words) and `HifQueue`, is the object that both libraries keep, with its
  arrays and loops.
* **Statement lists** (`StmtTree.dfy`, `StmtRewrite.dfy`).  The passes of the SystemC front end that
  remove embedded `return` and `break` statements by moving the rest of a list into both
  branches of an `if`: as a function on trees with its meaning, and in place on linked nodes,
  where the moved part is shared by both branches.
* **Memory models** (`Bank*.dfy`, `Slot*.dfy`).  Ports that share queues of 1024 memory banks
  and of the host, and the simpler model that answers a random slot in each clock: state machines,
  what every step keeps, that all requests can finish (`*Drain.dfy`) and do finish under every fair
  schedule (`*Fair.dfy`), what comes out of a run in terms of what went in (`*Arrivals.dfy`), when and
  where a request is served (`*Rules.dfy`), and the objects.
* **Unrolling of loops** (`Loop*.dfy`).  The lexer records the tokens of a loop's body and plays them
  back with the values of the control variable.  `LoopUnroll` is that lexer, `LoopNest` statements with
  their text and their unrolling, `LoopBounds` the values in their headers, `LoopItems` the lists being
  played back as statements, and `LoopParser` the parser on top, which ends up with the program with
  all loops unrolled.  `LoopValues` says what that is in terms of the values of the control variables.
* **Constant expressions** (`ConstExpr.dfy`, `ConstGrammar.dfy`, `ConstParser.dfy`): the evaluator with its
  two stacks as a function, the grammar that it reads, and the parser that reads the tokens of an
  expression from the lexer, as in the headers of loops.
* **Front end pieces**: the log of edits of a line (`LinePos.dfy`), the intervals of write enables
  (`WePartition.dfy`).
* **Simulation pieces**: hardware queues against the registers emitted for them (`HtQueues.dfy`), the
  map of address ranges (`AddrRanges.dfy`), the memory trace (`MemTrace.dfy`), the layout of the host's
  memory (`HostMemory.dfy`).
* `Common.dfy`: what several of these use.

Objects that the sources update in place are classes here; a ghost field or function gives the value
that the specification speaks of.  Where the code does not do what one would expect, the exact
condition is a lemma: `HifSetup.SetUpIff` (a coprocessor that sends before it receives),
`HifDeadlock.DeadlockIff` (units that flood each other with user messages),
`HifDelivery.CallSafeIff` (arguments that fill a block), `HifMessages.UserMessageIff`
(user types above 127), `ConstExpr.ParseTaken` (the `!` operator), `HtQueues.BlockRunsAgreeIff` (a block
queue that is reset in use), `MemTrace.AddressBackIff` (address bits 6 to 8).

Some choices of the models:

* The control rings have 512 slots, the only size the coprocessor side supports.  Ring and block
  indices count without bound; the sources let them wrap at 32 bits, a multiple of every ring size.
* The runs of `HifProtocol` are those in which a unit uses blocks only after it was told of them, which
  the code leaves to the application.  `HifSetup.ProperRun` shows that they are just the code's runs
  with that condition, and `HifSetup.FirstReceive` that one receive call before the first send meets it.
* `HifUnit` runs each call on its own, except that a call that waits for an empty slot goes on when the
  other unit polls.  `HifRoom` shows that without user messages no call waits, and `HifDeadlock` with
  how many of them it may wait for ever.
* A statement node's kind and expression never change, so they are constants of the node.
* Times are integers: picoseconds in the memory models and the trace.
* A valid mask is the sequence of its bits.

## Model

| member | source | states |
|---|---|---|
| HifRuns.ReceivedIsPrefixOfSent | ht_lib/host/HtHifLib.cpp:929-1454 | in every state that any interleaving of the four threads reaches, in which the coprocessor uses blocks only after it was told of them, what each side has received is a prefix of what the other has sent: data, host messages that fit their bit fields, markers, calls with their arguments, halts |
| HifRuns.CreditsConserved | ht_lib/host/HtHifLib.cpp:1126-1151 | available blocks, blocks handed over and not handed back, and AVL messages on their way add up to the block count, in each direction; no count is negative |
| HifRuns.NoAssertionFires | ht_lib/host/HtHifLib.cpp:1337-1405 | the assertions hold at every step of every run: a block is started only with a credit, its position stays inside, and the arguments a call announces are next in the queue with that size; no block is filled, handed over or read before its address and size were received |
| HifRuns.UnreadBlocksKept | ht_lib/host/HtModelLib.cpp:566-640 | no step of any run, in which blocks are used only after the unit was told of them, changes a block that is handed over and not yet handed back |
| HifRuns.DrainedMeansDelivered | ht_lib/host/HtHifLib.cpp:1048-1064 | when rings and queues are empty all credits are home, and sent is received plus what the block being filled holds |
| HifRuns.MessagesBounded | ht_lib/host/HtHifLib.cpp:437-450 | for all accepted block counts, without user messages at most 134 control messages of the host and 128 of the coprocessor are unread, counting ring, queue and messages about to be written |
| HifRuns.NeverWaits | ht_lib/host/HtHifLib.cpp:1066-1084 | so no thread ever waits for an empty slot and no message queue is ever full |
| HifRuns.InitInv | ht_lib/host/HtHifLib.cpp:452-463 | the start, with the first messages of a new host unit in the ring, satisfies the invariant of both directions |
| HifRuns.RunKeepsInv | ht_lib/host/HtHifLib.cpp:1153-1277 | every run keeps the invariant of both directions as long as call arguments are smaller than a block |
| HifSetup.SetUpIff | ht_lib/host/HtModelLib.cpp:37-405 | the code with its block pointer, which the address message sets to the first block whatever block is in use: over all interleavings from a new pair of units, a run that never uses a block before the address and parameter messages were received has, throughout, all data in its block, and will deliver in order whatever follows; with user messages too few to fill the rings that holds if and only if |
| HifSetup.MisuseBreaks | ht_lib/host/HtModelLib.cpp:539-638 | wherever a run first uses a block too early, the threads can go on to where data was copied to an unknown place or the host has received what was not sent |
| HifSetup.MarkerFirstBreaks | ht_lib/host/HtModelLib.cpp:383-389 | from every new pair of units: five messages polled, a marker before any receive call, and then data, end in such a state |
| HifSetup.ProperRun | ht_lib/host/HtModelLib.cpp:569-638 | the runs without early use are just the runs of the protocol, and keep the pointer on the block in use |
| HifSetup.FirstReceive | ht_lib/host/HtModelLib.cpp:365-405 | in every reachable state any receive call of the coprocessor leaves its unit knowing all blocks |
| HifNotes.AnnouncedKept | ht_lib/host/HtHifLib.cpp:365-382 | whatever either unit does, the address and parameter messages that were not taken come before everything else, and come once |
| HifSafety.ActionKeepsInv | ht_lib/host/HtModelLib.cpp:289-363 | each single step of either unit keeps the invariant of both directions |
| HifSafety.DecodeAppend | ht_lib/host/HtHifLib.cpp:1370-1390 | the events a message stream stands for, given the blocks, compose when streams are appended |
| HifSafety.DecodeFrame | ht_lib/host/HtHifLib.cpp:1392-1405 | only the blocks that are handed over matter for the events on their way |
| HifSafety.SenderStep | ht_lib/host/HtHifLib.cpp:1329-1405 | handing messages over after writing only into blocks with a credit keeps credits and stream |
| HifSafety.TakeStep | ht_lib/host/HtModelLib.cpp:289-305 | taking the front message and handing its block back keeps credits and stream |
| HifSafety.DifferentBlocks | ht_lib/host/HtHifLib.cpp:1402-1404 | block indices less than a whole array apart name different blocks |
| HifSafety.CallBlock | ht_lib/host/HtHifLib.cpp:951-962 | a call whose arguments are smaller than a block leaves just the call message and one argument block |
| HifDelivery.EverythingCanBeDelivered | ht_lib/host/HtHifLib.cpp:1153-1277 | no deadlock and no loss: from every reachable state in which the blocks of both units are too few to fill up what unread user messages leave of the rings, some continuation by flushes of the timers, moves and receives delivers everything sent and brings all credits home |
| HifDelivery.MoveReduces | ht_lib/host/HtModelLib.cpp:333-363 | every step that moves a message along or receives it, or a part of it, reduces the work left |
| HifDelivery.PickEnabled | ht_lib/host/HtModelLib.cpp:365-515 | as long as anything is on its way some thread can move it, unless both units wait for room in a full ring; no thread that waits is asked to do anything else |
| HifDelivery.MovesEnd | ht_lib/host/HtHifLib.cpp:1153-1277 | whatever the threads do to move and receive, in whatever order, it ends after as many steps as there is work, and can end only when everything handed over has been received |
| HifDeadlock.DeadlockIff | ht_lib/host/HtHifLib.cpp:1066-1084 | two idle units, over all interleavings: runs with at most h user messages of the host and c of the coprocessor can end with no thread able to do anything if and only if the blocks of both units are enough to fill up both rings to one message too many |
| HifDeadlock.DeliveryIff | ht_lib/host/HtHifLib.cpp:1066-1151 | a new pair of units: all reachable states with at most h and c unread user messages and notes can deliver everything if and only if the blocks are too few for that |
| HifDeadlock.DeadWaits | ht_lib/host/HtHifLib.cpp:1071-1080 | nothing can go on only if both units wait for a slot and both applications are inside calls |
| HifDeadlock.WaitingCanDie | ht_lib/host/HtHifLib.cpp:1071-1080 | as soon as both units wait for a slot, the applications only have to call anything for nothing to go on |
| HifDeadlock.FloodsBlock | ht_lib/host/HtHifLib.cpp:725-734 | from every idle pair of units whose blocks and given numbers of user messages fill up both rings, a run with no more user messages leads to a state in which no thread of either unit can do anything |
| HifDelivery.FullBlockCallBreaks | ht_lib/host/HtHifLib.cpp:953-962 | a call or return of either side whose arguments fill a block is overtaken by them: a concrete run after which the receiver has data where the call was sent |
| HifDelivery.CallSafeIff | ht_lib/host/HtHifLib.cpp:929-968 | a call or return of either side from an idle state is delivered in order in all continuations if and only if its arguments are smaller than a block |
| HifCalls.ReachesKeeps | ht_lib/host/HtHifLib.cpp:929-1454 | whatever a call of a unit does is a sequence of protocol steps, with polls of the other unit where the call waits for room, so the invariant survives it whatever the other side holds |
| HifCalls.InvMeansReady | ht_lib/host/HtHifLib.cpp:1153-1277 | the protocol's invariant gives what the calls rely on |
| HifCalls.SendLoopReached | ht_lib/host/HtHifLib.cpp:1329-1368 | sending data is a sequence of protocol steps and leaves the unit ready |
| HifCalls.FlushReached | ht_lib/host/HtHifLib.cpp:587-592 | the timer's flush is a protocol step |
| HifCalls.UserReached | ht_lib/host/HtHifLib.cpp:725-734 | sending a host message is a sequence of protocol steps |
| HifCalls.ControlReached | ht_lib/host/HtHifLib.cpp:1280-1322 | sending a marker or the halt is a sequence of protocol steps |
| HifCalls.CallReached | ht_lib/host/HtHifLib.cpp:929-968 | sending a call or a return is a sequence of protocol steps |
| HifCalls.MsgLoopReached | ht_lib/host/HtHifLib.cpp:1153-1277 | the receive loop is a sequence of protocol steps |
| HifCalls.RecvLoopReached | ht_lib/host/HtHifLib.cpp:1427-1452 | receiving data is a sequence of protocol steps, and the returned data is what was received |
| HifCalls.UserRecvReached | ht_lib/host/HtHifLib.cpp:1032-1046 | receiving a host message is a sequence of protocol steps |
| HifCalls.MarkerRecvReached | ht_lib/host/HtHifLib.cpp:1416-1425 | receiving a marker is a sequence of protocol steps |
| HifCalls.CallRecvReached | ht_lib/host/HtModelLib.cpp:230-272 | receiving a call or a return is a sequence of protocol steps, and the returned arguments are the event received |
| HifCalls.MsgLoopReady | ht_lib/host/HtModelLib.cpp:365-515 | what the receive loop announces is what the front of the queue holds; a call is announced only with its arguments queued |
| HifStreams.KindAnnounced | ht_lib/host/HtModelLib.cpp:365-515 | said of the messages on their way, queue and ring together: the receive loop announces exactly the kind of the first message that is not a note, among as many as the queue has room for, and a call only with its arguments; polling and dropping notes is all it does besides, but for a halt, which it takes |
| HifStreams.NothingAnnounced | ht_lib/host/HtHifLib.cpp:1153-1162 | with nothing but notes on their way nothing is announced or received |
| HifStreams.UserReceived | ht_lib/host/HtHifLib.cpp:1032-1046 | a host message is returned if and only if the first message that is not a note is one; it is received with its type and data and leaves the stream, and otherwise nothing is received, but for a halt |
| HifStreams.MarkerReceived | ht_lib/host/HtHifLib.cpp:1416-1425 | a marker is returned if and only if it comes first and no data is left of the block being read; its block is handed back |
| HifStreams.CallReceived | ht_lib/host/HtHifLib.cpp:970-1030 | a call or return is returned if and only if it comes first and its arguments have come too; they are those in the block behind its own, and both blocks are handed back |
| HifStreams.DataReceived | ht_lib/host/HtHifLib.cpp:1427-1452 | what is returned is just the data at the start of the stream, across blocks and notes up to any other message, as much of it as is wanted |
| HifStreams.DataSent | ht_lib/host/HtHifLib.cpp:1329-1368 | exactly as many quadwords are sent as there is room for in the blocks whose credits the unit has or finds in its ring, those that come first, in order |
| HifStreams.PolledWhenShort | ht_lib/host/HtHifLib.cpp:1339-1346 | the ring is read just when the data needs more than the unit's own credits |
| HifStreams.ControlSent | ht_lib/host/HtHifLib.cpp:1280-1322 | true is returned if and only if a marker or halt was sent, which is if and only if a credit is left or found in the ring when the started block has gone; the messages written are that block's and then its own |
| HifStreams.CallSentOrNot | ht_lib/host/HtHifLib.cpp:929-968 | the same for a call with arguments smaller than a block and two credits; the arguments are in the block behind its own |
| HifStreams.UserSent | ht_lib/host/HtHifLib.cpp:725-734 | the messages written are the started block's and the user message |
| HifStreams.FlushSent | ht_lib/host/HtModelLib.cpp:604-624 | a flush hands the started block over and nothing else |
| HifStreams.LockHeld | ht_lib/host/HtModelLib.cpp:289-363 | while the timer's messages wait for slots the application can do just those steps of receiving that count no credit and hand no block back, as if none waited |
| HifStreams.WhoWaits | ht_lib/host/HtHifLib.cpp:1066-1084 | the application waits exactly as long as messages of its own call, or those it began to wait for, are not all written; a flush of the timer does not hold it up |
| HifRoom.ReadyWithRoom | ht_lib/host/HtHifLib.cpp:1066-1084 | in every state reachable without user messages, a unit between calls is ready for the next one, and its ring has room for whatever that sends |
| HifRoom.SendingNeverWaits | ht_lib/host/HtHifLib.cpp:1066-1084 | then sending data, flushing, markers, halts, calls and returns go through without waiting for a slot |
| HifRoom.ReceivingNeverWaits | ht_lib/host/HtHifLib.cpp:1048-1084 | then receiving data, markers, user messages, calls and returns goes through without waiting for a slot |
| HifMessages.WordFields | ht_lib/host/HtCtrlMsg.h:15-49 | type and data of a control word come back cut to 7 and 56 bits, and the word is valid |
| HifMessages.BlockMessages | ht_lib/host/HtHifLib.cpp:1380-1387 | the message that hands a block over is read back as the message it was, for every size up to 32 bits |
| HifMessages.Words | ht_lib/host/HtDefines.h:12-57 | the words in numbers: valid bit, type from bit 1 and data from bit 8 on; types 5, 6, 8 and 9 and the low bits 0, 1, 6 and 7 of a block message mean what the protocol says |
| HifMessages.UserMessageIff | ht_lib/host/HtHifLib.cpp:725-734 | a user message survives exactly when its type is below 128 and its data below 2 to the 56th |
| HifMessages.UserTypeTaken | ht_lib/host/HtCtrlMsg.h:39-47 | user type 133 arrives as one of the library's own block messages |
| HifQueue.CQueue.Push | ht_lib/host/HtPlatform.h:188-199 | an entry is added at the end of the contents, in a ring of which one slot stays free |
| HifQueue.CQueue.Pop | ht_lib/host/HtPlatform.h:163-169 | the first entry is removed |
| HifQueue.CQueue.IsFull | ht_lib/host/HtPlatform.h:183-186 | full means one entry less than slots, also across the wrap |
| HifQueue.CQueue.IsEmpty | ht_lib/host/HtPlatform.h:126-129 | equal positions mean no contents |
| HifUnit.Unit.constructor | ht_lib/host/HtModelLib.cpp:37-76 | a new unit; on the host the ring holds the address and parameter messages and one AVL message for each outbound block; the coprocessor's pointers are null |
| HifUnit.Start | ht_lib/host/HtModelLib.cpp:37-76 | a host unit and a coprocessor unit made on the same rings and blocks, with sizes and numbers that are powers of two, are a start of the protocol |
| HifUnit.Unit.SendMsgInternal | ht_lib/host/HtHifLib.cpp:1066-1084 | the loop waits for the next slot to be empty, which takes polls of the other unit when the ring is full; the word is then the last one in the ring |
| HifUnit.Unit.QueMsgs | ht_lib/host/HtHifLib.cpp:1126-1151 | the polling loop takes messages until the ring is empty or the queue full, counting AVL messages and clearing every slot it read |
| HifUnit.Unit.FlushBlk | ht_lib/host/HtHifLib.cpp:1370-1390 | a started block goes with its size; with a control code an empty block goes as marker or halt |
| HifUnit.Unit.SendData | ht_lib/host/HtHifLib.cpp:1329-1368 | the copying loop sends exactly what the sending function says, block by block at the pointer kept for them, polling when out of credits |
| HifUnit.Unit.SendHostMsg | ht_lib/host/HtModelLib.cpp:180-186 | a user message of any type and data goes, as the word that it makes, behind the data sent before it; when it fits its bit fields that is the message sent |
| HifUnit.Unit.SendControl | ht_lib/host/HtModelLib.cpp:517-559 | marker and halt take an empty block and move the pointer on, or nothing happens without a credit |
| HifUnit.Unit.SendCall | ht_lib/host/HtModelLib.cpp:194-228 | a call takes two credits and sends its message before its argument block |
| HifUnit.Unit.ReleaseBlk | ht_lib/host/HtHifLib.cpp:1048-1064 | a block that was read is handed back and reading moves to the next one |
| HifUnit.Unit.MsgLoop | ht_lib/host/HtHifLib.cpp:1153-1277 | messages are queued; addresses, sizes and numbers of blocks are taken from notes, others dropped; the front of the queue decides the result |
| HifUnit.Unit.TakeNote | ht_lib/host/HtModelLib.cpp:383-412 | a note at the front sets base and pointer, or size and number, of the blocks it tells about, which are those of the unit |
| HifUnit.Unit.RecvData | ht_lib/host/HtModelLib.cpp:662-681 | the receiving loop returns the data of the blocks in order and hands back each block it empties |
| HifUnit.Unit.RecvHostMsg | ht_lib/host/HtHifLib.cpp:1032-1046 | the front message is returned and removed when it is a user message |
| HifUnit.Unit.RecvHostDataMarker | ht_lib/host/HtModelLib.cpp:651-660 | a marker at the front is taken and its block handed back, but not while data is left |
| HifUnit.Unit.RecvCallArgs | ht_lib/host/HtHifLib.cpp:970-1030 | a call's own block and its argument block are taken together; as many quadwords as the caller asks for are copied, the announced arguments first |
| StmtTree.ReturnsPreserved | src/Htfe/HtfeParse.cpp:4015-4068 | for lists in which return only ends a list: after the pass, with return as a plain store, final state and returned value are those of the original with early exit, and every if holding a return is last in its list at every depth |
| StmtTree.BreaksPreserved | src/Htfe/HtfeParse.cpp:1618-1674 | for case lists in which break only ends a list: the pass keeps the final state from every state, no break is left inside an if, and at most one break is left, at the very end where there was one |
| StmtTree.ReturnsKept | src/Htfe/HtfeParse.cpp:4041-4068 | pushing a continuation into both branches means the same as running it afterwards unless the list was left |
| StmtTree.BreaksKept | src/Htfe/HtfeParse.cpp:1638-1674 | the same for breaks, which are removed where they were reached |
| StmtTree.NormalStores | src/Htfe/HtfeParse.cpp:4019-4024 | where every if holding a return is last, a return that does not leave the list changes nothing |
| StmtTree.NormalT | src/Htfe/HtfeParse.cpp:4046-4052 | the pass puts every if holding a return last, at every depth |
| StmtTree.NoExitT | src/Htfe/HtfeParse.cpp:1654-1674 | the pass leaves no break in the list it builds |
| StmtTree.LeadingKept | src/Htfe/HtfeParse.cpp:4030-4045 | what comes before the first if with an embedded exit is neither changed nor copied |
| StmtRewrite.TransformFunctionStatementListForReturns | src/Htfe/HtfeParse.cpp:4015-4053 | the pass on the linked nodes leaves exactly the transformed list in memory, starting at the same node, and terminates |
| StmtRewrite.TransformCaseStatementListToRemoveBreaks | src/Htfe/HtfeParse.cpp:1618-1659 | the break pass on the linked nodes leaves exactly the transformed case list in memory and terminates |
| StmtRewrite.Transform | src/Htfe/HtfeParse.cpp:1628-1658 | for a list ending in a shared, already transformed part: the result is in memory and every node of the shared part has the links it had before |
| StmtRewrite.TransformIf | src/Htfe/HtfeParse.cpp:4041-4052 | the if found takes what follows it into both branches, the last if first; in a shared list every link keeps its value |
| StmtRewrite.TransformIfList | src/Htfe/HtfeParse.cpp:4055-4068 | a branch gets the post list unless it ends in an exit, and is transformed itself; the shared nodes keep their links |
| StmtRewrite.AppendPost | src/Htfe/HtfeParse.cpp:1661-1672 | the pointer that ends a branch is set to the post list, or a break is cut off, and nothing else changes |
| StmtRewrite.CutOff | src/Htfe/HtfeParse.cpp:1641-1651 | the break that ends a case is found and cut off, without changing shared nodes |
| StmtRewrite.FindIf | src/Htfe/HtfeParse.cpp:4030-4045 | the search stops at the first if with an embedded exit; what was passed stays as it is in the result |
| StmtRewrite.IsEmbedded | src/Htfe/HtfeParse.cpp:1676-1698 | the query finds an exit at any depth |
| StmtRewrite.OneReading | src/Htfe/HtfeStatement.h:18-76 | linked nodes can be read as one list only |
| StmtRewrite.SameLinks | src/Htfe/HtfeStatement.h:36-50 | the list in memory depends on the links of its nodes alone |
| BankModel.NoCircularWait | ht_lib/sysc/SyscMemLib.cpp:208-371 | in every reachable state with a scheduled request there is a port that can retire as soon as its request's time has come: the request that is least by time and bank is at the back of its port's list and at the front of its bank's queue |
| BankModel.EarliestIsFirst | ht_lib/sysc/SyscMemLib.cpp:244-298 | the least request over all ports comes before every other scheduled request, and is first in both its queues |
| BankModel.StepKeeps | ht_lib/sysc/SyscMemLib.cpp:68-441 | each clock of each port keeps: strictly increasing times per bank, lists in descending order, each request in one bank queue and one port list, the request being answered at the back, responses in order |
| BankRules.Queued | ht_lib/sysc/SyscMemLib.cpp:89-106 | a request that arrives joins its queue as the last one, with the quadwords and the bank that its tag and address say |
| BankRules.SameBankIff | ht_lib/sysc/SyscMemLib.cpp:98 | two requests get to one bank if and only if both are for the host, or neither is and their quadwords are a multiple of 1024 apart |
| BankRules.EveryBankOnce | ht_lib/sysc/SyscMemLib.cpp:98 | any 1024 quadwords in a row lie in 1024 different banks |
| BankRules.GivenWhen | ht_lib/sysc/SyscMemLib.cpp:182-221 | one request is given to its bank at a time, the host's first, after 1515 ns or 606 ns; the bank is done with it 38.788, 17.273, 1212 or 151 ns after it begins, which is when the one before it is done |
| BankRules.ListOrder | ht_lib/sysc/SyscMemLib.cpp:223-229 | in every reachable state the list of a port has later requests in front, and of two at the same time that of the higher bank |
| BankRules.BankOrder | ht_lib/sysc/SyscMemLib.cpp:210-221 | the queue of a bank is in the order in which it is done |
| BankRules.AnsweredWhen | ht_lib/sysc/SyscMemLib.cpp:244-441 | a quadword is answered if and only if the request at the end of the list is first at its bank, its time has come and responses of its kind are not held up |
| BankArrivals.RunAnswers | ht_lib/sysc/SyscMemLib.cpp:68-441 | over whole runs, said of the inputs alone: the host and bank queues of a port hold the last of the requests that arrived for them in their order, every request is in one place, and when none waits just the requests that arrived were answered, with 0 to low as quadwords of each, on hc1 only 0, in one piece |
| BankModel.PlaceKeeps | ht_lib/sysc/SyscMemLib.cpp:208-229 | scheduling a request keeps the order of its bank's queue and of its port's list |
| BankModel.PlaceService | ht_lib/sysc/SyscMemLib.cpp:219-230 | a newly scheduled request never gets behind the one being answered |
| BankModel.LaterThanAll | ht_lib/sysc/SyscMemLib.cpp:210-221 | a bank's new request ends strictly after all others of the bank |
| BankModel.InsertDescends | ht_lib/sysc/SyscMemLib.cpp:223-229 | the walk through the list keeps it strictly descending by time and bank |
| BankModel.AnswerOne | ht_lib/sysc/SyscMemLib.cpp:366-436 | one more quadword is answered with the next number; after the last one the request is complete |
| BankModel.RetireKeeps | ht_lib/sysc/SyscMemLib.cpp:366-371 | retiring a request from both queues keeps the invariant |
| BankDrain.Drain | ht_lib/sysc/SyscMemLib.cpp:208-441 | from every reachable state time and clocks alone finish all requests; each port has then answered exactly the requests it took in, all quadwords of each in order and in one piece |
| BankFair.EveryScheduleDrains | ht_lib/sysc/SyscMemLib.cpp:208-441 | every schedule, in any order of ports and times, in which every port is clocked again and again after the waiting times have passed: all requests finish, each port having answered exactly the requests it took in, all quadwords of each in order and in one piece |
| BankDrain.OneMore | ht_lib/sysc/SyscMemLib.cpp:298-371 | as long as a request is queued, some amount of time and one clock of some port leave less to do |
| BankDrain.StillRetiring | ht_lib/sysc/SyscMemLib.cpp:208-230 | scheduling in the same clock does not hold up a port that can retire |
| BankPort.MemPort.Tick | ht_lib/sysc/SyscMemLib.cpp:68-441 | the object's clock changes its own queues and the shared bank queues as the state machine says; a bank queue that is looked at is never empty |
| BankPort.MemPort.GiveToBank | ht_lib/sysc/SyscMemLib.cpp:208-229 | time and place of a request as computed from the end of the bank's queue and the walk through the port's list |
| BankPort.MemPort.FindPos | ht_lib/sysc/SyscMemLib.cpp:223-228 | the walk stops at the first request that comes before the new one |
| BankPort.MemPort.AcceptReq | ht_lib/sysc/SyscMemLib.cpp:70-180 | requests and further quadwords of a write are collected and queued when complete |
| BankPort.MemPort.RetireReq | ht_lib/sysc/SyscMemLib.cpp:244-441 | the back of the list is answered only when it is at its bank's front, its time has come and responses are not held up |
| SlotModel.ClockKeeps | ht_lib/sysc/SyscMemLib.cpp:443-745 | every clock, for every slot picked and every back-pressure, keeps: counts equal the bits set in the masks, a held transfer is in the middle of a valid slot's request, reads are answered whole, in order and one after the other |
| SlotModel.PutKeeps | ht_lib/sysc/SyscMemLib.cpp:563-586 | putting a request into a slot keeps count and mask together and does not disturb a held transfer |
| SlotModel.ServeKeeps | ht_lib/sysc/SyscMemLib.cpp:648-656 | answering a quadword keeps count and mask together; the hold flag says whether the request has more |
| SlotModel.ReadKeeps | ht_lib/sysc/SyscMemLib.cpp:588-656 | a read's quadwords are numbered from zero with no other read's in between |
| SlotModel.WriteKeeps | ht_lib/sysc/SyscMemLib.cpp:658-713 | a write is acknowledged once, with its first quadword |
| SlotModel.SearchFinds | ht_lib/sysc/SyscMemLib.cpp:563-586 | the round-robin search finds an empty slot exactly when there is one |
| SlotRules.FirstEmpty | ht_lib/sysc/SyscMemLib.cpp:563-586 | the search goes round from where it ended last, and takes the first empty slot it comes to |
| SlotRules.TakenIn | ht_lib/sysc/SyscMemLib.cpp:545-586 | the front request is taken in if and only if it has waited longer than the average latency of its memory, less 32 or 63 clocks, and the table of its kind has room |
| SlotRules.SlotPicked | ht_lib/sysc/SyscMemLib.cpp:588-590 | a request in the middle of its quadwords is looked at again; otherwise any slot is |
| SlotRules.SlotServed | ht_lib/sysc/SyscMemLib.cpp:592-713 | in one clock a read and a write in that slot both move on by one quadword, unless their responses are held up or, for the read, the table of writes is full |
| SlotRules.AnsweredAtOnce | ht_lib/sysc/SyscMemLib.cpp:545-656 | a read can be taken in and answered in one clock |
| SlotRules.ResetEmpties | ht_lib/sysc/SyscMemLib.cpp:730-742 | a reset empties both tables, and keeps the queue in front of them |
| SlotArrivals.RunAnswers | ht_lib/sysc/SyscMemLib.cpp:443-713 | over whole runs, said of the inputs alone: when nothing waits any more just the requests that arrived were answered, each read with the quadwords 0 to low, on hc1 only 0, in one piece, and each write, complete after as many inputs, acknowledged once |
| SlotArrivals.InOnePiece | ht_lib/sysc/SyscMemLib.cpp:588-656 | the quadwords of a read follow each other among the responses |
| SlotModel.ResetInv | ht_lib/sysc/SyscMemLib.cpp:730-742 | reset sets up the invariant whatever the state was |
| SlotDrain.NothingLost | ht_lib/sysc/SyscMemLib.cpp:443-713 | a clock without reset adds the request that arrived and loses or doubles none |
| SlotDrain.Drain | ht_lib/sysc/SyscMemLib.cpp:588-713 | from every reachable state some choice of slots and times finishes all requests, and then exactly those taken in were answered |
| SlotFair.EveryScheduleDrains | ht_lib/sysc/SyscMemLib.cpp:588-713 | every schedule, with any picks and times, in which every slot is picked again and again after the waiting times have passed: all requests finish, and exactly those taken in were answered, reads in one piece |
| SlotDrain.HeldMoves | ht_lib/sysc/SyscMemLib.cpp:588-592 | a held read can wait only for a full table of writes, and then a write moves on |
| SlotMem.MemModel.Tick | ht_lib/sysc/SyscMemLib.cpp:443-743 | the object's clock does what the state machine says |
| SlotMem.SlotTable.Put | ht_lib/sysc/SyscMemLib.cpp:563-586 | the search loop puts the request into the first empty slot, or reports that there is none |
| SlotMem.SlotTable.Serve | ht_lib/sysc/SyscMemLib.cpp:648-656 | mask, count, quadword index and hold flag after one quadword |
| LoopUnroll.Lexer.ForStatement | src/Htfe/HtfeParse.cpp:861-876 | behind a loop's header the parser reads the body once for each value from init in steps of inc below exit, with the value for the control variable, and then what followed the body; also while an outer loop is played back, in whatever state its passes are |
| LoopUnroll.Lexer.GetNextToken | src/Htfe/HtfeLex.cpp:185-232 | the next token is the first of the tokens to come, through ends of passes and of nested loops |
| LoopUnroll.Lexer.GetRecordedToken | src/Htfe/HtfeLex.cpp:185-265 | while recording, the list being played back is not left: its end gives a special token that is not recorded |
| LoopUnroll.Lexer.SkipStatement | src/Htfe/HtfeParse.cpp:880-973 | recording a statement takes exactly the tokens up to its end, found by kind of statement, brackets and else, and the one behind it; while playing back an outer loop the recording stays within the pass |
| LoopUnroll.Lexer.SkipTo | src/Htfe/HtfeParse.cpp:6991-7008 | the loop stops at the first closing token that matches no opening one behind its start |
| LoopUnroll.Lexer.RemoveLastRecordedToken | src/Htfe/HtfeLex.cpp:753-765 | the last token is taken out of the recording; further in, playback steps back |
| LoopUnroll.Lexer.Advance | src/Htfe/HtfeLex.cpp:192-199 | the next token of a pass, or of the next pass with the next value |
| LoopParser.Unroll | src/Htfe/HtfeParse.cpp:760-877 | for every program of nested loops with constant expressions over the control variables of outer loops in their headers, blocks, ifs with else, switches and plain statements, in which loops count up and loops within loops run at least once: the tokens that the parser meets besides loop headers are those of the program with all loops unrolled, and it comes to an end |
| LoopParser.ParseLoop | src/Htfe/HtfeParse.cpp:861-876 | at any depth of playback: behind a loop come the copies of its body for all values, and then what would have come |
| LoopParser.ParseHeader | src/Htfe/HtfeParse.cpp:760-859 | control variable, first value, limit and step, each the value of a constant expression, are read from the header, of which nothing is left |
| LoopValues.PlusPlusIsOne | src/Htfe/HtfeParse.cpp:838-852 | a loop with ++ unrolls to the same tokens as one with += 1 |
| LoopValues.OneByOne | src/Htfe/HtfeParse.cpp:861-876 | a loop with ++ unrolls to its body for each value from the first one up to the limit, in ascending order |
| LoopValues.StepByStep | src/Htfe/HtfeParse.cpp:861-876 | a loop with += unrolls to its body for each value in steps from the first one below the limit |
| LoopValues.WorkIff | src/Htfe/HtfeParse.cpp:861-876 | the condition of the unrolling holds if and only if every loop that is reached counts up, and runs at least once inside another one |
| LoopValues.TwoLoops | src/Htfe/HtfeParse.cpp:760-877 | two nested loops, the inner one from the value of the outer one in steps of two, are taken, and unroll to four statements |
| LoopValues.WrittenPlusPlus | src/Htfe/HtfeParse.cpp:760-852 | the header of a loop with ++ in tokens |
| LoopValues.WrittenStep | src/Htfe/HtfeParse.cpp:760-859 | the header of a loop with += in tokens |
| LoopBounds.BoundTaken | src/Htfe/HtfeParse.cpp:784-836 | the evaluator takes just the text of a value in a header, up to the semicolon or parenthesis behind it |
| LoopBounds.BoundTextSubst | src/Htfe/HtfeLex.cpp:224-232 | what is played back of a value in an inner header is its text with the number in place of the control variable |
| LoopItems.Turn | src/Htfe/HtfeLex.cpp:185-232 | whatever lists are being played back, the next token begins the next of the statements to come, through ends of passes and loops |
| LoopItems.CopiesFull | src/Htfe/HtfeLex.cpp:224-232 | the copies of a body unroll to what the loop unrolls to, with as much work |
| LoopNest.TextSubst | src/Htfe/HtfeLex.cpp:224-232 | a body's text with the value put in is the text of the copy of the body, headers of inner loops included |
| LoopNest.SkipsText | src/Htfe/HtfeParse.cpp:880-973 | skipping ends exactly behind a statement wherever its text stands, and whatever follows it, if an else does not |
| LoopNest.SubstFull | src/Htfe/HtfeLex.cpp:224-232 | putting a value in before unrolling is unrolling with the value known |
| ConstExpr.ParseTaken | src/Htfe/HtfeParse.cpp:4480-4583 | every expression over the binary operators, prefix operators, conditionals and parentheses, written with parentheses where the precedences need them: exactly its text is consumed and its value returned, if it has no exclamation mark; with one the evaluation ends in an assertion |
| ConstGrammar.PhraseTaken | src/Htfe/HtfeLex.cpp:91-115 | the evaluator reads every phrase of a grammar with six explicit levels of binary operators, prefix operators below and the conditional above them, and gives the value of its tree |
| ConstGrammar.PhraseIsPrint | src/Htfe/HtfeLex.cpp:91-115 | the levels of the grammar and the numbers of the table put parentheses in the same places |
| ConstGrammar.TwoOperators | src/Htfe/HtfeLex.cpp:93-113 | of two binary operators around an operand that of the earlier of the classes: products, sums, shifts, and, exclusive or, or, is carried out first, and within a class the left one |
| ConstGrammar.Parentheses | src/Htfe/HtfeParse.cpp:4521-4536 | what stands in parentheses is carried out first |
| ConstGrammar.Prefix | src/Htfe/HtfeParse.cpp:4493-4505 | a prefix operator takes the next operand only |
| ConstGrammar.Conditional | src/Htfe/HtfeParse.cpp:4572-4588 | the conditional takes all that stands before it as its condition, and another conditional behind its colon as its last operand |
| ConstGrammar.NoOperand | src/Htfe/HtfeParse.cpp:4489-4538 | an expression without an operand, also behind a prefix operator, is refused |
| ConstGrammar.NotClosed | src/Htfe/HtfeParse.cpp:4521-4585 | a parenthesis that is not closed and a conditional without a colon are refused |
| ConstExpr.LoopTaken | src/Htfe/HtfeParse.cpp:4585-4672 | an operand that is a whole expression leaves the stacks as if its value alone had been pushed |
| ConstExpr.BinTaken | src/Htfe/HtfeLex.cpp:94-115 | binary operators group by precedence and to the left |
| ConstExpr.CondTaken | src/Htfe/HtfeParse.cpp:4572-4588 | the conditional operator takes its middle operand up to the colon and groups to the right |
| ConstExpr.UnTaken | src/Htfe/HtfeParse.cpp:4493-4505 | a prefix operator applies to the operand behind it, before any binary operator |
| ConstExpr.EndParse | src/Htfe/HtfeParse.cpp:4540-4555 | at the end both stacks are empty but for the value |
| ConstParser.ParseConstExpr | src/Htfe/HtfeParse.cpp:4480-4583 | the loop with its two stacks, reading from the lexer, computes the evaluator function and stops at the token behind the expression; it does not leave the list being played back when the expression ends in it |
| ConstExpr.ParseEvalConstExpr | src/Htfe/HtfeParse.cpp:4585-4672 | the reduction loop carries out operators until the new one can be pushed |
| LinePos.EditsTrack | src/Htfe/HtfePreProcess.h:139-204 | after any sequence of insertions and deletions, overlapping ones too, every surviving character is mapped to its offset in the file |
| LinePos.EditTracks | src/Htfe/HtfePreProcess.h:157-199 | one edit keeps the log right for every surviving character |
| LinePos.InsertedOffset | src/Htfe/HtfePreProcess.h:157-199 | the characters of an inserted text are given the offsets of as many characters before it |
| LinePos.BackMoves | src/Htfe/HtfePreProcess.h:157-199 | positions behind an edit move with it and keep their offset, although the entries need not be in order |
| LinePos.FrontKeeps | src/Htfe/HtfePreProcess.h:189-199 | positions in front of an edit keep their offset, because the new entry stops the sum |
| LinePos.LogUnsorted | src/Htfe/HtfePreProcess.h:173-188 | an insertion and a deletion around it leave the log out of order |
| LinePos.LinePosLog.Insert | src/Htfe/HtfePreProcess.h:157-172 | the loop moves the entries at or behind the edit and enters the new one in front of them |
| LinePos.LinePosLog.Delete | src/Htfe/HtfePreProcess.h:173-188 | the same for a deletion |
| LinePos.LinePosLog.GetInputFileOffset | src/Htfe/HtfePreProcess.h:189-199 | the summing loop returns the file offset of a character from the file |
| HtQueues.ClockHolds | ht_lib/sysc/HtMemTypes.h:205-236 | a clock pops the front, appends the pushed entry and, in a block queue, lets be seen what was there before the clock; memory and wrapping indices hold exactly the entries |
| HtQueues.HoldsLook | ht_lib/sysc/HtMemTypes.h:175-182 | size, empty and front say the truth about the entries, across the wrap |
| HtQueues.ClockAgreesIff | src/Htfe/HtfeParseHtMem.cpp:1073-1093 | after one more clock class and emitted statements agree on empty and size exactly when it is not a block queue reset while its write index is away from zero |
| HtQueues.BlockRunsAgreeIff | src/Htfe/HtfeParseHtMem.cpp:1073-1093 | from the same registers, for all runs of clocks: class and emitted statements of a block queue look the same throughout exactly when it is reset only at a zero write index |
| HtQueues.DistRunsAgree | src/Htfe/HtfeParseHtMem.cpp:1062-1093 | those of a distributed queue look the same throughout every run, whenever it is reset |
| HtQueues.TwoResets | ht_lib/sysc/HtMemTypes.h:205-236 | two reset clocks bring both models together from any registers |
| HtQueues.SameLook | src/Htfe/HtfeParseHtMem.cpp:1250-1311 | the same registers give the same empty and size in both models, although one subtracts with a wrap and the other compares |
| HtQueues.ResetHolds | ht_lib/sysc/HtMemTypes.h:205-236 | after a reset the queue is an empty queue exactly when it is not a block queue or its write index was zero |
| HtQueues.HtQue.Tick | ht_lib/sysc/HtMemTypes.h:201-236 | the clock methods change indices, memory and pending flags as the specification of the queue says |
| HtQueues.HtQue.Push | ht_lib/sysc/HtMemTypes.h:192-199 | a push is remembered for the clock, and ignored before the first reset |
| HtQueues.HtQue.Pop | ht_lib/sysc/HtMemTypes.h:185-191 | a pop is remembered for the clock, and ignored before the first reset |
| HtQueues.HtQue.Status | ht_lib/sysc/HtMemTypes.h:175-182 | size, empty and front are those of the entries |
| AddrRanges.AddrRangeMap.Insert | ht_lib/sysc/HtMemTrace.h:76-103 | ranges stay ascending with a gap between neighbours, cover exactly the inserted addresses, and carry the flag of the last insertion they are made of |
| AddrRanges.AddrRangeMap.Find | ht_lib/sysc/HtMemTrace.h:104-112 | an address is found exactly when some inserted range has it, with the flag of the last insertion into its range |
| AddrRanges.TakenOver | ht_lib/sysc/HtMemTrace.h:81-99 | taking over a range that overlaps or touches keeps the set of addresses |
| AddrRanges.PutFlags | ht_lib/sysc/HtMemTrace.h:101-102 | other ranges keep their flags, the merged one takes the new flag |
| MemTrace.RoundTrip | ht_lib/sysc/HtMemTrace.h:189-313 | however many requests are written, each is read back with its start less than 1000 ps off, its completion less than 2000 ps, and address bits 13 and up, 9 to 12 and 3 to 5 exact |
| MemTrace.OneRecord | ht_lib/sysc/HtMemTrace.h:202-231 | a record is consumed exactly, writer and reader stay in step, and bits 6 to 8 come back with bits 3 to 5 or-ed in |
| MemTrace.SizeSuffices | ht_lib/sysc/HtMemTrace.h:304-313 | the number of bytes chosen always holds the value |
| MemTrace.SizeIsLeast | ht_lib/sysc/HtMemTrace.h:304-313 | it is the least of 1, 2, 4 and 8 bytes that do |
| MemTrace.RecordIs | ht_lib/sysc/HtMemTrace.h:202-231 | the fields and bytes of a record: start and address as signed distances from the record before, the duration in whole ns |
| MemTrace.Fields | ht_lib/sysc/HtMemTrace.h:202-222 | bank and controller numbers in a record are made of address bits 12 to 9 and 5 to 3, and 8 to 6 |
| MemTrace.Digits | ht_lib/sysc/HtMemTrace.h:225-228 | a value is written with its lowest byte first |
| MemTrace.AddressBackIff | ht_lib/sysc/HtMemTrace.h:279-281 | the address comes back, but for its lowest three bits, exactly when bits 6 to 8 are set wherever bits 3 to 5 are |
| MemTrace.BytesValue | ht_lib/sysc/HtMemTrace.h:225-228 | a value is read back from the bytes it was written in, whatever follows |
| MemTrace.DeltasFit | ht_lib/sysc/HtMemTrace.h:202-222 | the running start time is less than 1000 ps from the true one, and never negative |
| MemTrace.Trace.Write | ht_lib/sysc/HtMemTrace.h:189-231 | the writer's fields and file after a request |
| MemTrace.Trace.Read | ht_lib/sysc/HtMemTrace.h:254-293 | the reader's fields, entry and rest of the file, or the end |
| HostMemory.AllocHifMem | ht_lib/host/HtHifLib.cpp:117-155 | after sort and layout the order is a descending permutation, all regions are apart, and every region is inside an allocation of whole 2 MB pages |
| HostMemory.SortPointers | ht_lib/host/HtHifLib.cpp:126-136 | the exchange sort leaves a permutation in descending order of set and size |
| HostMemory.Layout | ht_lib/host/HtHifLib.cpp:138-155 | the accumulating loop gives each region its offset |
| HostMemory.RegionsApart | ht_lib/host/HtHifLib.cpp:140-154 | any two regions do not overlap |
| HostMemory.RegionsWithin | ht_lib/host/HtHifLib.cpp:138-155 | every region lies inside the allocation, also a single one |
| HostMemory.SetIsOneRun | ht_lib/host/HtHifLib.cpp:138-151 | the regions of a NUMA set follow each other, largest first |
| HostMemory.NoGaps | ht_lib/host/HtHifLib.cpp:138-151 | inside a set each region begins where the one before it ends |
| HostMemory.NoWaste | ht_lib/host/HtHifLib.cpp:138-155 | less than 2 MB is left between two sets and behind the last region |
| HostMemory.SetStart | ht_lib/host/HtHifLib.cpp:143-148 | the first region of a set starts on a 2 MB boundary |
| HostMemory.PowersAligned | ht_lib/host/HtHifLib.cpp:111-113 | when the regions of a set are powers of two, each is aligned to its size, or to 2 MB when it is larger |
| HostMemory.UnitMap | ht_lib/host/HtHifLib.cpp:452-463 | the nested loops give unit au times aeCnt plus ae the place (ae, au) |
| HostMemory.ControlQueuesDisjoint | ht_lib/host/HtHifLib.cpp:245-263 | control queues of distinct units do not overlap and lie inside their engine's region |
| WePartition.WriteEnables.SetSubRange | src/Htfe/HtfeIdent.h:659-687 | the list stays an ascending partition that is only refined; its boundaries grow by just the ends of the range, which then consists of whole intervals |
| WePartition.SplitKeeps | src/Htfe/HtfeIdent.h:666-675 | splitting keeps a partition and adds just the cut |
| WePartition.SplitRefines | src/Htfe/HtfeIdent.h:666-675 | every interval after a split lies inside one from before |
| WePartition.BoundariesMeanWhole | src/Htfe/HtfeIdent.h:677-686 | a range with boundaries on both sides consists of whole intervals |
| WePartition.WriteEnables.SplitHigh | src/Htfe/HtfeIdent.h:677-686 | the second loop splits behind the high bit, unless an interval ends there |
| WePartition.WriteEnables.SplitLow | src/Htfe/HtfeIdent.h:666-675 | the first loop splits in front of the low bit, unless an interval starts there |

## Left out

- HIF shutdown: the host's drain loop, which drops messages and has no case for a marker, and the coprocessor's own answer to a halt inside its receive loop; a halt itself is sent and received as an event.
- HIF callbacks, the deadlock warning counters, debug checks and printing, the monitor thread, and address translation: plumbing around the protocol.
- HifCalls.UserReached: types from 128 on and data from 2 to the 56th on, which are sent as other messages (HifMessages.UserMessageIff).
- HifCalls.CallReached: arguments that fill a block, after which the other side does not receive what was sent (HifDelivery.CallSafeIff).
- HifUnit.Unit.SendCall: arguments that fill a block, for the same reason.
- HIF AVL messages carry a block index that nobody reads; the protocol's message has none.
- StmtRewrite.TransformIf: leaves out the second test for an embedded exit, which always succeeds because the list starts with the if that was found.
- Statements behind a break or return in the same list, returns inside a switch, and error recovery of the parser: preconditions of the passes, or opaque statements.
- Memory contents, address validation, statistics and the messages about request order in both memory models: they do not influence the queues.
- BankModel: numbers that come from floating point (38.788 ns and 17.273 ns) are rounded to whole picoseconds.
- SlotModel: the memory model's constructor leaves the hold flags unset, so runs start with a reset.
- LoopUnroll: the unsigned suffix of control values, the replacement inside strings, nested loops that run zero times (which end in an assertion), statement kinds that the parser rejects, and loop bounds outside 32 bits.
- LoopParser: the keywords for the control variable's type are one token; malformed headers, which end in error messages, and headers with `!` in a value, on which the evaluator ends in an assertion (`ConstExpr.ParseTaken`).
- ConstExpr: the arithmetic of constant values, which is a parameter; string constants and error messages.
- LinePos: the query whether a position was in the file at all, which nothing calls.
- HtQueues: arrays of queues, the statistics of the highest fill, and separate clocks for the two sides.
- MemTrace: the engine, unit, source, operation and host fields, and the header and file-name table of the file.
- AddrRanges: insertions of empty ranges and of ranges that wrap around.
- HostMemory: the sizes that the parameters give the regions, huge pages, the allocation itself.
- Verilog text output, identifier and type tables, overload resolution, the RAM classes: easy, or resting on code outside these files.
