# A verified model of sserver

sserver runs one master process, which owns the client sockets, and one worker process per
service. Each worker shares two ring queues with the master: the master pushes opened
connections, messages and closed connections into the worker's receive queue, and the worker
pushes replies and closes into its send queue. This project models the parts that make that
work, and proves what they are for.

| file | what it models |
|---|---|
| `Layout.dfy` | the packed bytes of a block (`mem_queue.h`) |
| `Ring.dfy` | what the bytes of a queue look like between two accesses, and what each access keeps |
| `MemQueue.dfy` | the queue as code on a byte array, one caller at a time (`mem_queue.c`) |
| `RingConcurrent.dfy` | the same queue with writer and reader interleaved, one memory access per step |
| `Framing.dfy` | cutting the received bytes into messages (`master.c`, `work.c`, `net_util.c`) |
| `Told.dfy` | the record of all pushes to a worker's receive queue, and what follows for those that got in |
| `Session.dfy`, `SessionSteps.dfy`, `SessionSafety.dfy` | the OPEN/DATA/CLOSE protocol over the two queues, in which any push may fail: its steps, that each step keeps the invariant, and what follows for every run |
| `Server.dfy` | the functions of the master and the workers, on queues in shared memory and on their own tables |
| `EndToEnd.dfy` | the protocol with the receive buffers in it: from bytes read to messages handled |
| `Output.dfy` | partial writes and the output buffer (`net_util.c`, `master.c`) |
| `CacheList.dfy` | the lists of connections to read again and to close (`net_util.c`) |

The main results are:

- **The ring is a FIFO under every interleaving.** `RingConcurrent` makes each read of the other
  side's offset, each integer written and each byte copied a step of its own. In every run the
  blocks read and popped are a prefix of the blocks accepted, the rest is what memory holds
  between the offsets, no byte of a block is read before it is written or after it is
  overwritten, and no access leaves the mapping. From every state that can be reached, wherever the
  other side is, a side that runs alone comes to its end: `mq_get` finds the oldest block whenever
  there is one, and `mq_push` gets its block in exactly when the offsets leave room.
- **Messages reach the right session, unless a CLOSE was lost.** In every run, with any pushes that
  find no room, any timing, any number of connections on a queue and any reuse of descriptors: what
  `proc_cli_msg` gets for a session from its own connection is a prefix of the messages that were
  cut from that connection. It gets something else if and only if more came for the descriptor after
  the master's CLOSE for the connection had found no room, or the worker had refused an OPEN and
  then took bytes inside a block for a message to this session. An OPEN is refused only after some
  CLOSE to that worker was lost; so if none was, all that any of its sessions gets is right
  (`SessionSafety.PrefixIfNoCloseLost`). These runs assume that a push stores its block or reports
  that it failed, which the code does if it reads `tail` once (see below).
- **Master and worker agree on the sessions**, up to what is on its way in the two queues, if and
  only if no lost block concerns a connection that one of them still has. That is proved with the
  order of the queued blocks and without it, for every worker that has refused no OPEN.
- **The bytes carry the protocol.** Any sequence of calls of the master's and the workers'
  functions on queues of any size is a run of the protocol, in which exactly those pushes fail for
  which the queue has no room. A refused OPEN, and the CLOSE sent back for it, are among them; only
  a turn that a worker takes inside a block, later, is not. A queue refuses a block only if it and
  one longest block more would not fit (`MemQueue.RefusedOnlyIfFull`).
- **Framing does not depend on how the bytes arrived**, exactly for the plug-ins whose answer
  does not depend on it either.

## Where the code does not do what it is for

The model follows the code. Where a promise fails, a lemma gives the input and the condition:

- `mem_queue.c:102` and `:123` read `tail` twice. If the reader moves `tail` to the start in
  between, neither branch is taken and `mq_push` returns 0 with nothing stored
  (`RingConcurrent.FallThroughHappens`). The blocks reported as stored are the blocks stored
  exactly when that never happens (`RingConcurrent.AckedIffNotOvertaken`). Everything else about
  the ring holds all the same. The runs of `Session` assume the repair, one read of `tail` in each
  pass: a push appends its block or reports that it failed. A DATA block lost without a report
  would leave a gap in what a session gets.
- `mem_queue.c:73-80` reads `head` up to three times, so `mq_get` may return NULL although a block
  has arrived. That is part of the concurrent model and does no harm.
- `net_util.c:443-445` goes on when the CLOSE could not be pushed. If the descriptor is used again
  while the worker still has the session, the next OPEN is refused
  (`SessionSafety.RefusedOpenHappens`), or, if that is lost too, the messages go to the wrong
  session (`SessionSafety.MisdeliveryHappens`). Until a worker has refused an OPEN, the lost CLOSE
  is the only cause (`SessionSafety.FrontBlockIsRightIff`, `SessionSafety.OpenIsRefusedIff`).
- `work.c:262-266`, which handles a refused OPEN, overwrites the length of the block while it is
  still in the queue, so that `mq_pop` leaves the reader inside the block. If another block follows,
  the reader takes what it finds there for a DATA block: for the descriptor that the refused peer's
  port and the id in the next block make up, and with that block's descriptor, times 256, as its
  length (`Ring.MisreadBehindSpoiled`). So bytes that are no client's message can reach a session
  whose own CLOSE was not lost (`SessionSafety.MisreadHappens`). If none follows, no list of blocks
  fits the queue any more (`Ring.NothingFitsThere`). From then on the protocol's model lets that
  worker take anything at all for a block.
- `master.c:332-334` closes the listening descriptor in place of the new one when the OPEN could
  not be pushed, and `work.c:412` does not look whether the worker's CLOSE could be. When
  agreement survives a lost block is said by `SessionSafety.LostCloseBreaksAgreementIff`,
  `LostEndBreaksAgreementIff` and `LostOpenBreaksAgreement`, and for any number of them by
  `SessionSafety.SessionsAccountedIff` and `ReplayAgreesIff`.
- `master.c:300-309` applies a worker's block to whatever connection has the descriptor by then
  (`SessionSafety.StaleCloseHitsNextConnection`). So nothing is claimed about replies or worker
  closes reaching the right connection.
- `net_util.c:376` takes a successful `malloc` for a failed one, and `net_util.c:419-422` leaves
  `slen` as it is after a complete flush. `Output` has both versions: as it stands, a run
  preserves the output stream exactly under the condition of `PreservedThroughoutIff`; with the
  two places repaired, every run does (`RepairedPreservesStream`). The arming of write events and
  the buffer limits hold in both (`AlwaysTidy`).
- `get_msg_len` is asked after any read, even one that ends inside the message header. Framing is
  then independent of the reads only for a plug-in that decides by the first byte
  (`Framing.SameForAllCutsIff`); for others, a read that ends inside a header can make a message that
  was never sent (`EndToEnd.SplitHeaderCutsWrong`), and whole headers are enough to exclude it. A
  plug-in that answers 0, as the sample one does if a client sends that as a length, fills the queue
  with empty messages (`Framing.ZeroAnswerFillsQueue`); the loop in a worker then never ends
  (`Framing.NeverEndsOnZero`).
- `safe_tcp_send_n` asserts that there is something to send, so a worker that sends a message of no
  bytes stops the master. `Output.SendBuff.DoFdSend` asks for data.
- The comment at the top of `mem_queue.c` calls the queue full when head + len == tail; the code
  (line 124) also refuses everything beyond that, and the model does so too.

## Model

| member | source | states |
|---|---|---|
| Layout.IntRoundTrip | mem_queue.h:41-47 | any 32-bit value, negative ones too, is what its four bytes stand for |
| Layout.ReadBack | mem_queue.h:41-47 | reading the packed fields at an offset gives back the id, fd, type, length and payload that were laid out there |
| Ring.SkipIffUsedUp | mem_queue.c:73-92 | the reader's rule and the writer's rule are complements: in a wrapped queue the reader meets a marker or no room exactly when its run is used up; otherwise head > tail exactly when a whole block is there |
| Ring.ScribbleKeeps | mem_queue.c:104-118 | writing anywhere between head and the next pending byte, markers and half-written blocks included, changes nothing that is pending |
| Ring.PublishKeeps | mem_queue.c:116-119 | moving head over a completely written block appends exactly that block |
| Ring.AdvanceKeeps | mem_queue.c:142-147 | moving tail by the length field drops exactly the oldest block |
| Ring.OldestIsIntact | mem_queue.c:85-90 | while a block stays the oldest, all its bytes stay as they are |
| Ring.PendingSizeBelowCapacity | mem_queue.c:98-134 | the pending blocks, wrapped or not, take up fewer than q.len - mem_head_len bytes |
| Ring.PendingIsUnique | mem_queue.c:69-96 | offsets and bytes determine the pending blocks: the marker and the no-room rule leave no second reading |
| Ring.SpoiledIsClose | work.c:263-264 | a block whose type and length have been overwritten reads as a CLOSE of no data for the same id and fd |
| Ring.MisreadBehindSpoiled | work.c:261-273 | behind such a block the reader stands in the address; whatever block follows, it finds a DATA block for fd = port bytes + 65536 * id of that block, with 256 * fd of that block as its length |
| Ring.NothingFitsThere | mem_queue.c:73-79 | a reader fewer bytes than a header before head stands at no block: no list of pending blocks fits, whatever the bytes are |
| MemQueue.Queue.constructor | mem_queue.c:37-58 | a new queue is empty, with both offsets behind the queue head |
| MemQueue.Queue.Get | mem_queue.c:69-96 | returns the address of the oldest block, complete and readable, and NULL iff nothing is pending; goes back to the start, in a second pass, exactly when its run before the wrap is used up; at most two passes; the pending blocks stay |
| MemQueue.Queue.Mark | mem_queue.c:104-108 | afterwards the reader must skip at head, whether or not a header fitted; a marker says how many bytes to skip; nothing pending has changed |
| MemQueue.Queue.CopyBlock | mem_queue.c:117-118 | the two copies lay out the whole block at head and touch no other byte |
| MemQueue.Queue.Store | mem_queue.c:116-120 | the block is the newest pending one, blk_cnt is one more, the queue head is untouched |
| MemQueue.Queue.PushPass | mem_queue.c:101-134 | which of the three ways a pass ends, and that only a stored block changes what is pending |
| MemQueue.Queue.Push | mem_queue.c:98-140 | 0 and exactly this block appended, or -1 and nothing pending changed, even after a marker and a wrap; which of the two, where head goes and how many passes (at most two) is given by the offsets alone; a block with mem_head_len + len >= q.len is refused in every state; the bytes of a block that mq_get returned stay |
| MemQueue.Queue.Pop | mem_queue.c:142-151 | drops exactly the block that mq_get returned, and counts it |
| MemQueue.Queue.SpoilFront | work.c:263-264 | overwriting the front block in place leaves a CLOSE of no data there and changes no byte behind its header |
| MemQueue.PushWhenEmpty | mem_queue.c:98-134 | from every state with nothing pending, a block gets in iff mem_head_len + len < q.len: at once or after one failed push and one mq_get |
| MemQueue.StepIsFifo | mem_queue.c:69-151 | what the offsets and pending blocks make of a call, refusals included, is an answer of an unbounded FIFO, and the pending blocks afterwards are what that FIFO holds |
| MemQueue.Perform | work.c:256-273 | each way the callers use a queue gives exactly that answer and that state |
| MemQueue.Replay | mem_queue.c:37-151 | every finite sequence of calls on a new queue gives exactly these answers, refusals included; they are a run of an unbounded FIFO; blk_cnt counts the pending blocks throughout |
| MemQueue.RefusedOnlyIfFull | mem_queue.c:98-134 | after any calls, with M the longest block: a push gets in only if the pending bytes and its own stay below q.len - mem_head_len, and is refused only if they and M bytes more do not |
| RingConcurrent.WriterKeeps | mem_queue.c:98-140 | each single access of mq_push keeps the ring's invariant, wherever the reader is |
| RingConcurrent.ReaderKeeps | mem_queue.c:69-96 | each single access of mq_get, of the caller reading the block and of mq_pop keeps it, wherever the writer is |
| RingConcurrent.ReadingNext | mem_queue.c:85-90 | the byte read next is the next byte of the oldest accepted block; the block looks complete exactly when it is, and is then understood as it was sent |
| RingConcurrent.ConsumedThenPendingIsAccepted | mem_queue.c:69-151 | in every interleaving, the blocks consumed, then the blocks memory holds, are the blocks accepted, in order and byte for byte |
| RingConcurrent.NoTornRead | mem_queue.c:85-147 | between mq_get and mq_pop every byte read, and every byte still in memory, is that of the oldest accepted block, whatever the writer does meanwhile |
| RingConcurrent.EveryAccessIsInside | mem_queue.c:69-151 | in every interleaving every access falls behind the queue head and inside q.len |
| RingConcurrent.AtMostTwoPasses | mem_queue.c:72-113 | in every interleaving push_again and get_again are taken at most once in a call |
| RingConcurrent.ReaderAloneFinds | mem_queue.c:69-96 | from every reachable state, at most six accesses of mq_get in a row come to the oldest accepted block if one has not been popped, before or behind the wrap, and to NULL if none is left |
| RingConcurrent.ReaderAloneTakes | mem_queue.c:69-151 | going on to read and pop, the reader has consumed that block |
| RingConcurrent.WriterAlonePushes | mem_queue.c:98-140 | from every reachable state, mq_push run alone accepts its block, and returns 0, iff the offsets at its start leave room for it, and leaves head where the sequential queue does |
| RingConcurrent.AckedIffNotOvertaken | mem_queue.c:101-139 | in every interleaving, the blocks for which mq_push returned 0 are the blocks accepted iff mq_get never reset tail (82, 87) while a push was between its tests of tail at 102 and 123 and then went on |
| RingConcurrent.FallThroughHappens | mem_queue.c:101-139 | a run in which mq_push returns 0 and the block is in no queue |
| Framing.CutConserves | master.c:234-261 | messages and what stays behind make up the bytes that were there; what stays is nothing or a message known to be incomplete |
| Framing.FrameLengthsAreAnswers | master.c:236-243 | each message is as long as get_msg_len says on the bytes that start with it |
| Framing.CutInTwo | master.c:230-261 | reading bytes in two goes gives the messages, rest and msglen of reading them in one |
| Framing.FeedIsOneCut | master.c:226-264 | any sequence of reads gives what a single read of everything gives |
| Framing.ChunkInvariance | master.c:226-264 | two ways of cutting the same stream into reads give the same messages, rest and msglen |
| Framing.WholeHeadersSettle | test_sserv/test_serv.cpp:126-129 | for a plug-in that reads a header of h bytes it is enough that no read ends inside a header |
| Framing.SameForAllCutsIff | master.c:236-239 | framing is independent of all reads of all streams iff the plug-in's answer is settled by the first byte |
| Framing.PushTurnsIsCut | master.c:235-257 | for messages of at least one byte, the loop with room for n messages pushes the first n of those that the bytes contain, and succeeds iff there are no more |
| Framing.ZeroAnswerFillsQueue | master.c:235-257 | if get_msg_len answers 0, the loop pushes empty messages until the queue is full, and the connection is closed |
| Framing.EndsIfPositive | master.c:235-257 | for messages of at least one byte the loop comes to an end by itself |
| Framing.NeverEndsOnZero | work.c:367-384 | if get_msg_len answers 0 for the bytes in the buffer, it does not |
| Framing.EndIsCut | work.c:367-384 | for messages of at least one byte, the messages at its end are those that the bytes contain |
| Framing.RecvNIsBrought | net_util.c:74-96 | for every behaviour of recv(): the first bytes brought, up to the number asked for, or all of them if there are fewer and nothing more is there now; gone iff fewer came and the connection ended, or nothing came |
| Framing.RecvBuff.SafeTcpRecvN | net_util.c:74-96 | puts exactly these bytes into the buffer, in order, behind those that were there, and returns their number; 0 or -1 if gone |
| Framing.RecvBuff.HandleRead | net_util.c:517-562 | appends to what is waiting all bytes that recv() brings, up to the end of the buffer; nothing, and 0, when the buffer is full; -1 iff the connection is gone; says which readlist function is called |
| Framing.RecvBuff.NextMessage | master.c:236-245 | the length is asked for only if it is not known, and the message is found iff all of it is there |
| Framing.RecvBuff.MoveToFront | master.c:259-261 | the unfinished message is at the start of the buffer, byte for byte, although the areas may overlap |
| Framing.RecvBuff.ProcAgain | work.c:367-384 | for any answers that are not negative and let the loop end, what the loop makes of the bytes: every message handled in order, the rest in place |
| Framing.RecvBuff.DoProcSvr | work.c:358-391 | for any answers that are not negative and let the loop end, handles the messages that the waiting and the new bytes come to, and keeps the rest at the start of the buffer; for positive answers these are exactly the messages that the bytes contain; -1 iff the peer is gone |
| Told.ClosedOnce | net_util.c:431-461 | a connection's CLOSE is pushed at most once, and nothing is pushed for it afterwards |
| Told.LinksDifferByLosses | master.c:313-338 | what the blocks that got in leave open differs from what was pushed exactly by connections whose OPEN or CLOSE was lost |
| Told.OpenedOnce | master.c:313-338 | no two OPEN blocks in a queue are for the same connection |
| SessionSteps.OpenKeeps | master.c:313-338 | accepting a connection keeps the protocol's invariant, with and without room for its OPEN, the closing of the listening descriptor included |
| SessionSteps.CloseKeeps | net_util.c:431-447 | so does closing a descriptor in the master, whether or not there is room for its CLOSE |
| SessionSteps.PushKeeps | master.c:241-252 | so does pushing a message |
| SessionSteps.CutOnlyKeeps | master.c:245-248 | so does a message that finds no room and closes its connection, with and without room for the CLOSE |
| SessionSteps.SendTurnKeeps | master.c:293-309 | so does taking a block off a send queue and obeying it |
| SessionSteps.CloseCliIsSound | work.c:400-414 | so does a worker ending a session, at any time, whether or not there is room to say so |
| SessionSteps.FrontIsRight | work.c:256-273 | the next block is right for the session on its descriptor iff that session's CLOSE had not been lost when the block was pushed |
| SessionSteps.OpenedIsSound | work.c:293-311 | an OPEN that meets no session adds the one the master has opened |
| SessionSteps.ClosedIsSound | work.c:313-328 | a CLOSE ends at most the session on its descriptor, with one callback |
| SessionSteps.HandedIsSound | work.c:277-291 | a message is handed to the session on its descriptor or to none, and no other session misses one of its own |
| SessionSteps.RefusedIsSound | work.c:261-267 | an OPEN is refused only if a CLOSE had been lost; the CLOSE sent back keeps the invariant |
| SessionSteps.MisreadIsSound | work.c:256-273 | after that, whatever the worker takes for a block, the account of its sessions and callbacks stays right, and so does what it was handed before |
| SessionSteps.StepKeeps | work.c:250-328 | every step of every participant keeps the invariant, whatever pushes fail; a worker that reads inside a block included |
| SessionSafety.BlocksMetAreRightIff | work.c:256-273 | in every run, a DATA or CLOSE of the master's that met a session was for that session's connection iff the connection's CLOSE had not been lost before; no popped OPEN met a session |
| SessionSafety.FrontBlockIsRightIff | work.c:256-273 | in every run, until the worker refuses an OPEN, the next block, an OPEN included, is wrong for the session on its descriptor iff that session's CLOSE had been lost before; so the echo of a worker's CLOSE never ends a later session |
| SessionSafety.OpenIsRefusedIff | work.c:261-266 | in every run, the branch at 262 is first taken iff the descriptor has a session whose CLOSE was lost |
| SessionSafety.DeliveredIsPrefixOfCut | work.c:277-291 | in every run, the messages of its own connection that a session gets are the first ones cut from it, in order and byte for byte; it gets nothing else iff nothing came for it after its CLOSE was lost and nothing that its worker, after refusing an OPEN, took for a message |
| SessionSafety.PrefixUnlessCloseLost | work.c:277-291 | in every run, if the master's CLOSE for a connection was not lost and the worker has refused no OPEN, all that the session got is a prefix of what was cut from the connection |
| SessionSafety.PrefixIfNoCloseLost | net_util.c:437-445 | in every run, if no CLOSE to a worker was lost, it has refused no OPEN, and all that any of its sessions got is a prefix of what was cut |
| SessionSafety.NothingIsLostWhileOpen | master.c:241-252 | in every run, while both ends have a connection and the worker has refused no OPEN, the messages delivered and those still queued are all that were cut |
| SessionSafety.SessionsAccountedIff | work.c:293-328 | in every run, for a worker that has refused no OPEN, each session and each connection is at the other end or a block on its way accounts for it, iff no live session has lost its CLOSE and no open connection its OPEN or the worker's CLOSE |
| SessionSafety.ReplayAgreesIff | work.c:293-328 | in every run, for a worker that has refused no OPEN: replaying the queued blocks in order on its table gives only connections the master has, and all of them but those whose CLOSE is in the send queue, iff no loss shows in the result |
| SessionSafety.QuietTablesAreEqualIff | work.c:293-328 | in every run, with both queues empty and no OPEN refused, the worker's table is the master's list of its connections iff no such loss matters |
| SessionSafety.SessionsAgree | work.c:293-328 | with no OPEN or CLOSE lost, replaying the queued blocks on the worker's table gives only connections the master has, addresses included, and where one of the master's is missing the worker's CLOSE is in its send queue |
| SessionSafety.OneCallbackPerSession | work.c:313-328 | in every run, refused OPENs and what follows them included, on_cli_closed is called once per ended session: opens are callbacks plus live sessions |
| SessionSafety.OpenAndCloseAlternateIff | net_util.c:437-445 | in every run, OPEN and CLOSE of a descriptor alternate in its receive queue, OPEN first, iff each that got in was disturbed an even number of times before, by lost blocks or a listening descriptor's CLOSE |
| SessionSafety.LostCloseBreaksAgreementIff | net_util.c:437-445 | agreement survives a CLOSE that could not be pushed iff a CLOSE for the same connection waits in the worker's send queue |
| SessionSafety.LostEndBreaksAgreementIff | work.c:400-414 | agreement survives a worker's CLOSE that could not be pushed iff the master no longer has that connection |
| SessionSafety.LostOpenBreaksAgreement | master.c:332-334 | agreement never survives an OPEN that could not be pushed, and the listening descriptor is gone |
| SessionSafety.StaleCloseHitsNextConnection | master.c:300-305 | a run in which nothing is lost and a worker's CLOSE for one connection closes the next one on the same descriptor |
| SessionSafety.RefusedOpenHappens | work.c:261-266 | a run with one lost CLOSE in which the next OPEN is refused |
| SessionSafety.MisdeliveryHappens | work.c:277-291 | a run with a lost CLOSE and a lost OPEN in which a message of one connection is handed to the session of another |
| SessionSafety.MisreadHappens | work.c:256-273 | a run in which a worker refuses an OPEN and then hands bytes that no client sent to another session, whose CLOSE was not lost |
| Server.Process.DoFdOpen | master.c:313-338 | on the shared bytes: the descriptor is recorded with its worker and address, its OPEN is the newest block in that worker's queue exactly if the offsets leave room, and exactly if not the listening descriptor is gone and its CLOSE queued if there is room for that; tables and queues still are a state of the protocol that keeps its invariant |
| Server.Process.DoFdClose | net_util.c:431-461 | likewise for a close: nothing for a closed descriptor, otherwise its CLOSE is the newest block in its worker's queue exactly if the offsets leave room, and the descriptor alone is gone |
| Server.Process.PushFrame | master.c:241-252 | likewise for a message: the newest block in its worker's queue, byte for byte, exactly if the offsets leave room; otherwise its connection is gone |
| Server.Process.HandleCli | master.c:226-264 | handle_cli on the worker's own queue, for every behaviour of recv() and any answers that are not negative: the messages that the waiting and the new bytes come to are the newest blocks in the queue, in order, and the rest is kept in place; if one finds no room, those before it are pushed and the connection is closed; if the peer is gone, just that |
| Server.Process.SendTurn | master.c:293-309 | one turn on the bytes of a send queue is the protocol's step for the block that lies there; a CLOSE, or a write that fails, closes the block's descriptor and no other |
| Server.Process.HandleMqSend | master.c:285-309 | one round leaves every send queue empty; with the blocks of all queues in order, exactly those descriptors are closed that a CLOSE is for, or whose block's write fails |
| Server.Process.CloseCli | work.c:400-414 | the session alone is gone, and its CLOSE is the newest block in the queue of its own worker exactly if the offsets leave room |
| Server.Process.SendToCli | net_util.c:286-301 | the message, byte for byte, is the newest block in the queue of its own worker exactly if the offsets leave room, and -1 says that it is not |
| Server.Worker.Refuse | work.c:261-273 | on the bytes: a refused block is overwritten, sent back as a CLOSE exactly if the offsets leave room, and popped by its new length; what the reader finds next is said whether or not a block follows |
| Server.Process.RecvTurn | work.c:256-328 | one turn on the bytes of a receive queue, case by case: what proc_cli_msg is given, the table, and the send queue; if proc_cli_msg returns nonzero the session is gone and its CLOSE queued exactly if the offsets leave room; an OPEN adds its session or is refused and sent back; a CLOSE ends its session. This is the protocol's step; an OPEN is refused only after a lost CLOSE |
| Server.Process.HandleMqRecv | work.c:250-275 | drains the receive queue by such turns, in order, the j-th with what proc_cli_msg returns in it, one for each block and one that finds nothing, unless one refuses an OPEN; what a worker reads after that is not the protocol's |
| Server.Serve | work.c:250-328 | any sequence of events on queues of any size leaves the bytes and tables that the protocol gives when exactly those pushes fail for which the offsets leave no room; refused OPENs included, up to the first turn that a worker takes inside a block |
| Server.InsideAfterLoss | work.c:256-273 | which a worker takes only after a CLOSE to it was lost |
| Server.ServingIsARun | work.c:250-328 | and that is a run of the protocol, so all that holds for every run holds for the bytes |
| EndToEnd.TurnIsFaithful | master.c:236-257 | one turn of the loop on a settled answer keeps it true that, for all bytes still to come, cutting everything at once continues what has been cut |
| EndToEnd.StepKeeps | master.c:226-264 | every step of reading, of cutting on any answers and of the protocol keeps that for every connection whose answers were all settled |
| EndToEnd.HandledMessagesAreThoseSent | master.c:226-264 | in every run, for reads of any sizes and whatever pushes fail, what a session gets of its own connection is a prefix of the messages cut, and these are a prefix of the messages in the bytes read from it, cut in one piece, if every answer was settled; it gets nothing else iff nothing came after its CLOSE was lost or its worker had refused an OPEN |
| EndToEnd.RunRecords | master.c:226-264 | in every run, the stream of a connection is all that was read from it, in order, and its answers were settled iff get_msg_len was never asked too early |
| EndToEnd.HandledMessagesAreThoseRead | master.c:226-264 | so in every run in which it was not, what a session gets of its own connection is a prefix of the messages in the bytes read from it |
| EndToEnd.SplitHeaderCutsWrong | master.c:236-245 | a run in which a read ends inside a header and a message is cut that the stream does not contain |
| Output.RepairedPreservesStream | net_util.c:350-428 | with the two repairs, for all sends and partial writes: wire then sbf is the data given, slen <= sbf_size, EPOLLOUT armed iff slen > 0, slen <= max_buf_len if set |
| Output.AlwaysTidy | net_util.c:372-407 | in every run, repaired or not: EPOLLOUT armed iff bytes wait, slen <= sbf_size, slen <= max_buf_len if set |
| Output.EventSurvivesIff | net_util.c:350-428 | repaired or not: a connection survives a send or a write event iff no safe_tcp_send_n that is made fails and, with bytes to keep and a limit, what waits then is within it (or line 376 drops them); then how many bytes wait, in how large a buffer |
| Output.EventMoves | net_util.c:350-428 | repaired or not: which bytes an event that is survived puts on the socket and which wait afterwards, counted by what the socket took |
| Output.RunSurvivesIff | net_util.c:350-428 | so for every run: the connection is alive at the end iff none of its events closed it |
| Output.EventPreservesIff | net_util.c:350-428 | as the code stands, an event that the connection survives preserves the stream iff it completes no flush and keeps nothing for a connection without a buffer |
| Output.PreservedThroughoutIff | net_util.c:350-428 | as the code stands, for every run: the stream is preserved after each event iff each event that the connection survives is of that kind |
| Output.BrokenAsItStands | net_util.c:372-428 | a connection that loses a byte on its first partial write and sends another one twice later |
| Output.OutcomeIsTaken | net_util.c:98-118 | for every behaviour of send(): as many bytes go out as the socket takes before it is full or broken, at most all; failure iff it breaks before |
| Output.SendBuff.SafeTcpSendN | net_util.c:98-118 | puts exactly these bytes on the socket and returns their number, or -1 |
| Output.SendBuff.DoFdWrite | net_util.c:410-428 | flushes the buffer by what the socket took, in place |
| Output.SendBuff.KeepRest | net_util.c:372-407 | buffers the rest, growing sbf as needed, closes iff something is kept beyond max_buf_len, and arms or disarms EPOLLOUT; -1 iff the connection is closed or line 376 drops the rest |
| Output.SendBuff.DoFdSend | net_util.c:350-408 | is the send that the lemmas are about, for every behaviour of the socket; the connection survives under the condition of EventSurvivesIff; -1 iff it is closed or line 376 drops the rest |
| Output.SendBuff.OnWriteReady | master.c:173-182 | is the write event that the lemmas are about |
| CacheList.AfterKeeps | net_util.c:480-515 | each operation on the lists keeps this: a descriptor is on the readlist iff flagged CACHE_READ, on the closelist iff flagged CACHE_CLOSE, never on both or twice, and listening or closed ones are never on the readlist |
| CacheList.AlwaysListed | net_util.c:480-515 | so it holds after any sequence of operations |
| CacheList.EpollInfo.AddToReadlist | net_util.c:480-487 | by its flag alone, appends exactly the descriptors that are on no list |
| CacheList.EpollInfo.DelFromReadlist | net_util.c:489-496 | by its flag alone, takes it off the readlist, the others in their places, and leaves the closelist, although one node serves both |
| CacheList.EpollInfo.AddToCloselist | net_util.c:498-506 | by its flag alone, moves it from the readlist to the end of the closelist, once |
| CacheList.EpollInfo.DelFromCloselist | net_util.c:508-515 | by its flag alone, takes it off the closelist, the others in their places, and leaves the readlist |
| CacheList.EpollInfo.FdClose | net_util.c:431-461 | a closed descriptor is free, without output, and on neither list; no other one changes |
| CacheList.EpollInfo.HandleCloselist | net_util.c:582-596 | ends with the closelist empty; each descriptor that was on it is free, after what the socket took of its output; no other one changes, and the readlist stays |
| CacheList.EpollInfo.HandleReadlist | net_util.c:564-580 | keeps on the readlist, in order, exactly the descriptors whose buffer filled up again; a descriptor on it is closed, its output freed, iff its peer is gone, and keeps its output otherwise; no other one changes |
| CacheList.Replay | net_util.c:480-515 | the code, run on any sequence of operations, has the flags, lists and descriptors that AlwaysListed is about |

## Left out

- MemQueue.Queue.Push: asks that head + len fits a C int; the source's additions overflow beyond that.
- MemQueue.Queue.constructor: the three integers of the queue head are fields of the model; their twelve bytes are reserved in the array and proved untouched. Failure of mmap is not modelled.
- RingConcurrent.ConsumedThenPendingIsAccepted: steps are sequentially consistent; reordering of memory accesses by the processor is not modelled.
- `blk_cnt` under concurrency: it is updated by both sides without locking and no decision reads it; it is exact in `MemQueue` and not part of `RingConcurrent`.
- The pipe byte written by `mq_push`: a wake-up hint on top of polling every 50 ms.
- Framing.RecvBuff.HandleRead: mmap succeeds; the readlist functions that it calls are in CacheList, on another object.
- Framing.ChunkInvariance: get_msg_len is a function of the bytes received, and positive; a plug-in that reads beyond them, or answers with a negative length, is not modelled.
- Framing.RecvBuff.ProcAgain: asks that the loop ends, since there is nothing to say of one that does not; so does Framing.RecvBuff.DoProcSvr. Framing.EndsIfPositive and Framing.NeverEndsOnZero say when it does.
- Server.Process.HandleCli: a message that finds no room closes its connection, so what is left in the buffer then is not said.
- Server.Serve: the calls of master and workers follow one another; that single accesses may be interleaved is RingConcurrent's result, for calls that are not overtaken, not a joint state machine.
- Server.Process.HandleMqRecv: ends after a turn that refuses an OPEN, where the source reads on inside the block.
- Server.Process.RecvTurn: is not taken by a worker that reads inside a block. Which bytes it finds there after the first such turn depends on old bytes of the queue, and its tail may leave the mapping; Session.TurnMisread lets it find anything.
- SessionSteps.MisreadIsSound: close_cli and send_to_cli for a session that such a worker has opened from bytes inside a block, with an id that is not its own index, are not steps.
- SessionSafety.OneCallbackPerSession: the callback does not itself call close_cli; what proc_cli_msg sends or closes while it runs are steps before or after its turn.
- EndToEnd.HandledMessagesAreThoseSent: the plug-in's answers are positive; for an answer of 0, Framing.ZeroAnswerFillsQueue.
- Server.Process.DoFdClose: buffers and lists of the descriptor are in Output and CacheList, not in the same object.
- Server.Process.DoFdOpen: accept and epoll_ctl succeed; other kinds of descriptors than listening and client ones are not modelled.
- Output.SendBuff.DoFdSend: asks for at least one byte of data, as safe_tcp_send_n asserts. Failure of malloc is not modelled.
- CacheList.EpollInfo.HandleReadlist: the branch for a listening descriptor is left out, since none is ever on the list.
- `epinfo.maxfd` and `epinfo.count`: the search for the next largest descriptor stops at the first empty slot and the count is never raised, so there is nothing true to say about them.
- Restarting a dead worker, signals and start-up (`start_work`, `handle_sigchld`, `work_init`): operating-system bookkeeping that goes around the lists and sessions.
- `conf.c`, `mcast.c`, `outer.c`, `util.c`, `simple_svr.c` and the test programs: configuration, multicast, loading of plug-ins and clients; nothing that bears on these properties.
