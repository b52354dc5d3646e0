# Verification of xuanqiong's queue, buffers, connections and calls

xuanqiong is an RPC library: client and server exchange frames over sockets, one coroutine reads and
one writes per connection, an event loop on epoll or io_uring runs them, and threads hand tasks to
the loop through a lock-free queue. This project models the parts that carry the data and proves what
they keep over every run.

- **The task queue** (`MpmcQueue`, `MpmcInvariant`, `MpmcTheorems`, `MpmcReclaim`, `MpmcProgress`,
  `MpmcLinearizable`). Every atomic access of `push` and `pop` is a step of a thread; any number of threads
  run in any schedule. An inductive invariant gives memory safety, the chunk chain and the counters, a
  simulation gives linearizability: every run shows its callers a trace of an atomic first-in first-out
  queue, and a call that runs alone returns exactly under a stated condition.
- **The buffers** (`BufferBlock`, `OutputBuffer`, `InputBuffer`). Classes over linked blocks of 8192
  bytes, with the loops of the source. The output buffer refines a queue of bytes, the input buffer a
  flat stream with a cursor, and the iovecs handed to the kernel denote a prefix of the pending bytes.
- **Framing** (`Framing`, `FrameSender`, `FrameReceiver`). The receive loop as a function on flat
  streams: independent of how bytes are split into reads, and the inverse of sending exactly when no
  length word lies across two blocks. The loop on the real input buffer refines that function.
- **Connections** (`SendTasks`, `UringWrites`, `UringConnection`, `PollWrites`, `PollReads`,
  `PollConnection`). State machines between two turns of the event loop, and classes over the real buffers
  whose operations are steps of them.
- **The wake-up of the event loop** (`WakeUp`). Spawns of any threads against the epoll loop.
- **Calls end to end** (`Rpc`). One client channel and the server over reliable byte channels that
  deliver in pieces of any size: where each call is, that it gets its own answer, and at most once.

A run is a finite sequence of actions chosen by the environment; `Exec` gives the state after it, an
action that is not enabled changes nothing, and the theorems hold of `Exec` for every sequence. Fields
marked as history record what happened and are never read by a step; for each machine a law equates them
with a function of the actions alone (`Given`, `Issued`, `Arrived`, `Pushed`, `Ran`).

Several properties that one would expect hold only under a condition. The model keeps the code as it
is, and each has an exact condition for all inputs and, where it helps, a concrete run:

- `fetch_uint32` advances a `uint32_t*` by a number of bytes, so a word that lies across two blocks is
  not read whole: frames survive the wire if and only if every length word lies inside one block
  (`Framing.FramesSurviveIffAligned`).
- The loop of the polled `async_write` offers the same bytes to every `writev`: it is exact if and only
  if at most one call of it has bytes accepted (`PollWrites.ExactIffOneAccept`).
- On io_uring, output is stranded if and only if some completion was short
  (`UringWrites.StrandedIffShort`), and then for ever.
- A sleeping epoll loop has a task in its queue if and only if a spawn pushed and tested between the
  failing pop and the setting of the flag (`WakeUp.TaskStrandedIffMissed`).
- `OutputBuffer::back_up` keeps the buffer valid if and only if it does not take back sent bytes;
  `send_add` and `skip` end if and only if they are asked for no more bytes than there are.
- A claim lost by `pop` after it has incremented `ref_count` is never undone: a head chunk that is read
  out and held by no consumer can still leave the queue if and only if no claim was lost on it, or a
  consumer is already past the reference test (`MpmcReclaim.UnlinkedIffNoClaimLost`).
- A `push` that runs alone returns if and only if at most one chunk is missing for its index
  (`MpmcProgress.PushAloneReturnsIffNear`); a `pop` that runs alone returns if and only if the value at
  the head is ready and linked (`MpmcProgress.PopAloneReturnsIffReady`).

Assumptions: atomic steps are sequentially consistent; deleted chunks and blocks stay readable but
unreachable; protobuf is a codec whose parsing inverts its serializing, with parsing taken as calling
`next` until it fails; connections stay open; event registration succeeds. The kernel's answers, the
memory a length variable held before it was read, the arrival of bytes and the schedule are parameters
over which the theorems quantify. Nothing was executed.

## Model

| member | source | states |
|---|---|---|
| `MpmcInvariant.KnowledgeIsStable` | util/mpmc_queue.inl.h:2-76 | a step of one thread never invalidates what another thread knows at its program point |
| `MpmcInvariant.ActSound` | util/mpmc_queue.inl.h:2-76 | every atomic step keeps the memory invariant, only lets histories grow, and leaves its thread with what it must know next |
| `MpmcInvariant.InvHolds` | util/mpmc_queue.inl.h:2-76 | the invariant on chunks, indices, slots, counters and program points holds after every schedule of any number of threads |
| `MpmcTheorems.EveryAccessIsSafe` | util/mpmc_queue.inl.h:4-66 | no run touches a missing chunk; even from a stale chunk pointer every slot offset is in [0, CHUNK_SIZE) |
| `MpmcTheorems.ChunksFormOneChain` | util/mpmc_queue.inl.h:11-24 | chunks begin at 0, CHUNK_SIZE, 2·CHUNK_SIZE, …; a link leads to the next chunk, and a missing one is about to be stored |
| `MpmcTheorems.LinksAreFinal` | util/mpmc_queue.inl.h:13-17 | a chunk's `next` never changes once it is there, in any continuation of any run |
| `MpmcTheorems.LinkStoredOnce` | util/mpmc_queue.inl.h:13-17 | a thread about to store `next` always finds it null, so it is stored at most once |
| `MpmcTheorems.ClaimsAreExclusive` | util/mpmc_queue.inl.h:7-10 | over a whole run, a thread that owns an index and one that owns it at any later time are the same, for producers and for consumers |
| `MpmcTheorems.HeadNeverPassesTail` | util/mpmc_queue.inl.h:38-56 | `head_index_` never passes `tail_index_`, in any run |
| `MpmcTheorems.UnlinkedChunksAreDrained` | util/mpmc_queue.inl.h:42-51 | `head_chunk_` leaves a chunk only after all its values were claimed and moved out |
| `MpmcTheorems.CountsAreExact` | util/mpmc_queue.inl.h:53-72 | `read_count` is the number of completed reads; `ref_count` is holders plus lost claims, never negative, never zero while held |
| `MpmcTheorems.LostClaimPinsChunk` | util/mpmc_queue.inl.h:42-55 | once a claim was lost on a chunk and no consumer is past the reference test, no continuation ever unlinks it |
| `MpmcReclaim.UnlinkedIffNoClaimLost` | util/mpmc_queue.inl.h:42-55 | the head chunk, read out and held by no consumer, is unlinked in some continuation if and only if no claim was lost on it or a consumer is already past the reference test |
| `MpmcReclaim.LostClaimHappens` | util/mpmc_queue.inl.h:53-56 | a run of eleven actions after which the first chunk is never unlinked |
| `AtomicQueueFifo.FirstInFirstOut` | util/mpmc_queue.h:52-54 | in the specification queue, what was popped followed by what is queued is what was pushed, in order |
| `MpmcLinearizable.StepSimulates` | util/mpmc_queue.inl.h:2-76 | each atomic step is one action of the atomic queue or none, with the same visible events |
| `MpmcLinearizable.QueueIsLinearizable` | util/mpmc_queue.inl.h:2-76 | every run shows exactly the trace of a run of the atomic queue, with the exchanges of `tail_index_` and `head_index_` as linearization points |
| `MpmcLinearizable.EmptyPopSawEmptyQueue` | util/mpmc_queue.inl.h:38-41 | `pop` returns false only if the queue was empty at the instant `tail_index_` was read, although `head_idx` is older |
| `MpmcLinearizable.PopReturnsTheClaimedValue` | util/mpmc_queue.inl.h:57-69 | the value moved out at index i is that of the push that claimed i |
| `MpmcProgress.ReadyOrBeingPushed` | util/mpmc_queue.inl.h:26-29 | in every run the slot of every index ever claimed is ready, or its producer is still in `push` with it: a push that has returned has made its value available |
| `MpmcProgress.CountedOrBeingPopped` | util/mpmc_queue.inl.h:66-69 | in every run every index ever claimed by a consumer is counted in `read_count`, or its consumer has yet to count it |
| `MpmcProgress.PopAloneReturnsIffReady` | util/mpmc_queue.inl.h:35-76 | a `pop` of a non-empty queue that runs alone returns if and only if the value at the head is ready and its chunk is linked, and then returns exactly this value |
| `MpmcProgress.PopAloneOfEmpty` | util/mpmc_queue.inl.h:37-41 | a `pop` of an empty queue that runs alone returns false |
| `MpmcProgress.PushAloneReturnsIffNear` | util/mpmc_queue.inl.h:2-32 | a `push` that runs alone returns if and only if its index lies in the last chunk or the one after it, and then its value is ready at this index |
| `BufferBlocks.SliceOfStream` | util/buffer_block.h:10-15 | a slice of any block of a chain is the slice of the flat stream at the block's place |
| `BufferBlocks.FreeFirst` | util/output_stream.cc:81-83 | without its first block the chain still holds the end of the stream |
| `OutputBuffers.OutputBuffer.constructor` | util/output_stream.cc:8-11 | an empty queue of bytes in one fresh block |
| `OutputBuffers.OutputBuffer.Append` | util/output_stream.cc:42-56 | adds exactly its bytes behind the pending ones, moves no block, and ends, zero-byte rounds included |
| `OutputBuffers.OutputBuffer.Next` | util/output_stream.cc:21-33 | lends the whole rest of the last block, never empty, and counts it as pending |
| `OutputBuffers.OutputBuffer.BackUp` | util/output_stream.cc:35-40 | takes back the last min(count, end) bytes; the buffer stays valid if and only if no sent byte is among them |
| `OutputBuffers.BackUpBreaks` | util/output_stream.cc:35-40 | append two bytes, send one, take back two: the buffer is broken |
| `OutputBuffers.OutputBuffer.SerializeRound` | util/output_stream.cc:21-40 | `next`, writing into the grant and `back_up` of its rest add exactly the bytes written |
| `OutputBuffers.OutputBuffer.Serialize` | util/output_stream.cc:21-40 | a message of any length written through the zero-copy interface adds exactly its bytes |
| `OutputBuffers.OutputBuffer.SendRound` | util/output_stream.cc:72-85 | a round of `send_add` drops bytes and makes progress exactly when something is pending |
| `OutputBuffers.OutputBuffer.SendAdd` | util/output_stream.cc:68-86 | drops exactly the first n pending bytes; it ends if and only if n is at most what is pending |
| `OutputBuffers.OutputBuffer.SnapshotIsPrefix` | util/output_stream.cc:58-66 | the bytes that a list of iovecs denotes in memory are the first pending bytes |
| `OutputBuffers.OutputBuffer.SnapshotKept` | util/output_stream.cc:42-66 | iovecs go on naming the first pending bytes while bytes are added behind |
| `OutputBuffers.OutputBuffer.GetIovecs` | util/output_stream.cc:58-66 | the iovecs denote a prefix of the pending bytes, empty only if nothing is pending, and all of them for at most IOV_MAX blocks |
| `OutputBuffers.OutputBuffer.OfferIsPartial` | util/output_stream.cc:60 | one list of iovecs leaves pending bytes out if and only if they go beyond IOV_MAX blocks |
| `InputBuffers.InputBuffer.constructor` | util/input_stream.cc:7-11 | an empty stream with no limit |
| `InputBuffers.InputBuffer.GetBuffer` | util/input_stream.cc:21-23 | there is always room: the non-empty rest of the last block |
| `InputBuffers.InputBuffer.RecvAdd` | util/input_stream.cc:25-35 | the stream grows by the bytes stored in the lent room; cursor and limit stay |
| `InputBuffers.InputBuffer.FetchUint32` | util/input_stream.cc:37-57 | succeeds if and only if four bytes are unread; the cursor moves over the word in every case; the variable gets the part inside the block, the rest is stored past it |
| `InputBuffers.InputBuffer.Next` | util/input_stream.cc:59-73 | fails if and only if nothing is unread or the limit is used up; otherwise hands out the front of the unread bytes within the limit; a negative limit moves the cursor back, and the exact condition under which that breaks the buffer |
| `InputBuffers.InputBuffer.Drain` | util/input_stream.cc:59-73 | calling `next` until it fails ends and yields exactly the unread bytes up to the limit, across any number of blocks |
| `InputBuffers.InputBuffer.ReadLimited` | util/input_stream.h:33-39 | push a limit, read until `next` fails, pop the limit: exactly the first bytes up to the limit, the rest of the stream untouched |
| `InputBuffers.InputBuffer.FreeBefore` | util/input_stream.cc:82-87 | frees exactly the blocks that lie wholly before the cursor |
| `InputBuffers.InputBuffer.BackUp` | util/input_stream.cc:75-88 | moves the cursor back by min(n, consumed mod 8192), restores counters and a finite limit, and frees only blocks before the cursor |
| `InputBuffers.InputBuffer.SkipRound` | util/input_stream.cc:94-104 | a round of `skip` makes progress exactly when something is unread |
| `InputBuffers.InputBuffer.Skip` | util/input_stream.cc:90-106 | refuses if and only if n exceeds the bytes consumed before; otherwise ends if and only if n bytes are unread, and moves the cursor by n |
| `Framing.WordOfLe32` | client/client_channel.cc:177-184 | reading a length word inverts writing it |
| `Framing.ReceiveInParts` | server/rpc_server.cc:57-147 | receiving a stream in two parts is receiving it at once, from any point of the loop and for any bytes |
| `Framing.ReceiveFrame` | server/rpc_server.cc:66-147 | a frame whose length words each lie in one block is received as it was sent |
| `Framing.ReceiveInvertsEncode` | client/client_channel.cc:64-120 | any list of frames with aligned length words comes out as it went in, and the loop is back at a frame's start |
| `Framing.SplitWordLosesFrames` | util/input_stream.cc:45-50 | with a split length word, some earlier contents of the variable make the loop lose frames |
| `Framing.FramesSurviveIffAligned` | util/input_stream.cc:37-57 | frames survive whatever the variables held before if and only if no length word lies across two blocks |
| `Framing.LongHeaderIsLost` | util/input_stream.cc:45-50 | a frame with a header of 8185 bytes, whose second length word is split, is lost |
| `Framing.PrefixGivesPrefix` | client/client_channel.cc:64-120 | what was received of a stream of aligned frames is always a prefix of them, and all of them once all bytes are there |
| `Framing.ReceiveConserves` | server/rpc_server.cc:57-147 | the loop hands on no more bytes than it has taken, whatever the bytes are |
| `Framing.FramesWithin` | client/client_channel.cc:64-120 | a part of a stream of aligned frames yields exactly the frames that end within it |
| `FrameSenders.WriteFrame` | client/client_channel.cc:177-184 | writing a frame into the output buffer adds exactly its encoding |
| `FrameReceivers.FrameReceiver.StepOnce` | server/rpc_server.cc:66-147 | a step of the loop on the real buffer is a step of the loop on the flat stream |
| `FrameReceivers.FrameReceiver.Feed` | server/rpc_server.cc:57-147 | whatever the chunks and the room lent, the frames handed on are those of the flat stream of all bytes received |
| `FrameReceivers.FrameReceiver.HandsOnWhatWasSent` | client/client_channel.cc:64-120 | while aligned frames arrive, what is handed on is a prefix of what was sent, and in the end all of it |
| `UringWrites.WritesInOrder` | net/uring_connection.cc:35-60 | in every run at most one write is in flight, it is a prefix of the pending bytes, accepted followed by pending is all that was appended, and every resume finds `send_fn` suspended |
| `UringWrites.KernelGetsWhatWasGiven` | net/uring_connection.cc:15-60 | in every run the kernel has got exactly the first bytes of all responses and requests given, as many as it has reported, and the rest is pending in order |
| `UringWrites.TasksInOrder` | scheduler/uring_exector.cc:29-33 | every task given to the executor is run once, in order, or still queued |
| `UringWrites.TwoCompletionsDrain` | scheduler/uring_exector.cc:73-76 | full completions of the write in flight and of the next one leave nothing pending |
| `UringWrites.SpuriousResumeIsHarmless` | net/uring_connection.cc:35-45 | in every run a resume that nothing has caused changes nothing |
| `UringWrites.StrandedIffShort` | net/uring_connection.cc:37-45 | output waits with nothing in flight if and only if some completion was short |
| `UringWrites.StrandedForever` | net/uring_connection.cc:37-45 | after a short completion no continuation gets another byte accepted |
| `UringWrites.ShortWriteStrands` | net/uring_connection.cc:37-45 | a run in which the kernel takes one byte of two |
| `UringConnections.UringConnection.KernelSeesSubmitted` | net/uring_connection.cc:47-54 | what the iovecs of the write in flight denote in memory is what was submitted, a prefix of the pending bytes |
| `UringConnections.UringConnection.AsyncWrite` | net/uring_connection.cc:35-60 | on the real buffer `async_write` is the protocol's step; it reaches all pending bytes for at most IOV_MAX blocks |
| `UringConnections.UringConnection.ResumeWrite` | server/rpc_server.cc:183-189 | resuming `send_fn` is the protocol's step and keeps its invariant |
| `UringConnections.UringConnection.Respond` | server/rpc_server.cc:151-170 | a response goes behind all that is pending and leaves the bytes of a write in flight in place |
| `UringConnections.UringConnection.SendAdd` | net/uring_connection.cc:15-18 | exactly the bytes that the kernel has taken leave the buffer |
| `UringConnections.UringConnection.Complete` | scheduler/uring_exector.cc:73-76 | a completion of any size takes exactly its bytes from the front of the buffer and is the protocol's step |
| `PollWrites.ExactIffOneAccept` | net/poll_connection.cc:43-66 | for every buffer content the kernel gets a prefix and the count is right, if and only if at most one `writev` has bytes accepted |
| `PollWrites.NothingStranded` | scheduler/awaitable.cc:22-34 | in every run with exact writes nothing is lost, repeated or reordered, pending output has write interest armed, and every resume finds `send_fn` suspended |
| `PollWrites.StepRecords` | net/poll_connection.cc:43-69 | an event adds what it gives behind the pending bytes, and the kernel takes as many of the first of them as its answers say |
| `PollWrites.KernelGetsWhatWasGiven` | client/client_channel.cc:150-191 | in every run with exact writes, what the kernel has got followed by what is pending is all that was given, and every task is run once in order or still queued |
| `PollWrites.WritableConsumesInterest` | scheduler/epoll_exector.cc:72-82 | after an output event, write interest is armed if and only if output is left |
| `PollReads.NoMissedInput` | scheduler/awaitable.cc:6-20 | in every run bytes behind a suspended reader have an event due, none is lost or reordered, and no call reads more than the room lent |
| `PollReads.RunKeepsInv` | net/poll_connection.cc:9-41 | every run of the read protocol from a state of its invariant ends in one; with `AsyncRead` this holds of the real connection |
| `PollReads.SuspendsIffNothingThere` | net/poll_connection.cc:35-40 | a call that ends suspends if and only if it has gained nothing from an empty socket |
| `PollReads.ReaderGetsWhatArrived` | net/poll_connection.cc:9-41 | in every run what the reader has, has in hand and finds in the socket is together all that has arrived, in order |
| `PollReads.SuspendedReaderGoesOn` | scheduler/epoll_exector.cc:83-86 | bytes behind a suspended reader reach it through the event that is due, as many as there is room for |
| `PollConnections.PollConnection.ReadLoop` | net/poll_connection.cc:10-34 | the loop of `read` calls on the real buffer is a run of the read protocol: what was read lies at the start of the room lent, in order |
| `PollConnections.PollConnection.AsyncRead` | net/poll_connection.cc:9-41 | `async_read` is a run of the read protocol from its call to its return; it suspends if and only if the stream has not grown |
| `PollConnections.PollConnection.WriteAll` | net/poll_connection.cc:44-65 | the loop of `writev` calls over the real iovecs gives the kernel what the write loop on flat bytes gives it |
| `PollConnections.PollConnection.AsyncWrite` | net/poll_connection.cc:43-69 | `async_write` and its awaiter are the step of the write protocol, its failure to end included |
| `PollConnections.PollConnection.ResumeWrite` | client/client_channel.cc:150-156 | resuming `send_fn` is the step of the write protocol |
| `PollConnections.PollConnection.Respond` | server/rpc_server.cc:151-170 | appending a response and resuming `send_fn` is the step of the write protocol |
| `PollConnections.PollConnection.Writable` | scheduler/epoll_exector.cc:72-82 | an output event drops the write interest and is the step of the write protocol |
| `PollConnections.PollConnection.ExactStepsAreSafe` | scheduler/awaitable.cc:22-34 | a step on the real buffer whose writes are exact ends and keeps the protocol's invariant |
| `PollConnections.PollConnection.PartialOfferRepeats` | net/poll_connection.cc:47-52 | output beyond IOV_MAX blocks is sent twice even by a kernel that takes all it is offered |
| `WakeUp.InvHolds` | scheduler/epoll_exector.cc:37-63 | in every run a queued task of a blocked loop was missed, is about to be tested for, or has a wake-up coming |
| `WakeUp.NoTaskIsLost` | scheduler/epoll_exector.cc:37-43 | in every run every task pushed is run once, in order, or still queued |
| `WakeUp.PendingWakeUpRunsTask` | scheduler/epoll_exector.cc:44-62 | a pending wake-up leads the blocked loop to its first task |
| `WakeUp.ClearedUntilArmed` | scheduler/epoll_exector.cc:57-63 | once woken by the eventfd, no spawn writes to it until the loop sets the flag again |
| `WakeUp.QuietAfterDrain` | scheduler/epoll_exector.cc:57-60 | the read of the eventfd takes back all writes up to it: without a later one it is not reported again |
| `WakeUp.DrainNeverBlocks` | scheduler/epoll_exector.cc:57-60 | the read of the eventfd always finds something |
| `WakeUp.TestedSpawnsWakeTheLoop` | scheduler/epoll_exector.cc:106-118 | while the loop is blocked, a test of the flag since it was set implies a wake-up pending or about to be written; wake-up writes never exceed settings |
| `WakeUp.TaskStrandedIffMissed` | scheduler/epoll_exector.cc:40-46 | a loop that nothing will wake leaves a task behind if and only if a spawn fell between the failing pop and the setting of the flag |
| `WakeUp.LostWakeUp` | scheduler/epoll_exector.cc:40-46 | a run of four steps in which it happens |
| `Rpc.InvHolds` | client/client_channel.cc:157-191 | in every run both streams encode the calls and the answers to the first of them, and sessions are those of the calls not completed |
| `Rpc.CallsAreIssued` | client/client_channel.cc:158-191 | the calls on record are exactly those that were issued on the open channel, in order, with their service, method, body and session |
| `Rpc.EachCallInOnePlace` | client/client_channel.cc:121-191 | in every state each call is in exactly one of seven places from the client's buffer to completion, and has a session until then |
| `Rpc.EachCallGetsItsAnswer` | client/client_channel.cc:121-144 | every response finds its session; calls complete in the order in which they were issued, at most once, each for its session and with the answer computed from its own request |
| `Rpc.NothingIsLost` | server/rpc_server.cc:57-170 | an open connection comes to rest only when every call issued is completed |
| `Rpc.EveryCallCanComplete` | server/rpc_server.cc:57-170 | from every state of every run some continuation completes all calls issued |
| `Rpc.ClosesOnlyUnanswered` | server/rpc_server.cc:98-146 | the server closes only on a call that its service does not answer |
| `Rpc.SplitWordLosesCall` | util/input_stream.cc:45-50 | in every run with a split length word in the requests, some contents of the server's variables leave a call unserved for ever |
| `Rpc.AllHeardIffAligned` | server/rpc_server.cc:57-147 | all requests of a run are received, whatever the server's variables hold, if and only if no length word of them is split |

## Left out

- Weak memory orders, 64-bit index wrap-around and the lifetime of a deleted chunk in the queue; chunks are never reused.
- Progress of the queue under a scheduler: spin loops are steps that change nothing, and beyond safety only a call that runs alone is treated.
- Behaviour after close, end of file or hang-up, and the destruction of coroutines and buffers.
- Kernel errors other than EAGAIN and EINTR, failing `epoll_ctl` calls, and missing submission entries.
- Reads on io_uring and its eventfd wake-up: the read side adds a single pending read to what `InputBuffer` states.
- The protobuf encoding; bodies are compared as bytes, so parsing a response into its message is not modelled.
- Lengths of INT32_MAX or more in a frame: the receive loop stops at a point of its own there.
- The kqueue executor, socket set-up, the accept loop, `RpcController`, examples, the press tool and logging.
- `total_bytes_` and `byte_count` of the output buffer.
- The order in which the server checks a header and waits for its body: a request is handled once it is whole.
- What the client reads after a response without a session; `Rpc.EachCallGetsItsAnswer` states that there is none.
- InputBuffers.InputBuffer.BackUp: requires that a finite limit does not grow beyond INT32_MAX, where the source's int would overflow.
- InputBuffers.InputBuffer.ReadLimited: requires a length that fits in the int that holds the limit; `Next` states what a negative limit does.
- InputBuffers.InputBuffer.FetchUint32: returns the bytes stored past the variable and does not model what they overwrite.
- MpmcReclaim.UnlinkedIffNoClaimLost: is for a head chunk that no consumer holds at the moment; a holder about to try its exchange may still lose it.
- PollWrites.NothingStranded: is for runs in which each write loop has bytes accepted once at most; `ExactIffOneAccept` states that this is what exact writes need.
- Rpc.EachCallGetsItsAnswer: is for streams whose length words lie inside one block; `Rpc.SplitWordLosesCall` and `Rpc.AllHeardIffAligned` state that requests need this.
