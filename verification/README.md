# Rosetta-IO: a verified model of its message transport

Rosetta-IO lets many tasks of one process exchange tagged message streams with other nodes over a single TCP
connection per pair of nodes. This project models the machinery that makes this work and proves what it is for,
in four layers, each of which uses the one below.

1. **Ring buffer** (`CycleBuffer.dfy`, `Growth.dfy`, `PhasedRing.dfy`). The growable circular byte array is a class
   over an array; every operation is proved to be that of a byte queue, in the straight, wrapped, full and empty
   cases. Over whole runs growth is paid for. Its operations are split over several critical sections;
   with one writer and one reader they still linearise, and with two of either they do not.
2. **Framing and demultiplexing** (`Bytes.dfy`, `Framing.dfy`, `Connection.dfy`, `SocketWrite.dfy`, `HexId.dfy`). The
   frame builder, the frame reader, the streaming parser under any chunking, the connection's rings (a send ring,
   a receive ring, one ring per message id), the loop that writes a batch to the socket, and the encoding
   of message ids.
3. **Hand-over protocols** (`WorkToken.dfy`, `EpollToken.dfy`, `ClientRegistry.dfy`, `ChannelPool.dfy`). Each is a step
   machine with explicit parked, checking and working threads, together with a class whose methods are the
   critical sections and are proved to make the machine's steps. `Sender.dfy`, `Receiver.dfy`, `Endpoint.dfy` and
   `Link.dfy` (with concrete runs in `Scenario.dfy`) compose tokens and data path: every thread's every critical section is a step, and the main
   theorems hold in every state of every run of two connected endpoints. There, storing in a receive ring is three
   sections (grow, wait for room, copy) that interleave with the two of the receiving loop (see a frame, take it); that
   one thread of each kind runs at a time is derived from the tokens.
4. **Topology** (`Config.dfy`, `Topology.dfy`). The roles and peers every node derives from a shared configuration,
   and why the decisions two nodes take independently fit together.

A step machine is a pair `Enabled`/`Apply` over a datatype `State`; `Reaches(s, steps, r)` says that exactly these steps
lead from `s` to `r`, and `Links.Run(steps, trace)` that `trace` holds the states passed through from the start, so a
lemma about all `steps` is about all interleavings. The steps follow the critical sections of:
`src/connection.cpp` lines 86-125 (receiving loop), 141-180 (sending loop), 182-263 (do_start, do_stop), 265-303
(start, stop), 305-345 (recv); `src/server.cpp` lines 278-315, 352-417, 446-521; `src/client.cpp` lines 44-85, 207-221,
246-275; `src/channel.cpp` lines 49-65, 119-128, 202-221. A wait on a condition variable is two states:
`Checking` (about to evaluate the predicate under the lock) and `Parked` (moved only by a notify or a spurious wake-up;
for the loop threads, the steps `DataPut` and `DataArrived` on their own are the spurious ones).

## What turned out false

Some properties one would expect do not hold of the code. Each is stated with a concrete failing input or run and with
the exact condition under which it does hold.

* A frame survives the trip exactly when its id has at most 254 bytes, id and payload are not both empty, and the length
  fits 64 bits (`Framing.FrameRoundTrip`); a list of frames survives any chunking exactly when all its frames do
  (`Framing.StreamExactly`). `Framing.UnsendableFrames` shows the failures. For the entirely empty frame the guard and the
  reader disagree: the guard reports a frame as soon as one more byte follows, the reader never takes it.
* The bytes put at one end arrive complete and in order exactly when no write has failed and dropped bytes of its batch
  (`Links.NothingLost`), and a write drops nothing exactly when it reports the full length
  (`SocketWrite.NothingDroppedExactly`).
* The write loop reports the full length exactly when bytes taken and retries add up to it before anything else happens
  (`SocketWrite.FullExactly`). A signal is an error even after part of the batch went out
  (`SocketWrite.InterruptedAfterOneByte`), although the branch that handles it sets the count to zero as if to go on.
* Dialling and listening agree exactly when one of two adjacent nodes has a positive port; otherwise both dial
  (`Topology.DialListenAgreement`).
* Two live channels never share a task id exactly when no channel is built while one of the same task is erased from the
  pool and not yet deleted (`ChannelPool.UniqueExactly`); `ChannelPool.TwinsOccur` is a run where one is, and where the twins
  may be gone before the new channel reaches the pool. In the pool task ids are always
  distinct (`ChannelPool.PoolSafety`).
* A new client can still be linked to an address exactly when no connect to it has failed, and a new caller can still be
  given a channel of a task exactly when no creation of it has failed (`ClientRegistry.ServedExactly`,
  `ChannelPool.ServedExactly`). Failures with a blocked waiter occur (`ClientRegistry.FailureOccurs`,
  `ChannelPool.FailureOccurs`), and last (`ClientRegistry.FailureBlocksAddress`, `ChannelPool.FailureBlocksTask`).
* A client is handed only connections that can be reused exactly when no waiter looks again while the connection under its
  address is broken (`ClientRegistry.UsableExactly`, `ClientRegistry.BrokenHandedOver`).
* The stops of a task that pass their rendezvous are no more than the starts at the other end and the bytes users there
  sent under the rendezvous id (`Links.RendezvousHolds`); with such bytes a stop passes for a task never started there
  (`Scenarios.ForgedRendezvous`), without them none does (`Links.RendezvousUnforged`).
* The test that decides teardown, get_unrecv_size being 0, sees precisely what was delivered; it means that all that was
  sent has been received exactly when nothing is under way (`Links.UnreceivedIsExact`). A teardown loses
  precisely the bytes still on the other side (`Links.TeardownLosesOnlyPending`), and `Scenarios.EarlyTeardown` is a run
  in which there are some.
* Hexadecimal ids share a stream exactly when they are equal up to the case of letters, and printing can be undone exactly
  up to 128 bytes and one case of 129 (`HexIds.SameStreamExactly`, `HexIds.PrintedRoundTrip`, `HexIds.Collisions`).
* The order of a stream depends on the tokens, not on the data path alone (`Sender.TwoSendersReorder`,
  `Receiver.TwoReceiversReorder`, `PhasedRing.TwoWritersFault`, `PhasedRing.TwoReadersFault`); with them it always holds
  (`Links.FifoPerId`).

## Model

| member | source | states |
|---|---|---|
| Links.FifoPerId | src/connection.cpp:86-180 | in every state of every run of two endpoints, for every id, unless a write at the sender has dropped bytes: bytes returned by recv, then bytes stored for the id, then the payload in a receiving loop's hands, form a prefix of the payloads the peer sent under that id, in put order |
| Links.NothingLost | src/connection.cpp:141-218 | in every state of every run: all frames put = delivered bytes ++ bytes a listening thread holds ++ wire ++ batch in hand ++ send buffer, in order, if and only if no write has dropped bytes; and a free token means nothing is in the hands it guards |
| Links.NobodySleepsOnData | src/connection.cpp:86-164 | in every state of every run no sending loop is parked while the send buffer has bytes, and no receiving loop is parked on a whole frame unless the notify for it is still to come |
| Links.RendezvousHolds | src/connection.cpp:265-303 | over every run without dropped bytes, the stops of a task that got past their "lock:" receive are at most the starts of that task at the other end plus the bytes users there sent under that id |
| Links.RendezvousUnforged | src/connection.cpp:265-303 | so with no user sending under the id of a task, no more of its stops pass than starts were made at the other end |
| Endpoints.RendezvousIds | src/connection.cpp:269-271 | the rendezvous ids are those beginning with "lock:", and a rendezvous frame carries "1" |
| Scenarios.ForgedRendezvous | src/connection.cpp:291-303 | a reachable state in which a stop of a task has passed that was never started at the other end, on a byte a user sent |
| Links.BytesBalance | src/connection.cpp:75-125 | over every run, at either end: delivered bytes = get_unrecv_size + payload in hand + framing of parsed frames + bytes returned |
| Links.UnreceivedIsExact | src/connection.cpp:75-84 | over every run, at either end with no frame in hand, as while its token is free: get_unrecv_size is 0 if and only if every delivered byte was parsed and every payload byte of every id returned; and then, without dropped bytes, all the peer put has been received if and only if nothing is under way |
| Links.TwoMoments | src/connection.cpp:75-84 | over every run, with the ring counted at one moment and the ids at a later one with no frame in hand: if both are 0, all that was delivered by the first moment has been returned by the second |
| Links.TeardownLosesOnlyPending | src/server.cpp:472-518 | over every run, whenever a server tears down no thread of that end has the token or anything in hand, all delivered bytes were parsed and returned, and what the peer put and is missing is precisely what is pending on its side |
| Endpoints.TeardownIsQuiet | src/server.cpp:485-494 | the stop that tears down comes after all servers and all their tasks on the connection have stopped, so nothing is in hand and all delivered bytes are returned |
| Scenarios.EarlyTeardown | src/server.cpp:490-518 | a reachable state in which the only server of one end, after its task's stop passed and joined, is about to tear down with count 0, while a frame the peer put after its start is on the wire |
| Links.RingsStaySound | src/_internal/cycle_buffer.cpp:239-276 | over every run, with storing and taking split into the ring's critical sections: no copy runs without room, a thread that grew the ring never waits for room, and what a receiving loop saw is still at the front when it takes it and, without dropped bytes, is a frame and the next one put |
| Links.InvStep | src/connection.cpp:86-345 | every step of either endpoint or of the network keeps tokens, hands, wake-ups, both streams, the per-id books, the rendezvous counts and the byte balance |
| Links.NextFrame | src/_internal/cycle_buffer.cpp:119-164 | whenever can_read holds, the reader finds a frame, and it is the next one the peer put |
| Links.NetStream | src/server.cpp:295-298 | reading any number of bytes from the wire keeps the stream between two endpoints intact |
| Links.CountedStep | src/connection.cpp:265-303 | every step keeps: bytes put under the rendezvous id of a task are counted by its starts and what users send there, bytes returned there are at least its passed stops |
| Endpoints.OneAtATime | src/connection.cpp:206-217 | with the two tokens exclusive, at most one batch, one frame and one chunk are in any thread's hands |
| Endpoints.LocalStep | src/connection.cpp:86-263 | every critical section at one end keeps token safety, ownership of what is in hand, wakefulness and the per-id books |
| Endpoints.GuardSuffices | src/connection.cpp:86-180 | the conditions the code checks are enough for the data path: no step the code takes finds the hands in a wrong state |
| Endpoints.AwakeStep | include/io/internal/connection.h:55-60 | storing first and notifying later loses no wake-up: every step keeps that sleeping loops have nothing to do or a notify coming |
| WorkToken.TokenSafety | src/connection.cpp:182-263 | over every run: the token count is 0 or 1, two tasks never have loop threads together, nobody is parked on a free token, and once a stop has sent its notifies no thread of its task is parked on any of the three condition variables |
| WorkToken.NobodyGivesUp | src/connection.cpp:190-212 | over every run: a registered task whose stop has not begun is about to look at the token, parked while another task has it, or works with neither loop ended; threads end for their own stop only |
| WorkToken.LookAtToken | src/connection.cpp:191-207 | a look at the token takes it when it is free, also for a stopped task; gives up when it is taken and the task is stopped; waits otherwise |
| WorkToken.OthersUntouched | src/connection.cpp:182-263 | no step of another thread changes anything of a task but waking what is parked |
| WorkToken.NotifiedStopGoesThrough | src/connection.cpp:220-254 | a stop that has sent its notifies waits for at most six steps of its own task's threads, one of which is always enabled, and no step of another thread sets it back |
| WorkToken.StopTakesSixSteps | src/connection.cpp:220-254 | over every run from a notified stop until it joins, other tasks' joins included, its task's threads make at most six steps, and while its start thread has not ended one more is enabled |
| WorkToken.InvStep | src/connection.cpp:182-263 | each step of do_start, do_stop and the loops keeps exclusion, no stranded waiter, the flag bookkeeping and that stops are heard |
| WorkToken.Token.constructor | include/io/internal/connection.h:130-141 | a new connection has a free token and no tasks |
| WorkToken.Token.BeginStart | src/connection.cpp:183-187 | registering the stop flag is the machine's Register step; a flag that is there is kept |
| WorkToken.Token.TryWork | src/connection.cpp:190-208 | one evaluation of the wait for the token: a free token is taken even by a task already stopped, a stopped task gives up on a taken one, any other parks; as the machine's CheckWork step |
| WorkToken.Token.EndWork | src/connection.cpp:213-217 | giving the token back wakes every parked start thread and leaves the recorded holder as it is |
| WorkToken.Token.SendLoopWait | src/connection.cpp:150-164 | one evaluation of the sending loop's wait: the stop flag wins over data |
| WorkToken.Token.RecvLoopWait | src/connection.cpp:95-109 | one evaluation of the receiving loop's wait: the stop flag wins over a whole frame |
| WorkToken.Token.BeginStop | src/connection.cpp:222-228 | setting the flag is the machine's SetFlag step |
| WorkToken.Token.NotifyStopping | src/connection.cpp:230-243 | the last recorded holder's stop wakes the loops, every other stop wakes the start threads |
| WorkToken.Token.EndStop | src/connection.cpp:254-262 | after the join, nothing of the task is left in the flags |
| EpollToken.ServerSafety | src/server.cpp:352-417 | over every run: one thread at most handles events; a free token with a live waiter parked has a woken waiter that will check or a stop that will notify all; the descriptors are open while any successfully started server has not finished its stop; the stop of a server whose start failed included, up to its join |
| EpollToken.NobodyGivesUp | src/server.cpp:352-415 | over every run: a listening thread that has not given the token back and whose stop has not begun waits for the token or has it |
| EpollToken.LookAtToken | src/server.cpp:355-366 | a thread ends only through its own stop or after holding the token; a stopped one takes no token; a live one that looks takes a free token and parks on a taken one; notify_one wakes one thread |
| EpollToken.TokenIsTaken | src/server.cpp:410-415 | the hand-over happens: with the token free and a live thread waiting, two steps of threads on their way put a live thread in charge |
| EpollToken.NotifiedStopEnds | src/server.cpp:472-481 | once a stop has sent its notify its listening thread has ended, or one own step ends it and no other step holds it back |
| EpollToken.OthersUntouched | src/server.cpp:352-521 | no step of another server changes anything of a server but waking its parked thread |
| EpollToken.FailedStartKeepsOpen | src/server.cpp:449-460 | a run in which the only server that started stops with nothing unreceived and the descriptors stay open, because another's start had failed |
| EpollToken.TeardownExactly | src/server.cpp:490-518 | a stop tears down exactly when nothing is unreceived and every other server, including any whose start failed, is gone |
| EpollToken.NoneStrandedStep | src/server.cpp:410-415 | notify_one strands nobody: the thread it wakes looks at the token, or its own stop is still to wake all others |
| EpollToken.InvStep | src/server.cpp:352-521 | every start, check, release and stop keeps exclusion, stops heard, nobody stranded and the reference count |
| EpollToken.Servers.constructor | src/server.cpp:40-44 | the process begins with no descriptors, no listener and no task |
| EpollToken.Servers.Begin | src/server.cpp:446-470 | the first server opens the descriptors; a failure to open them leaves the server counted |
| EpollToken.Servers.TryListen | src/server.cpp:355-366 | one evaluation of the wait of a listening thread: a stopped thread leaves, a live one takes the free token or parks |
| EpollToken.Servers.EndListen | src/server.cpp:411-415 | giving the token back wakes one parked thread |
| EpollToken.Servers.EndStop | src/server.cpp:491-517 | the descriptors are closed by the stop that brings the count to zero with nothing unreceived |
| ClientRegistry.RegistrySafety | src/client.cpp:46-85 | over every run: an address is not both connected and being connected, two clients never dial one address, a successful dial always finds its slot free, nobody is parked on a connection that is there, and a linked client's connection is not closed |
| ClientRegistry.OneConnectionPerAddress | src/client.cpp:53-61 | over every run: clients of one address on connections that can be reused are all on the one registered for it, and a client that comes then is linked to it at once |
| ClientRegistry.BrokenIsKept | src/client.cpp:61-64 | over every run: a broken connection that a client is still on is registered or recycled, never lost |
| ClientRegistry.SharedThenTornDown | src/client.cpp:246-275 | a run in which two clients share a connection, the first close leaves it open and the last tears it down |
| ClientRegistry.OthersUntouched | src/client.cpp:46-275 | no step of another client changes a client but waking it |
| ClientRegistry.OtherAddressesUntouched | src/client.cpp:46-221 | apart from a teardown no step registers, replaces, retires or claims anything for another address |
| ClientRegistry.TeardownExactly | src/client.cpp:250-273 | a close tears down all connections exactly when nothing is unreceived and every other client has closed; no address is pending then |
| ClientRegistry.ServedExactly | src/client.cpp:46-221 | from every reachable state, some continuation links a new client to an address if and only if no connect to that address has failed |
| ClientRegistry.FailureBlocksAddress | src/client.cpp:84-236 | in every run after a failed connect, no client comes to dial or be linked to its address, and a waiter for it never leaves the wait |
| ClientRegistry.FailureOccurs | src/client.cpp:66-236 | a run in which one client's dial fails while another waits for it |
| ClientRegistry.UsableExactly | src/client.cpp:53-82 | in every run, clients are handed only connections that can be reused if and only if no waiter looks again while the connection under its address is broken |
| ClientRegistry.HandOver | src/client.cpp:53-82 | of all ways to be linked only the waiter's can hand over a broken connection, and exactly when it finds one |
| ClientRegistry.BrokenHandedOver | src/client.cpp:68-82 | a run in which a waiter is linked to a connection that broke after it was made |
| ClientRegistry.InvStep | src/client.cpp:46-275 | every step of connect and close keeps single flight, served waiters, open connections and the count |
| ClientRegistry.Registry.Enter | src/client.cpp:46-85 | the first section of connect reuses a connection that can be, otherwise retires it and waits for another's dial or claims the address, as the machine's Connect step |
| ClientRegistry.Registry.Reenter | src/client.cpp:68-82 | a waiter's re-evaluation is the machine's Recheck step |
| ClientRegistry.Registry.Register | src/client.cpp:208-216 | the last section of a successful connect inserts unless an entry is there, releases the address and wakes all |
| ClientRegistry.Registry.CloseAll | src/client.cpp:263-266 | closing one by one closes precisely the registered connections |
| ClientRegistry.Registry.Leave | src/client.cpp:250-273 | the section of close is the machine's Close step |
| ChannelPool.PoolSafety | src/channel.cpp:47-133 | over every run: task ids in the pool are pairwise distinct and disjoint from those being created, one caller at most creates a task, a caller whose task is in the pool is given that very channel, and nobody is parked on a task not being created |
| ChannelPool.StaysInPool | src/channel.cpp:205-213 | over every run a channel stays in the pool, under its task, until it is itself erased |
| ChannelPool.StaysAlive | src/channel.cpp:202-222 | over every run a channel stays alive until it is itself deleted |
| ChannelPool.StaysClaimed | src/channel.cpp:64-126 | over every run a task stays claimed, by the same caller, until that caller puts its channel into the pool |
| ChannelPool.OnlyThat | src/channel.cpp:47-222 | channels enter and leave the pool, and life, only by the step that is for it |
| ChannelPool.OthersUntouched | src/channel.cpp:47-133 | no step of another caller changes a caller but waking it |
| ChannelPool.UniqueExactly | src/channel.cpp:106-126 | in every run: no state has two live channels of one task if and only if no channel is built in it while one of its task is erased from the pool and not yet deleted |
| ChannelPool.BuildTwins | src/channel.cpp:107 | constructing a channel makes twins if and only if a channel of that task is being destroyed |
| ChannelPool.OtherStepsNoTwins | src/channel.cpp:47-222 | no other step makes twins |
| ChannelPool.TwinsAreLeaving | src/channel.cpp:202-222 | of two live channels of one task at least one has left the pool |
| ChannelPool.TwinsOccur | src/channel.cpp:202-222 | a concrete run with two live channels of one task, none of them in the pool |
| ChannelPool.ServedExactly | src/channel.cpp:47-133 | from every reachable state, some continuation gives a new caller a channel of a task if and only if no creation of that task has failed |
| ChannelPool.FailureBlocksTask | src/channel.cpp:106-132 | in every run after a failed creation, nobody comes to create that task or to be given a channel of it, and a waiter for it never leaves the wait |
| ChannelPool.FailureOccurs | src/channel.cpp:106-132 | a run in which one caller fails to create a task while another waits for it |
| ChannelPool.Pool.BeginCreate | src/channel.cpp:49-65 | wait predicate and search: parks, returns the channel found, or claims the task, as the machine's Check step |
| ChannelPool.Pool.EndCreate | src/channel.cpp:120-126 | a new channel enters the pool, its task is released, all waiters are woken |
| ChannelPool.Pool.Remove | src/channel.cpp:205-213 | destroying a channel of the pool takes precisely its entry out, all others stay |
| Sender.PendingStep | src/connection.cpp:141-180 | with one batch in hand at most, each act only appends the encoding of what it puts and takes what the peer reads off the front, unless a batch is given up, and then precisely its unwritten bytes are missing |
| Sender.TwoSendersReorder | src/connection.cpp:162-176 | without the token: a run in which two sending loops put two frames on the wire in the wrong order |
| Receiver.BooksStep | src/connection.cpp:86-125 | with one frame in hand at most, for every id returned ++ stored ++ in hand stays the payloads of the parsed frames of that id |
| Receiver.InboxStep | src/connection.cpp:86-125 | parsed frames plus what is still to be parsed only grow by what arrives |
| Receiver.BalancedStep | src/connection.cpp:75-125 | every act keeps delivered = unreceived + in hand + framing + returned |
| Receiver.NothingUnreceived | src/connection.cpp:75-84 | with nothing in hand, get_unrecv_size is 0 if and only if every delivered byte belonged to a parsed frame and users have every payload byte |
| Receiver.RingStep | src/_internal/cycle_buffer.cpp:206-276 | with one listening thread and one receiving loop, room made and frames seen stay true under the other's sections, and no copy runs without room |
| Receiver.TwoReceiversReorder | src/connection.cpp:93-122 | without the token: a run in which two receiving loops store two payloads of one id in the wrong order |
| Connections.Connection.constructor | src/connection.cpp:28-35 | new rings of 10 MB for receiving and 128 MB for sending mirror the empty sender and receiver |
| Connections.Connection.PutIntoSendBuffer | src/connection.cpp:61-66 | the bytes go behind those already waiting |
| Connections.Connection.Send | src/connection.cpp:68-73 | the send ring grows by the frame's encoding, for every id and payload; on a sendable frame this is the sender's Put |
| Connections.Connection.TakeBatch | src/connection.cpp:165-168 | the batch is all the send ring held, in order, as the sender's Take |
| Connections.Connection.MakeRoom | src/_internal/cycle_buffer.cpp:242 | growing the ring for received bytes is the receiver's Grow, after which the wait for room is over |
| Connections.Connection.CopyIn | src/_internal/cycle_buffer.cpp:252-273 | copying received bytes in, once room was seen, is the receiver's Store |
| Connections.Connection.Write | include/io/internal/connection.h:55-56 | the whole write, undisturbed, is the receiver's Grow, SeeRoom and Store; the bytes go behind those in the ring |
| Connections.Connection.CanTakeFrame | src/connection.cpp:102-104 | looks for a whole frame, as the receiver's See |
| Connections.Connection.TakeFrame | src/connection.cpp:110-111 | the ring loses precisely the frame seen before, whatever was stored behind it since, as the receiver's Parse; no frame leaves an empty id and payload in hand |
| Connections.Connection.StorePayload | src/connection.cpp:113-122 | the payload goes behind what its id has, in a new ring for a new id, and no other id changes, as the receiver's Demux |
| Connections.Connection.Recv | src/connection.cpp:324-340 | a user gets the oldest bytes of the id and no other id changes, as the receiver's Take |
| Connections.Connection.CountRing | src/connection.cpp:76 | the first moment of get_unrecv_size: the bytes in the receive ring |
| Connections.Connection.CountIds | src/connection.cpp:77-82 | the second moment: the loop over all id rings adds up what they hold |
| Connections.Connection.GetUnrecvSize | src/connection.cpp:75-84 | both with nothing in between: what the abstract receiver counts as unreceived |
| Connections.IdBuffers.Demux | src/connection.cpp:115-119 | the bytes stored under one id grow by the payload; all other ids keep theirs |
| Connections.IdBuffers.Recv | src/connection.cpp:324-340 | the first bytes stored under the id are copied out and consumed |
| Connections.IdBuffers.TotalSize | src/connection.cpp:79-81 | the loop adds up the bytes of all ids |
| SocketWrite.Writen | src/connection.cpp:387-416 | for every behaviour of the socket: the stream grows by precisely the prefix of the data that was taken, and the result is that of the reference fate of the behaviour |
| SocketWrite.FullExactly | src/connection.cpp:396-415 | the full length is reported exactly when a prefix of the socket's answers consists of bytes taken and retries and adds up to the length |
| SocketWrite.FateExactly | src/connection.cpp:396-415 | for every behaviour of the socket, by the first answer that ends the write: the full length if all is out before it, an error for a signal or a failure, the bytes out for an unexplained zero |
| SocketWrite.TakenExactly | src/connection.cpp:396-415 | for every behaviour of the socket the bytes out are those taken before the first answer that ends the write, at most all |
| SocketWrite.AnswerIsTaken | src/connection.cpp:396-415 | an answer that is no error is precisely the number of bytes out; the only other answer is -1 |
| SocketWrite.NothingDroppedExactly | src/connection.cpp:170-175 | what the sending loop throws away after a write is nothing if and only if the write reported the full length |
| SocketWrite.InterruptedAfterOneByte | src/connection.cpp:397-404 | one byte of two out, a signal, and the result is an error |
| CycleBuffers.CycleBuffer.constructor | include/io/internal/cycle_buffer.h:46 | an empty queue of the given capacity |
| CycleBuffers.CycleBuffer.Reset | src/_internal/cycle_buffer.cpp:39-43 | empties the queue, keeps the memory |
| CycleBuffers.CycleBuffer.Size | include/io/internal/cycle_buffer.h:41 | the number of bytes in the queue |
| CycleBuffers.CycleBuffer.CanReadBytes | src/_internal/cycle_buffer.cpp:45-48 | true exactly when that many bytes are in the queue |
| CycleBuffers.CycleBuffer.Peek | src/_internal/cycle_buffer.cpp:72-88 | copies the oldest bytes, consumes nothing, for every position of the window on the ring |
| CycleBuffers.CycleBuffer.Read | src/_internal/cycle_buffer.cpp:181-203 | pops the oldest bytes |
| CycleBuffers.CycleBuffer.Realloc | src/_internal/cycle_buffer.cpp:206-236 | the queue is unchanged; afterwards there is room; capacity is as Grown says |
| CycleBuffers.CycleBuffer.CopyIn | src/_internal/cycle_buffer.cpp:252-273 | appends, when there is room |
| CycleBuffers.CycleBuffer.Write | src/_internal/cycle_buffer.cpp:239-276 | appends, for every length |
| CycleBuffers.CycleBuffer.CanReadFrame | src/_internal/cycle_buffer.cpp:93-117 | decides CanRead on the queue, also when the length field passes the end of the ring |
| CycleBuffers.CycleBuffer.ReadFrame | src/_internal/cycle_buffer.cpp:119-164 | takes off precisely the frame that ParseFront finds at the front; otherwise changes nothing |
| CycleBuffers.Grown | src/_internal/cycle_buffer.cpp:208-213 | growing at least doubles and makes the write fit: length + n < new capacity <= length + 2n |
| CycleBuffers.GrownIsMultiple | src/_internal/cycle_buffer.cpp:213 | the new capacity is a multiple of the old, and the only one within those bounds |
| Growth.GrowthIsPaidFor | src/_internal/cycle_buffer.cpp:206-250 | over every run of writes and reads, capacity is at most the larger of the initial one and three times the peak occupancy, and all reallocations together move at most the capacity they add |
| Growth.MeteredWrite | src/_internal/cycle_buffer.cpp:239-276 | a write of the ring changes capacity, occupancy and bytes moved as the meter of GrowthIsPaidFor says |
| Growth.MeteredRead | src/_internal/cycle_buffer.cpp:166-204 | so does a read |
| PhasedRing.PhasesLinearise | src/_internal/cycle_buffer.cpp:166-276 | in every interleaving with one writer and one reader at a time, no copy runs without its guard, and the completed operations replayed on an atomic queue give the same results and contents, with reallocations between a reader's two sections |
| PhasedRing.InvStep | src/_internal/cycle_buffer.cpp:166-276 | what one side's guard established survives every step of the other side |
| PhasedRing.ParseStable | src/_internal/cycle_buffer.cpp:93-164 | a frame seen at the front is the frame found there however much is appended |
| PhasedRing.TwoWritersFault | src/_internal/cycle_buffer.cpp:242-270 | a run in which two writers both see the last free byte and the second copies without room |
| PhasedRing.TwoReadersFault | src/_internal/cycle_buffer.cpp:169-199 | a run in which two readers both see the only byte |
| Framing.FrameRoundTrip | include/io/internal/simple_buffer.h:34-45 | the reader returns the frame built, whatever follows it, if and only if the id has at most 254 bytes, id and payload are not both empty and the length fits 64 bits |
| Framing.ParsedIsSendable | src/_internal/cycle_buffer.cpp:119-164 | on any bytes, a frame the reader takes meets these conditions |
| Framing.ParsedIsEncoding | src/_internal/cycle_buffer.cpp:119-164 | on any bytes, a frame the reader takes is one whose encoding it consumed |
| Framing.TakesExactly | src/_internal/cycle_buffer.cpp:119-164 | on any bytes the reader takes a frame if and only if they begin with the encoding of a sendable one |
| Framing.UnsendableFrames | src/_internal/cycle_buffer.cpp:93-164 | concrete frames that do not survive: an entirely empty one, and one with an id of 255 bytes |
| Framing.ParsePrefix | src/_internal/cycle_buffer.cpp:93-164 | on any prefix of a stream of sendable frames can_read holds exactly when the first frame is there whole; the reader then takes it and leaves a prefix of the rest |
| Framing.StreamRoundTrip | src/connection.cpp:86-111 | for every list of sendable frames and every chunking: frames out are a prefix of those sent, the leftover is exactly the rest of what was delivered, and after the last byte every frame is out |
| Framing.StreamExactly | src/connection.cpp:86-111 | of any list of frames, delivered whole in any chunks, the parser gives back that very list if and only if every frame is sendable |
| Framing.SimpleBuffer.constructor | include/io/internal/simple_buffer.h:34-45 | the buffer filled piece by piece is the frame's encoding |
| Framing.EncodeShape | include/io/internal/simple_buffer.h:34-42 | where the fields lie: total length in bytes 0 to 7, id length plus one in byte 8, then the id, then the payload |
| Bytes.U64RoundTrip | include/io/internal/simple_buffer.h:39 | the eight bytes of a length, read back, give the length |
| Bytes.LittleEndianAt | include/io/internal/simple_buffer.h:39 | byte i of a length on the wire is its i-th digit to base 256, least significant first |
| Bytes.LittleEndianOf | src/_internal/cycle_buffer.cpp:131-139 | every byte string is the encoding of the number it is read as |
| HexIds.GetBinaryString | src/io_channel_impl.cpp:42-49 | the loop computes the byte string of an id, odd lengths included |
| HexIds.GetHexBuffer | include/io/internal/helper.h:32-46 | the loop prints at most 128 bytes and three dots for the rest |
| HexIds.HexChar | include/io/internal/helper.h:24-30 | the printed digit is lower case and reads back as its value |
| HexIds.DigitValues | src/io_channel_impl.cpp:27-36 | digits count from 0 and letters of either case from 10, in their order; all other characters count 0 |
| HexIds.PackIsOr | src/io_channel_impl.cpp:38-40 | the byte of two characters is, bit by bit, the first value shifted left by four or-ed with the second, letters beyond f included |
| HexIds.PrintedLength | include/io/internal/helper.h:32-46 | the text has two characters a byte for at most 128 bytes, and three more for a longer one |
| HexIds.PrintedRoundTrip | src/io_channel_impl.cpp:42-49 | decoding inverts printing if and only if the byte string has at most 128 bytes, or has 129 and ends in zero |
| HexIds.SameStreamExactly | src/io_channel_impl.cpp:123-149 | two hexadecimal ids of even length denote the same stream if and only if they are equal up to the case of letters |
| HexIds.LowerCaseIdsDistinct | src/io_channel_impl.cpp:123-149 | distinct lower-case ids of even length, of any length, never share a stream |
| HexIds.Collisions | src/io_channel_impl.cpp:27-49 | concrete ids that collide: other case, odd length, letters beyond f, other characters |
| Config.RolePartition | src/_internal/config.cpp:330-366 | the three lists are disjoint by id, hold together the ids they held before; an id is found exactly when listed and known, and then its primary role names the list that holds it and is not invalid |
| Config.WhoHolds | src/_internal/config.cpp:351-366 | which list an id ends up in: compute wins over data, data over result |
| Config.WhoIsPrimary | src/_internal/config.cpp:140-160 | the primary role of every id, in terms of the lists configured |
| Config.NodesFromInfo | src/_internal/config.cpp:240-306 | every node in the lists is the one the node information has for its id |
| Config.WithoutNodesOrder | src/_internal/config.cpp:351-366 | erasing keeps the order of the nodes that stay |
| Config.WithoutNodesCount | src/_internal/config.cpp:351-366 | a node stays with all its copies or goes with all of them, by its id alone |
| Config.WithoutOrder | src/_internal/config.cpp:334-349 | erasing ids keeps their order |
| Config.WithoutCount | src/_internal/config.cpp:334-349 | an id stays with all its copies or goes with all of them |
| Config.KnownOrder | src/_internal/config.cpp:247-255 | nodes looked up come in the order of their ids |
| Config.KnownCount | src/_internal/config.cpp:247-255 | each as often as its id is listed, if it has node information, otherwise not |
| Config.LessExactly | src/channel.cpp:238 | an id comes before another exactly when it is a proper prefix or has the smaller character at the first difference |
| Config.InsertKeeps | src/_internal/config.cpp:267-271 | one insertion keeps the order and the value that is there |
| Config.InsertAllKeeps | src/_internal/config.cpp:267-271 | the map of computation nodes is in the order of the ids, and its entries are precisely the first members of their names |
| Config.NamesKept | src/_internal/config.cpp:267-271 | the ids in the map are precisely the names configured |
| Config.InfoKeyed | src/_internal/config.cpp:224-233 | node information is filed under the node's own id |
| Config.InfoIsFirst | src/_internal/config.cpp:224-233 | the node information of an id is the first entry with that id, and there is some exactly when there is such an entry |
| Config.ChannelConfig.constructor | src/_internal/config.cpp:219-366 | parsing the lists and erasing in place gives the derived roles |
| Config.ChannelConfig.ParseNodeInfo | src/_internal/config.cpp:224-233 | the first entry for an id counts |
| Config.ChannelConfig.Lookups | src/_internal/config.cpp:247-255 | ids without node information are skipped |
| Config.ChannelConfig.ParseCompute | src/_internal/config.cpp:267-281 | the loop builds that map: ids ascending, precisely those configured; the node list follows it |
| Config.ChannelConfig.EraseIds | src/_internal/config.cpp:334-349 | the in-place loop removes precisely the ids of the other lists |
| Config.ChannelConfig.EraseNodes | src/_internal/config.cpp:351-366 | the in-place loop removes precisely the nodes whose id another list has |
| Config.ChannelConfig.ProcessNodeType | src/_internal/config.cpp:330-366 | the four loops together give the derived roles |
| Config.ChannelConfig.GetPrimaryNodeType | src/_internal/config.cpp:140-160 | the three searches decide the primary role |
| Config.ChannelConfig.GetNode | src/_internal/config.cpp:162-182 | finds the node in the first list that has the id; Missing stands for the exception |
| Topology.DialListenAgreement | src/channel.cpp:234-288 | for two adjacent nodes of a shared configuration, one dials and the other expects it if and only if one of the two ports is positive; with none, both dial |
| Topology.WhoDials | src/channel.cpp:238-242 | of two adjacent nodes the one without a positive port dials the one with; of two with positive ports the one whose id comes first dials; two without both dial |
| Topology.DialledListens | src/channel.cpp:238 | whoever a node with a positive port dials has one too |
| Topology.WhoIsAdjacent | src/channel.cpp:234-288 | two listed nodes are peers of each other exactly when they differ and at least one of them computes |
| Topology.ListsApart | src/net_io.cpp:55-71 | no peer is both dialled and expected, and a node is neither for itself |
| Topology.ThreadDialsItsPeer | src/net_io.cpp:92-148 | a connecting thread whose id is one to dial finds that very peer at its own index, in range |
| Topology.DeriveInfos | src/channel.cpp:224-289 | the loops over the role's peer lists give the decision whose dialling rule WhoDials spells out, in the order of PeersInOrder; unknown nodes are refused |
| Topology.DecisionIsInfos | src/channel.cpp:224-289 | every node listed in a shared configuration decides on the lists that the agreement is about, any other id is refused |
| Topology.ExpectedIds | src/net_io.cpp:55-70 | the ids waited for are those of the servers, then those of the clients |
| Topology.DerivedOrder | src/channel.cpp:234-288 | both lists keep the order in which the peers are gone through |
| Topology.DerivedCount | src/channel.cpp:234-288 | every peer is in one of the two lists as often as among the peers, and in no other way |
| Topology.PeersInOrder | src/channel.cpp:234-288 | the peers come in the order data, compute, result |
| Topology.DerivedHas | src/channel.cpp:238-242 | a node is in one of the lists exactly when it is a peer, and in which one is decided by the rule that WhoDials spells out |

## Left out

- Links.TeardownLosesOnlyPending: the count that a stop uses is at least that of this connection at the moment of its last section; that it is read in two moments is the matter of Links.TwoMoments. What the teardown itself still flushes from its own send buffer is not modelled.
- Links.RendezvousHolds: counts starts and stops per task; that a task's peer is ever started is a matter of liveness.
- WorkToken.TokenSafety: ids of live tasks are distinct, a task is stopped once and after its start returned; a retry of `put_connection` in which the connection turned unusable in between could start a task twice (src/server.cpp:55-74).
- EpollToken.ServerSafety: the join in the stop of a server whose start failed has no thread to wait for; what the error it raises leads to is not modelled.
- CycleBuffers.Grown: ring sizes are unbounded integers; the stated bound shows that the 64-bit product does not wrap while length + 2n fits in 64 bits.
- Sockets, epoll calls, accept and the exchange of node ids, DNS: the network is a reliable byte stream per direction, read in pieces of at most 8192 bytes.
- SSL connections, and a handshake that fails after the client was marked connected.
- The `USE_EMP_IO` branches, JSON parsing (the model starts from parsed lists), logging, timers, statistics.
- Paths that close a connection while its loops run (errors, end of file), and `flush_send_buffer`.
- Time-outs: `recv` looks at the clock only before an untimed wait, so none is stated.
- Liveness of the whole system; `Connection::stop` waits for the peer while it holds its task lock.
- Threads: interleavings of critical sections are step machines over values; the classes give each critical section in memory. Blocking waits of the ring buffer and of `recv` appear as preconditions of these methods. The frame reader's size test before it takes the lock is part of the section that takes the frame.
- One connection per pair of endpoints: an endpoint's epoll token is its process's token seen from that connection.
- The sum over connections in the servers' and clients' own `get_unrecv_size` is a parameter of stop and close; for a connection it is at least that connection's.
- Malformed frames: sizes that underflow, and the exceptions or reads beyond the frame that follow, are one outcome that takes nothing.
- Release of memory; allocation failures; the host is little-endian.
- Encoding and decoding of node id vectors and maps and the cached getters of a channel.
- Destroying a handle that is not in the pool, which the code does not guard against.
