# A verified model of the io_uring server runtime

The runtime is a C++23 server library on io_uring. Its difficult parts are small protocols whose
steps are driven by kernel completions or by several threads. This project models eleven of them
in Dafny and proves what each keeps over every run.

The kernel, the network and the application are environments. An operation that was submitted is
answered by any completion the kernel may give, in any order; a submission may be refused; a
callback may call back into the object that runs it. Where threads share an object, each atomic
step of the source is one method, and between any two steps of a thread the others take any number
of theirs. Steps are sequentially consistent.

| File | Models |
|---|---|
| `Session.dfy`, `SendQueue.dfy` | a connection: scatter/gather sends with partial completions, backpressure, paused reading, closing after a flush, and the count of outstanding operations that gates its release |
| `MpscQueue.dfy` | the lock-free queue with many producers, one consumer and a recycled stub node |
| `JobQueue.dfy` | the serialized job queue and its entries in the global queue |
| `RadixTree.dfy` | the route tree: splitting a path, registering, and matching with backtracking |
| `PacketSession.dfy` | the packet stream: reassembly buffer, fast and slow path, packet builder |
| `WebSocket.dfy`, `FrameStream.dfy` | the WebSocket frame codec (sections 5.2 and 5.3 of RFC 6455), and reading frames from a stream of chunks for any decoder with stable answers |
| `Proxy.dfy`, `ProxyConnector.dfy` | the proxy's byte bridge and the race between connect, timeout and cancel |
| `Upload.dfy` | an upload written by positioned writes that complete in any order |
| `BufferPool.dfy` | the chunked send-buffer allocator |
| `Wake.dfy` | posting tasks to a ring from other threads and waking its owner |

A class stands for a class of the source; its `Valid()` (for a session `Boundary()` between events
and `Mid()` while a callback may run) is the invariant, and its `Run` takes any number of events.
Ghost fields record histories: the bytes accepted and acknowledged, the values pushed and popped,
the tasks run.

## Where the code does not do what one would expect

Each of these is stated with the exact condition under which the property holds.

- Closing after a flush (`Sessions.Session.DisconnectAfterFlush`,
  `Sessions.Session.TryDisconnectAfterFlush`): when the close starts, every accepted byte is
  acknowledged if the send queue has no send cycle registered. If it has one, a batch has been
  drained from the queue and not yet submitted, and its bytes are lost. A callback can ask for the
  close in that window (`Sessions.CloseRequestedInsideDrainWindow`); between events it cannot happen.
- Wildcard capture (`Routes.WildcardCapture`): it is the path from the first segment the wildcard
  covers to the end, unless the path ends in a slash; then it is defined for the final segment only.
- WebSocket frames after a close frame or a refused reply (`WebSocket.CuttingMattersExactly`): what
  is read depends on how the stream was cut exactly if a complete frame follows the close frame and
  the session postponed the close because it had something to flush, or if one follows a frame whose
  reply was refused for want of a buffer or of room in the send queue. After a refusal the chunk is
  read to its end, the pings in it are not answered, and no later chunk is delivered.
- Packet handlers that resume a session (`PacketSessions.PacketSession.ReadChunk`,
  `PacketSessions.CutsInExactly`): with chunks kept back a handler cuts in exactly if it resumes
  before the chunk is used up, or while its packet is in the buffer. Then the chunk delivered inside
  the handler is read before the rest of this one (`PacketSessions.EmittedEarly`), or the packet is
  emitted again and taken off the buffer twice, which can break the buffer
  (`PacketSessions.EmittedTwice`). It takes a handler that resumes and a session that was paused
  (`PacketSessions.CutInNeedsBoth`), and there are such runs (`PacketSessions.CutInReached`).
- The proxy's pending chunks (`ProxyBridges.ProxyBridge.AttachUpstream`): they are handed over in
  order, whatever the sessions do, exactly if the downstream keeps nothing back, cannot be resumed, or
  at most one chunk is pending. Otherwise an upstream that reports the end of backpressure when it is
  sent the first chunk lets what was kept back overtake the others (`ProxyBridges.FlushOvertaken`,
  and from the start `ProxyBridges.OutOfOrder`). With one session per role it never happens.
- A second session attached to an open pair (`ProxyBridges.ProxyBridge.AttachDownstream`,
  `ProxyBridges.ProxyBridge.AttachUpstream`): exactly the session it replaces is not told when the
  pair closes (`ProxyBridges.StrayIsNotTold`).
- Live connector count (`ProxyConnectors.ProxyConnector.Cancel`): it stays right exactly if the
  connector is still in the worker's table; one whose start failed while the stopping server held it
  is taken off the count twice (`ProxyConnectors.CancelledAfterFailedStart`).
- Buffer pool (`BufferPools.BufferPool.MoveToFree`): putting a chunk aside is safe exactly if the
  chunk has no live buffer at that moment, which the code does not look at. The reports of unused
  chunks stay true exactly if no request is served from a chunk whose report is under way
  (`BufferPools.BufferPool.Serve`, `BufferPools.ReusedWhileLive`), which cannot happen if each report
  follows its drop at once (`BufferPools.BufferPool.Run`). A request is safe exactly if the
  32-bit sum of fill mark and size does not wrap into the chunk, and leaves a chunk without a buffer
  exactly if it is larger than a chunk and one was acquired for it.
- Waking the owner: the guarantee needs a poll the kernel has accepted
  (`RingLoop.ForgottenWithoutPoll`) and covers the tasks of other threads; a task the owner posts to
  itself before it waits wakes nobody (`RingLoop.SelfPostWaits`).

## Model

| member | source | states |
|---|---|---|
| `SendQueues.SendQueue.Push` | include/iouring_runtime/core/SendQueue.h:37-56 | a buffer is refused exactly when the queue is full; otherwise it is appended, the byte count stays the sum of the sizes, and the caller must register exactly if no send cycle is running |
| `SendQueues.SendQueue.DrainInto` | include/iouring_runtime/core/SendQueue.h:81-103 | what is taken followed by what is left is what was queued, up to the maximum, with the byte count kept exact |
| `SendState.GatherIoVecs` | src/runtime/io/SessionSend.cpp:146-171 | the vectors built over a batch describe exactly the bytes of its buffers |
| `SendState.Requested` | src/runtime/io/SessionSend.cpp:51-115 | the sum of the vector lengths is the number of bytes not sent yet |
| `SendState.AdvanceSendState` | include/iouring_runtime/core/SessionDetail.h:15-32 | after a partial completion exactly the unsent suffix is left, finished buffers are dropped, and the front vector is not empty |
| `Sessions.Session.SendOnOwner` | src/runtime/io/SessionSend.cpp:35-49 | an open session accepts the bytes at the end of the stream, or closes because the queue is full; a closing one refuses them and changes nothing; left alone by the application, with a kernel that takes every submission, it stays open unless the bytes cross a high watermark that is to end it |
| `Sessions.Session.RegisterSend` | src/runtime/io/SessionSend.cpp:117-127 | queued bytes get a send in flight, and nothing drained is lost |
| `Sessions.Session.SendBatch` | src/runtime/io/SessionSend.cpp:129-144 | a drained batch is submitted or the session is no longer open: the guard against a second send in flight never drops one |
| `Sessions.Session.OnSend` | src/runtime/io/SessionSend.cpp:51-115 | a completion of n bytes acknowledges exactly the next n; a partial one leaves exactly the rest in flight; an error closes; the invariant between events is kept; left alone, the session closes exactly if it was to close after the flush, and the end of backpressure delivers what was kept back and arms the receive |
| `Sessions.Session.UpdateBackpressure` | src/runtime/io/SessionSend.cpp:192-226 | afterwards backpressure is active only above the low watermark with bytes queued, inactive only below the high one, and the application has been told, although its callback may send, pause, resume or close; left alone, the watermarks alone decide, its beginning pauses reading and its end resumes it |
| `Sessions.Session.DisconnectOnOwner` | src/runtime/io/Session.cpp:122-164 | closing starts once with the shutdown and the cancel of an armed receive handed to a willing kernel, its operations are counted, and a session that waits for nothing is released at once |
| `Sessions.Session.TryRelease` | src/runtime/io/Session.cpp:276-291 | OnDisconnected runs exactly when a closing session has no operation and no application work outstanding |
| `Sessions.Session.OnRecv` | src/runtime/io/Session.cpp:166-260 | received bytes are delivered or queued behind a pause in order, an ended receive is counted, and the invariant between events is kept; left alone, the chunk goes to the application or to the backlog, and a good completion closes the session exactly if it overflows the backlog |
| `Sessions.Session.HoldBack` | src/runtime/io/Session.cpp:451-468 | bytes for a paused session join the backlog exactly if they fit under the limit, otherwise the session closes |
| `Sessions.Session.DrainPausedRecv` | src/runtime/io/Session.cpp:470-477 | the backlog is delivered in order until it is empty, reading is paused again, or the session closes |
| `Sessions.Session.ResumeRecv` | src/runtime/io/Session.cpp:396-405 | left alone, an open session delivers everything kept back, in order, and has an armed receive; with calls from the application in between, one that is not paused afterwards has no backlog and, if it is started, an armed receive |
| `Sessions.Session.RegisterRecv` | src/runtime/io/Session.cpp:293-314 | a receive is armed and counted, or the session closes |
| `Sessions.Session.EndAppIo` | src/runtime/io/Session.cpp:379-385 | the end of application work starts the postponed close exactly if nothing is in flight, queued or pending, or may release the session |
| `Sessions.Session.Tick` | src/runtime/io/Session.cpp:316-354 | left alone, an open session closes exactly if it is inactive without application work or the delay after a crossed watermark is over, and the application has not handled the timeout |
| `Sessions.Session.DisconnectAfterFlush` | src/runtime/io/Session.cpp:114-120 | the close starts now exactly if nothing is in flight, queued or pending in the application; then every accepted byte is acknowledged if no send cycle is registered, and if one is, a drained batch is what is missing |
| `Sessions.Session.TryDisconnectAfterFlush` | src/runtime/io/Session.cpp:440-449 | when it closes, every accepted byte is acknowledged if no send cycle is registered; a registered one means a batch between drain and submit, whose bytes are missing |
| `Sessions.Session.Run` | src/runtime/io/Session.cpp:31-54 | over every run the state moves forward only, OnDisconnected has run once exactly if the session is closed, nothing is outstanding then, and a closing session still waits for something |
| `Sessions.NothingLost` | src/runtime/io/SessionSend.cpp:35-171 | between events acknowledged, in-flight and queued bytes are all accepted bytes, and delivered and paused bytes are all received ones, in order |
| `Sessions.BackpressureCannotDeadlock` | src/runtime/io/SessionSend.cpp:173-226 | with low watermarks below the high ones, queued bytes mean a send in flight, and reading paused by backpressure has a completion coming that can resume it |
| `Sessions.CloseRequestedInsideDrainWindow` | src/runtime/io/SessionSend.cpp:35-144 | the steps of one send in which the backpressure callback asks for the close: it starts with the accepted byte unacknowledged, and afterwards the byte is neither queued, held nor in flight |
| `Mpsc.MpscQueue.Exchange` | include/iouring_runtime/core/MpscQueue.h:106-109 | the exchange appends the value to the queue's order and leaves one link owed |
| `Mpsc.MpscQueue.Link` | include/iouring_runtime/core/MpscQueue.h:106-109 | the owed link is written into a node that is still queued, never into a freed one |
| `Mpsc.MpscQueue.Pop` | include/iouring_runtime/core/MpscQueue.h:65-104 | the oldest value is taken, and the node freed is one to which no producer owes a write |
| `Mpsc.MpscQueue.RecycleStub` | include/iouring_runtime/core/MpscQueue.h:65-104 | the stub rejoins the chain behind the last node and is never queued twice, with producers running in between |
| `Mpsc.MpscQueue.TryPop` | include/iouring_runtime/core/MpscQueue.h:65-104 | the value returned is the next in exchange order; it fails only if the queue was empty, a link into or out of its first value was owed, or that value was the last node and a push began behind it |
| `Mpsc.MpscQueue.Drain` | include/iouring_runtime/core/MpscQueue.h:54-62 | the handler sees the next values in exchange order, and all of them if the producers are quiet |
| `Mpsc.PopKeeps` | include/iouring_runtime/core/MpscQueue.h:65-104 | dropping a head whose link is written leaves a well-linked chain in which nobody owes the head a write |
| `Mpsc.LinkKeeps` | include/iouring_runtime/core/MpscQueue.h:106-109 | paying an owed link keeps the chain well linked |
| `Mpsc.ExchangeKeeps` | include/iouring_runtime/core/MpscQueue.h:106-109 | an exchange keeps the chain well linked but for the one link it owes |
| `JobQueues.JobQueue.Append` | src/runtime/job/JobQueue.cpp:10-18 | the job becomes visible at the end of the queue; only the pusher that raised the counter from zero goes on to register |
| `JobQueues.JobQueue.GiveBack` | src/runtime/job/JobQueue.cpp:41-47 | the jobs not run return to the front, before those appended meanwhile |
| `JobQueues.JobQueue.Lower` | src/runtime/job/JobQueue.cpp:49-54 | the counter goes down by the jobs run and never below zero; at zero the executor leaves with nothing left behind |
| `JobQueues.JobQueue.RunBatch` | src/runtime/job/JobQueue.cpp:33-39 | the jobs run are the first of the batch, at least one if there is one and all of them if the deadline does not pass, with other threads running in between |
| `JobQueues.JobQueue.ExecuteRound` | src/runtime/job/JobQueue.cpp:24-66 | a round that finds jobs runs at least one, whatever the deadline, and all it found if the deadline does not pass, and keeps the protocol's invariant |
| `JobQueues.JobQueue.Run` | src/runtime/job/JobQueue.cpp:10-66 | over every run there is one executor at most, a queue with jobs is never forgotten, and the jobs run are the first appended, each once and in order |
| `JobQueues.JobQueue.TokenHolder` | src/runtime/job/GlobalQueue.cpp:5-17 | visible jobs mean that somebody holds the right to run them: a first pusher, a registration, a global-queue entry or an executor |
| `Routes.InsertUpdates` | src/modules/web/RadixTree.cpp:163-206 | registering a path changes the entry of its own shape and method and no other |
| `Routes.TreeKeepsLatest` | src/modules/web/RadixTree.cpp:152-206 | the tree holds for every shape and method the latest registration |
| `Routes.TreeKeepsFirstName` | src/modules/web/RadixTree.cpp:163-206 | a parameter or wildcard keeps the name its first registration gave it |
| `Routes.SearchFinds` | src/modules/web/RadixTree.cpp:229-293 | the shape the search stops at matches the path and has a handler |
| `Routes.SearchIsBest` | src/modules/web/RadixTree.cpp:229-293 | if any shape matches, one is found, and none that matches comes before it in the order static, parameter, wildcard at the first difference |
| `Routes.SearchSelects` | src/modules/web/RadixTree.cpp:229-293 | for any registrations, the search finds the best registered shape, or none matches |
| `Routes.ExistsMeansAnswered` | src/modules/web/RadixTree.cpp:229-293 | the path exists exactly if some registered shape matches it under some method |
| `Routes.ReportedIsLeastSpecific` | src/modules/web/RadixTree.cpp:229-293 | the table of methods reported with a 405 is that of the least specific matching shape |
| `Routes.ReportedIsFlat` | src/modules/web/RadixTree.cpp:229-293 | for any registrations, a table is reported exactly if the path exists, and it holds the latest entries of the least specific known shape |
| `Routes.CapturesAreFlat` | src/modules/web/RadixTree.cpp:229-293 | the captures collected on the way down are those the flat list of registrations names |
| `Routes.CapturesAreSegments` | src/modules/web/RadixTree.cpp:229-293 | for a shape that matches, every name has its capture in order: a parameter the text of its segment, empty exactly for the final segment of a path ending in a slash, a wildcard the rest of the path |
| `Routes.KindOfSegment` | src/modules/web/RadixTree.cpp:163-206 | a registered segment is a parameter or a wildcard exactly if it is a name after a colon or an asterisk; nothing follows a wildcard |
| `Routes.MatchNode` | src/modules/web/RadixTree.cpp:229-293 | the backtracking search with its shared result and parameter stack computes what the search function finds, and restores the stack when it fails |
| `Routes.SplitPathView` | src/modules/web/RadixTree.cpp:124-150 | a path is cut into its maximal runs without a slash, and an empty segment for a final slash |
| `Routes.SplitPath` | src/modules/web/RadixTree.cpp:100-122 | a registered path is cut into the same runs |
| `Routes.RunsAreMaximal` | src/modules/web/RadixTree.cpp:100-150 | the runs are non-empty, free of slashes, in order, separated by slashes, and reach the end of a path that does not end in one |
| `Routes.RunIsDelimited` | src/modules/web/RadixTree.cpp:100-150 | a run starts at the beginning or after a slash, and ends at a slash or with the path |
| `Routes.RunsKeepText` | src/modules/web/RadixTree.cpp:100-150 | the runs together are the path without its slashes |
| `Routes.EstimateSegmentCount` | src/modules/web/RadixTree.cpp:7-28 | the estimate is the exact number of segments of a request path |
| `Routes.WildcardCapture` | src/modules/web/RadixTree.cpp:276-293 | a wildcard captures the path from its first segment to the end exactly if the path does not end in a slash |
| `Routes.RadixTree.Register` | src/modules/web/RadixTree.cpp:152-161 | the tree stands for its registrations in order, the root path included |
| `Routes.RadixTree.Match` | src/modules/web/RadixTree.cpp:208-227 | the entry is the latest one of the best matching shape; each parameter of the shape captures its own segment of the path, between two slashes, and a wildcard the tail, under the name first registered; there is no entry only if no shape matches; path existence is exact, and without an entry the methods reported are those of the least specific known shape |
| `RecvBuffers.RecvBuffer.Append` | include/iouring_runtime/core/RecvBuffer.h:27-35 | bytes are added at the end, compacting if need be; it fails exactly if they do not fit beside what is unread, and then loses nothing |
| `RecvBuffers.RecvBuffer.Compact` | include/iouring_runtime/core/RecvBuffer.h:57-64 | the unread bytes move to the front unchanged |
| `RecvBuffers.RecvBuffer.OnRead` | include/iouring_runtime/core/RecvBuffer.h:49-55 | exactly the bytes read leave the buffer, which is broken exactly if there are fewer |
| `Packets.Build` | include/iouring_runtime/game/PacketBuilder.h:18-51 | a buffer is built exactly if one is to be had and the payload is not too large, and holds the frame of the packet |
| `Packets.ParseAppend` | src/modules/game/PacketSession.cpp:90-134 | reading a stream in two parts is reading it whole, and an invalid header is final |
| `Packets.ParseStream` | src/modules/game/PacketSession.cpp:90-134 | the packets of a stream of frames are the packets framed |
| `PacketSessions.PacketSession.CompleteBufferedPacket` | src/modules/game/PacketSession.cpp:50-88 | the slow path completes exactly the buffered packet, keeps an incomplete one, or meets an invalid header; its buffer never overflows |
| `PacketSessions.PacketSession.OnRecv` | src/modules/game/PacketSession.cpp:90-134 | a chunk, and those kept back if a handler resumes at its end, have the effect of delivering them in order; with nothing kept back no handler cuts in |
| `PacketSessions.PacketSession.ReadChunk` | src/modules/game/PacketSession.cpp:90-134 | a chunk emits exactly the packets it completes and keeps the incomplete rest; an invalid header closes the session; a handler cuts in exactly if chunks are kept back and it resumes the open session before the chunk is used up or while its packet is in the buffer |
| `PacketSessions.PacketSession.OnPacket` | src/modules/game/PacketSession.cpp:125-128 | a handler that resumes an open session with chunks kept back reads on, in place or cutting in, and no other does |
| `PacketSessions.CutsInExactly` | src/modules/game/PacketSession.cpp:90-134 | among the handlers of a chunk one cuts in exactly if chunks are kept back and some handler resumes too early |
| `PacketSessions.PacketSession.DrainPausedRecv` | src/runtime/io/Session.cpp:470-477 | delivering what was kept back with handlers that deliver inside has the effect of one delivery after the other |
| `PacketSessions.PacketSession.Feed` | src/modules/game/PacketSession.cpp:90-134 | however the stream is cut and whenever the session is paused, resumed or closed, the packets are those of the stream delivered so far and what arrived was delivered or is kept back, unless a handler cuts in; the run is the one the value model computes |
| `PacketSessions.CourseKeeps` | src/modules/game/PacketSession.cpp:50-134 | over every run in which no handler cuts in the packets emitted are those of the bytes delivered, and chunks are kept back only while the session is paused |
| `PacketSessions.CutInNeedsBoth` | src/runtime/io/Session.cpp:387-405 | a run in which a handler cuts in has a handler that resumes and a session that was paused |
| `PacketSessions.CutInReached` | src/runtime/io/Session.cpp:387-405 | a run with two chunks kept back in which a handler cuts in exactly if something follows its packet |
| `PacketSessions.RoundTrip` | src/modules/game/PacketSession.cpp:50-134 | any packets that can be built, framed and cut anywhere, come out as they went in unless a handler cuts in; none does if no handler resumes or the session is never paused; nothing but the application closes the session |
| `PacketSessions.EmittedTwice` | src/modules/game/PacketSession.cpp:82-87 | for every packet and every chunk with valid headers: the chunk delivered inside the handler emits the packet again, and the second removal breaks the buffer exactly if less than the packet is left of the chunk |
| `PacketSessions.EmittedEarly` | src/modules/game/PacketSession.cpp:125-128 | for every packet, rest and chunk with valid headers: the chunk delivered inside the handler is read before the rest |
| `WebSocket.MaskedTwice` | app/activity-server/src/ActivitySession.cpp:702-707 | masking twice with one key gives the payload back |
| `WebSocket.MaskedBits` | app/activity-server/src/ActivitySession.cpp:702-707 | byte k of a masked payload has exactly the bits in which byte k of the payload and byte k mod 4 of the key differ |
| `WebSocket.BeToBe` | app/activity-server/src/ActivitySession.cpp:682-689 | a length written big-endian reads back |
| `WebSocket.DecodeEncode` | app/activity-server/src/ActivitySession.cpp:668-708 | decoding undoes encoding for every opcode below 16 in all three length forms, masked or not, leaves what follows, and refuses more than 1 MiB |
| `WebSocket.DecodeAppend` | app/activity-server/src/ActivitySession.cpp:668-708 | later bytes change neither a complete frame nor a refusal |
| `WebSocket.DecodeIsStable` | app/activity-server/src/ActivitySession.cpp:668-708 | the decoder's answers do not depend on later bytes, and a frame reads from its own bytes alone |
| `FrameStreams.ScanAppend` | app/activity-server/src/ActivitySession.cpp:668-722 | reading on from the rest is reading the whole; a close frame or an oversized one is final |
| `FrameStreams.ChunksDoNotMatter` | app/activity-server/src/ActivitySession.cpp:668-722 | the frames read do not depend on how the stream is cut, unless a frame follows a postponed close or a refused reply |
| `FrameStreams.ChunksMatterAfterClose` | app/activity-server/src/ActivitySession.cpp:710-713 | if one follows a postponed close, cutting after the close frame reads more |
| `FrameStreams.ChunksMatterAfterRefused` | app/activity-server/src/ActivitySession.cpp:1384-1395 | if one follows a refused reply, cutting after the refused frame reads less |
| `WebSocket.CuttingMattersExactly` | app/activity-server/src/ActivitySession.cpp:668-722 | some cutting reads other frames than the whole exactly if a complete frame follows a close frame whose close was postponed, or a frame whose reply was refused |
| `WebSocket.NextFrame` | app/activity-server/src/ActivitySession.cpp:668-708 | the parsing code with its loops computes the decoder; in the bytes of the buffer: opcode, length in seven bits, two or eight bytes with the high one first, the refusal of more than 1 MiB, and each payload byte, unmasked bit by bit with its byte of the key |
| `WebSocket.BuildFrame` | app/activity-server/src/ActivitySession.cpp:1404-1423 | the bytes pushed one by one are the unmasked encoding |
| `WebSocket.ActivitySocket.ProcessWsBuffer` | app/activity-server/src/ActivitySession.cpp:668-722 | every complete frame is read once and in order: texts are handled, each ping is answered with its payload until a reply is refused, a refused reply ends the session and the buffer is still read to its end, a close frame ends it at once unless the close is postponed, an oversized length disconnects |
| `WebSocket.ActivitySocket.Feed` | app/activity-server/src/ActivitySession.cpp:668-722 | over a whole stream of chunks the frames handled are those of the stream, unless a frame follows a postponed close or a refused reply; no chunk is read once the session has left the open state |
| `ProxyBridges.ProxyBridge.ClosePair` | src/modules/proxy/ProxyBridge.cpp:112-128 | closing empties the pending bytes and leaves no attached session untold |
| `ProxyBridges.ProxyBridge.OnPeerDisconnected` | src/modules/proxy/ProxyBridge.cpp:89-110 | the session in the other slot is told to go, the downstream after its flush and the upstream at once, unless it is going already; one in the leaver's own slot that is not the leaver becomes a stray |
| `ProxyBridges.ProxyBridge.AttachDownstream` | src/modules/proxy/ProxyBridge.cpp:19-27 | a session attached to a closed pair is told to disconnect; on an open pair exactly the session it replaces becomes a stray |
| `ProxyBridges.ProxyBridge.AttachUpstream` | src/modules/proxy/ProxyBridge.cpp:29-38 | the kept bytes are handed over across the attach, in order if the downstream keeps nothing back, cannot be resumed, or at most one chunk is pending, and overtaken if the upstream reports the end of backpressure for the first of several and the downstream then forwards; late sessions are told and replaced ones become strays as for the downstream |
| `ProxyBridges.ProxyBridge.FlushPendingToUpstream` | src/modules/proxy/ProxyBridge.cpp:147-162 | the chunks are handed over in order, all of them if the pair is still open, although a session may forward data before a send returns |
| `ProxyBridges.ProxyBridge.QueuePendingToUpstream` | src/modules/proxy/ProxyBridge.cpp:130-145 | bytes are kept exactly if they stay within a non-zero limit, otherwise the pair closes |
| `ProxyBridges.ProxyBridge.Forward` | src/modules/proxy/ProxyBridge.cpp:44-69 | handed-over, flushed and pending bytes are the bytes forwarded, in order and in both directions, until the pair closes, with forwards nested inside a send; the data follow what the session sent before; a closed pair passes nothing on |
| `ProxyBridges.ProxyBridge.OnPeerBackpressure` | src/modules/proxy/ProxyBridge.cpp:71-87 | the backpressure of one session pauses the other; its end makes the other read on and forward everything it kept back, in order, unless the pair closes, the session goes, or one answers what it is sent with more than taking it |
| `ProxyBridges.ProxyBridge.Run` | src/modules/proxy/ProxyBridge.cpp:19-162 | over every run of any sessions closing is permanent, nobody but a stray is left half open, and the order is kept unless a flush is overtaken; with one session per role there is no stray and no flush is overtaken |
| `ProxyBridges.FlushOvertaken` | src/modules/proxy/ProxyBridge.cpp:147-162 | for every bridge with two chunks pending and a downstream that can be resumed and kept something back, an attach in which the flush is overtaken |
| `ProxyBridges.OutOfOrder` | src/modules/proxy/ProxyBridge.cpp:44-162 | a run from a new bridge in which the upstream gets bytes out of order |
| `ProxyBridges.StrayIsNotTold` | src/modules/proxy/ProxyBridge.cpp:19-27 | a downstream that was replaced on an open pair is not told when the pair closes |
| `ProxyConnectors.ProxyConnector.StartConnector` | src/modules/proxy/TcpProxyServer.cpp:506-538 | the race is on and counted exactly if a socket and the connect can be had, with the timeout armed if it can be; otherwise nothing is outstanding, the connector is off the books and the bridge closed |
| `ProxyConnectors.ProxyConnector.Start` | src/modules/proxy/ProxyConnector.cpp:34-85 | it succeeds exactly if a socket and the connect can be had; a start that fails leaves nothing outstanding, no socket and no self reference |
| `ProxyConnectors.ProxyConnector.Cancel` | src/modules/proxy/ProxyConnector.cpp:87-127 | it ends an open race with the bridge closed and what is outstanding cancelled by a willing kernel, and changes nothing in a decided one; the live count stays right exactly if the connector is in the worker's table |
| `ProxyConnectors.ProxyConnector.OnConnect` | src/modules/proxy/ProxyConnector.cpp:129-179 | the completion decides an open race: the session is given to the bridge and success reported exactly if the connect succeeded and the pair is open, otherwise failure is reported and the bridge closed; an armed timeout is cancelled |
| `ProxyConnectors.ProxyConnector.OnTimeout` | src/modules/proxy/ProxyConnector.cpp:181-221 | a timeout that is not a cancellation ends an open race as a timeout and cancels the connect; any other changes nothing |
| `ProxyConnectors.ProxyConnector.OnCancel` | src/modules/proxy/ProxyConnector.cpp:223-227 | the completion is counted and the self reference goes with the last one |
| `ProxyConnectors.ProxyConnector.Run` | src/modules/proxy/ProxyConnector.cpp:34-266 | for every order of completions and cancellations the callback runs at most once, and exactly once when nothing is outstanding, with the upstream attached or the bridge closed; the connector holds itself exactly while something is outstanding |
| `ProxyConnectors.CancelledAfterFailedStart` | src/modules/proxy/TcpProxyServerWorker.cpp:30-53 | a connector whose start failed is taken off the live count twice if the stopping server cancels it |
| `Uploads.RegionsTile` | app/examples/web/file_store_server/src/main.cpp:76-96 | the regions of the chunks follow each other without gap or overlap up to the bytes submitted, and each holds its chunk |
| `Uploads.WroteSound` | app/examples/web/file_store_server/src/main.cpp:161-178 | whatever part of a write the kernel does puts right bytes into right places |
| `Uploads.Progress` | app/examples/web/file_store_server/src/main.cpp:144-157 | after a partial write what is not in the file is still being written, and a complete one leaves nothing of its chunk missing |
| `Uploads.AsyncUpload.SubmitChunk` | app/examples/web/file_store_server/src/main.cpp:76-96 | the next chunk becomes a write behind all the others, and the upload fails exactly if the ring does not take it; the invariant is kept |
| `Uploads.AsyncUpload.OnWrite` | app/examples/web/file_store_server/src/main.cpp:121-158 | a complete write leaves the table and is counted, a partial one is continued where it stopped, an unknown one changes nothing; the upload fails exactly if nothing was written or the ring does not take the rest; the invariant is kept |
| `Uploads.AsyncUpload.Abort` | app/examples/web/file_store_server/src/main.cpp:104-118 | the temporary file goes at once, and the upload ends when the last write has |
| `Uploads.AsyncUpload.TryFinish` | app/examples/web/file_store_server/src/main.cpp:180-223 | the upload ends exactly when its request is complete or aborted and no write is outstanding |
| `Uploads.AsyncUpload.Intact` | app/examples/web/file_store_server/src/main.cpp:197-200 | with no write outstanding an upload that did not fail is the file, and the count of bytes written adds up |
| `Uploads.AsyncUpload.Run` | app/examples/web/file_store_server/src/main.cpp:76-262 | over every run a file is published, and 201 answered, only if it is exactly the request; the upload ends once, cleans up once and leaves no temporary file or descriptor; if the ring takes every write, every completion makes progress and the client stays, it ends with 201 and the file exactly if length and rename are right |
| `BufferPools.BufferPool.Open` | include/iouring_runtime/core/SendBuffer.h:60-75 | the buffer lies above all others of its chunk and inside it, exactly if the 32-bit sum does not wrap |
| `BufferPools.BufferPool.Allocate` | include/iouring_runtime/core/SendBuffer.h:106-127 | deferred reports are carried out first; then a request fails only if it does not fit the last chunk and no other is to be had or large enough; a new buffer lies in memory of its own exactly if the sum does not wrap, and the reports stay true exactly if it is not served from a chunk reported or being reported, which takes a report under way |
| `BufferPools.BufferPool.Serve` | include/iouring_runtime/core/SendBuffer.h:111-126 | a request is served exactly if it fits the last chunk or another one, large enough, can be had; exactly when it wraps, when it makes a report false, and when it leaves a chunk idle |
| `BufferPools.BufferPool.AcquireChunk` | include/iouring_runtime/core/SendBuffer.h:160-169 | the free chunk put aside last is reused first, a new one is made only without one and below the limit; active and free chunks together stay within it |
| `BufferPools.BufferPool.MoveToFree` | include/iouring_runtime/core/SendBuffer.h:148-158 | resetting or destroying a chunk is safe exactly if it has no live buffer |
| `BufferPools.BufferPool.DropBuffer` | include/iouring_runtime/core/SendBuffer.h:180-184 | dropping a buffer keeps all others in place, counts exactly, and announces a report exactly for a chunk's last buffer |
| `BufferPools.BufferPool.OnChunkUnused` | include/iouring_runtime/core/SendBuffer.h:132-140 | a report is carried out under the lock or put on the list, and either way every report stays true and every idle chunk reported |
| `BufferPools.BufferPool.FlushPendingGc` | include/iouring_runtime/core/SendBuffer.h:142-146 | reports on the list are carried out, all of them unless a thread is reporting, with no chunk reset that has a live buffer |
| `BufferPools.BufferPool.Run` | include/iouring_runtime/core/SendBuffer.h:106-169 | over every run with late and deferred reports live buffers are in bounds and apart, counts are exact and every active chunk has a buffer or a report, up to a sum that wraps or a request that is served from a reported chunk, after which and only then a live buffer is in danger; if each report follows its drop at once there is no such request |
| `BufferPools.RetireKeeps` | include/iouring_runtime/core/SendBuffer.h:148-158 | taking a chunk out of use keeps the layout exactly if its count is zero |
| `BufferPools.ReusedWhileLive` | include/iouring_runtime/core/SendBuffer.h:132-184 | a request between a chunk's last drop and its report ends with a live buffer in a free chunk that has been reset |
| `RingLoop.IoRing.Wait` | src/runtime/ring/IoRing.cpp:124-146 | at every moment while the owner is blocked with the poll armed, each task of another thread has a wake-up coming |
| `RingLoop.IoRing.ArmWakePoll` | src/runtime/ring/IoRing.cpp:213-231 | the poll is armed afterwards exactly if it was or the kernel had room and took the submission; a request that was not submitted goes out later |
| `RingLoop.IoRing.DrainWakeFd` | src/runtime/ring/IoRing.cpp:233-243 | the eventfd is empty afterwards, whatever is posted meanwhile, and no task is lost |
| `RingLoop.IoRing.ProcessPostedTasks` | src/runtime/ring/IoRing.cpp:476-486 | what was posted at the start has been run at the end, in order and once |
| `RingLoop.IoRing.Dispatch` | src/runtime/ring/IoRing.cpp:124-188 | if the poll was armed or the kernel takes one, no moment of waiting is without a wake-up for a foreign task; a willing kernel leaves it armed; posted tasks are neither run nor lost |
| `RingLoop.IoRing.Run` | src/runtime/io/Worker.cpp:191-205 | over every run of the worker's loop the tasks run are the first pushed, each once, and what was posted before a round has run after it; with a willing kernel there is no moment of waiting without a wake-up for a foreign task |
| `RingLoop.SelfPostWaits` | src/runtime/ring/IoRing.cpp:465-474 | a state in which the owner may wait, with the poll armed, a task of its own posted and nothing to wake it |
| `RingLoop.ForgottenWithoutPoll` | src/runtime/ring/IoRing.cpp:213-231 | a state in which the owner may wait without a poll, a foreign task posted and nothing to wake it |

## Left out

- Weak memory: steps are sequentially consistent; acquire and release orders are not modelled.
- Sessions.Session.TryDisconnectAfterFlush: does not promise that a held batch is acknowledged, because the code can close while it is held (`Sessions.CloseRequestedInsideDrainWindow`).
- Routes.WildcardCapture: says only that the capture is undefined on a path ending in a slash; there the code takes the distance of two unrelated pointers.
- Routes.RadixTree.Register: the tree is a value that is replaced, not nodes changed in place; nodes have one owner, so no aliasing is lost.
- Routes: the text of the Allow header and the move of entries are not modelled; the table reported is.
- JobQueues.JobQueue.Run: the global queue is seen from one job queue, so the order among job queues and the lifetime of a job queue are not modelled; a deadline may pass at any time.
- Mpsc.MpscQueue: values are moved, not destroyed, and the destructor is not modelled.
- Sessions.Session: one thread, the owner, runs every call; posting a call to the owner from another thread is `Wake.dfy`. Time is a choice of the environment, so inactivity and delay are not measured. Changes of the configuration while the session runs, remote addresses, null buffers and the return of provided receive buffers are not modelled.
- Sessions.Session.OnSend: says exactly when the session closes only for low watermarks below the high ones; otherwise a completion can cross a watermark, which the configuration does not exclude.
- Sessions.BackpressureCannotDeadlock: requires each low watermark to be below its high one, which the configuration does not enforce.
- PacketSessions.PacketSession: each handler makes at most one call that pauses, resumes or closes its session; the limit of the backlog is in `Session.dfy`. What a session does after a handler cut in is shown for one packet and one chunk, not for whole runs.
- WebSocket.ActivitySocket: only pongs are recorded as sent, not what texts are answered with; that a session is closed for a reason outside its own frames is not modelled.
- ProxyBridges.ProxyBridge: the TLS session is not modelled, nor pauses of a session's reading that do not come from the bridge.
- Uploads.AsyncUpload: file names, directories and the response text are not modelled; the kernel holds the file open for writes that are outstanding when the descriptor is closed.
- RingLoop.IoRing: tasks sent by ring message and the final rounds of a stopping worker are not modelled; a write to the eventfd succeeds or finds it full.
- Counters that the source keeps in 32 or 64 bits are unbounded here, except where an overflow matters (`BufferPools`).
- HTTP parsing, TLS, metrics, logging, configuration, the listener and the timers: they are apart from the protocols modelled here or rest on libraries whose code is not in the repository.
