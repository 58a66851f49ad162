# KaiRPC in Dafny

A model of the parts of KaiRPC whose behaviour is decided by code rather than by
the operating system, with proofs of what they promise. `dafny verify dfyconfig.toml`
checks all of it (Dafny 4.11).

## What is modelled

* **The TinyPB wire format** (`Bytes`, `TinyPB`): big-endian 32-bit integers, the
  message record, the bytes of a packet, the parser of a packet. Printer and parser
  are inverse, so the packets the decoder accepts are exactly the printed ones.
* **The stream decoder and encoder** (`Framing`, `TinyPBStream`, `MessageRecords`,
  `TinyPBDecoder`, `TinyPBEncoder`): the reference decoder drops one byte, waits, or takes a packet;
  the coder as it runs scans ahead, moves cursors over the buffer array and stops
  at the first bad field, and is proved to compute the same. Cutting the stream
  makes no difference, damage is skipped, leftovers are bounded, encoding round-trips.
* **The connection buffer** (`TcpBuffer`, `BufferRuns`): a compacting, growing
  array with two indices is a FIFO byte queue, with a bound on its capacity.
* **The connection** (`ConnectionSpec`, `TcpConnection`, `SocketLoops`, `SenderStream`,
  `EndToEnd`, `Duplex`, `WriteCompletion`, `ReadCallbacks`, `DisconnectCallback`): read and
  write loops against sockets that answer as they like. System calls consume a script of
  results; an exhausted script blocks, so every terminating run of a loop is covered. On
  top of them: when a loop goes on, stops or closes, in-order delivery between two
  connections, matching of responses to requests over both directions, and what the
  callbacks mean.
* **The call** (`RpcController`, `Completion`, `CallResults`, `ChannelCall`,
  `CallAnswers`, `RequestState`): timeout, cancel, disconnect, connect result and response race for one
  gate. The loop thread takes small steps; other threads enter the controller's locked
  regions between any two. The protocol speaks of flags; the call on its own connection
  and in the loop's timer queue is proved to make its runs, with the flags always being
  the state of the two, and the response is traced to a reply of the server.
* **The timer queue** (`TimerSpec`, `TimerRuns`, `TimerArming`, `TimerCancellation`,
  `Timer`): a deadline-ordered multimap with repeat, cancel and timerfd arming, when events
  then run, and what deleting one achieves.
* **The service center** (`ServiceRegistry`, `RegistryTexts`, `RegistryHistory`,
  `Heartbeat`): which command a text is, the lazily pruned map against the history of
  requests, and heartbeats against the TTL.
* **Message ids** (`MsgId`): random seed, carry, the sentinel, and the ids handed out.

Objects that the program updates in place are classes. Each class has a function
(`View`, or `ShapeOf` and `Contents`) giving its whole state as a value; methods are
proved to change it as a function on values says, and the theorems are about those
functions, over all runs.

## Promises the code keeps only under a condition

* A write callback means "sent" exactly for messages queued while the out buffer is
  empty, over every run (`WriteCompletion.LatePushIsPassedOver`). One queued later is
  passed over for good, and its callback still runs with the next drain
  (`WriteCompletion.DrainingRunsAllCallbacks`, with the failing run in
  `WriteCompletion.LatePushIsCalledBackUnsent`). An oversized message has no encoding, so
  its callback runs with nothing sent for it.
* `modify` and `delete` succeed on a service nobody can see exactly when it is registered,
  has expired, and no lookup and no query of it was handled since it expired
  (`RegistryHistory.LazinessShowsExactlyOnUnprunedEntries`, with an instance in
  `RegistryHistory.ExpiredServiceIsRevived`).
* The heartbeat interval fits into the TTL exactly from 100 ms on; below, a service
  disappears in every interval (`Heartbeat.IntervalFitsFromOneHundred`,
  `Heartbeat.ShortTTLsBlinkOut`). One missed heartbeat is survived exactly from 200 ms on,
  by nothing or by the millisecond lost in halving an odd TTL
  (`Heartbeat.OneMissedHeartbeat`).
* The timerfd expires by the first deadline, or 100 ms after it was armed if that deadline
  had passed. Of all steps, exactly the erasing of a first event disturbs this whose
  successor is due before the expiry as it is armed (`TimerArming.StepKeepsExact`, with an
  instance in `TimerArming.ErasedOverdueLeavesLate`).
* The carry of a message id runs off the string exactly on an all-nines id after
  more than one seeding, because the sentinel grows with every seeding
  (`MsgIds.ExactlyWhenOutOfRange`, `MsgIds.SecondWrapRunsOff`).
* `docs/known-regressions.md` says cancelled timer work cannot re-arm or run. A deleted
  event does not run again if and only if none of its callbacks is collected and waiting
  at the call, and stays out of the queue if and only if it is not a repeating event of a
  batch that is being put back (`TimerCancellation.DeletingStopsTheEvent`, with the failing
  cases in `TimerCancellation.DeletedWhilePutBackIsPending` and
  `TimerCancellation.CollectedRunsAnyway`). Put back or not, it is never collected again.
* `docs/rpc-semantics.md` says a successful response leaves `Failed()` false. A call
  does not reset its controller, so after success `Failed()` is false if and only if it
  was before the call (`Completion.FailedAfterSuccess`, with the failing run in
  `Completion.SuccessLeavesFailed`).
* `setState` ignores its argument; a closed connection stays silent only because its
  descriptor is gone (`WriteCompletion.DeadConnectionIsSilent`).

## Model

| member | source | states |
|---|---|---|
| Bytes.ReadOfWritten | common/util.cc:37-41 | a signed 32-bit integer written in network order is read back unchanged |
| Bytes.NetworkOrder | common/util.cc:37-41 | the most significant byte comes first, and negative integers are written in two's complement |
| Bytes.WrittenOfRead | common/util.cc:37-41 | four bytes read as an integer are the bytes that integer is written as |
| TinyPB.ParseFrame | net/coder/tinypb_coder.cc:123-204 | of the decoder's nine field checks, three (first length, body length, room for the checksum) can never be the one that fails |
| TinyPB.FrameIsDelimited | net/coder/tinypb_coder.cc:252-305 | an encoded packet starts and ends with the flags and declares its own length |
| TinyPB.WireLayout | docs/protocol.md:7-20 | a packet is flag 2, total length, id, method, error code, error text, body, checksum and flag 3, texts behind their lengths, 26 bytes of overhead, at most 10 MiB |
| TinyPB.DelimitedPackets | net/coder/tinypb_coder.cc:93-118 | what is taken off the stream as a packet: 26 bytes to 10 MiB, flags 2 and 3, its own length declared |
| TinyPB.ParseOfPrinted | net/coder/tinypb_coder.cc:123-204 | parsing an encoded packet gives its message, whatever bytes its fields contain |
| TinyPB.PrintOfParsed | net/coder/tinypb_coder.cc:123-204 | every accepted packet is the encoding of the message it was parsed to, byte for byte, and the length fields describe the contents |
| TinyPB.AcceptedFramesAreThePrintedOnes | net/coder/tinypb_coder.cc:120-211 | a packet with right length and flags is accepted if and only if some message is printed as it |
| TinyPBStream.PostEncode | net/coder/tinypb_coder.cc:223-311 | an encodable message comes out with length fields that describe it |
| MessageRecords.RecordIsKept | net/coder/tinypb_coder.cc:223-311 | encoding keeps id, method, error and body, puts 123456789 for an empty id and 1 for the checksum, and refuses exactly what exceeds 10 MiB |
| TinyPBStream.DecodeOfAppended | net/coder/tinypb_coder.cc:67-213 | decoding, then going on with what arrives later, is decoding everything at once |
| TinyPBStream.CuttingDoesNotMatter | net/coder/tinypb_coder.cc:67-213 | for every byte stream and every way of cutting it, messages and leftover are those of one decode of the whole |
| TinyPBStream.DecodedIsPrefix | net/coder/tinypb_coder.cc:67-213 | messages once decoded are not taken back when the stream grows |
| TinyPBStream.FixedPoints | net/coder/tinypb_coder.cc:93-110 | the decoder leaves its input alone if and only if it is the beginning of a packet whose end has not arrived |
| TinyPBStream.LeftoverIsUnfinished | net/coder/tinypb_coder.cc:69-118 | what decode leaves is a suffix of its input, an unfinished packet under 10 MiB, and a fixed point of decode |
| TinyPBStream.GarbageIsSkipped | net/coder/tinypb_coder.cc:74-91 | bytes without a start flag in front of any stream change nothing |
| TinyPBStream.PacketInFront | net/coder/tinypb_coder.cc:112-211 | a complete packet contributes its message, if any, and leaves what follows untouched |
| TinyPBStream.BadPacketIsSkipped | net/coder/tinypb_coder.cc:127-211 | a complete packet with bad inner lengths in front of any stream changes nothing |
| TinyPBStream.DecodeOfEncodedThen | net/coder/tinypb_coder.cc:45-213 | encoded messages in front of any stream are decoded first, in order, oversized ones left out |
| TinyPBStream.PrefixOfEncodedIsUnfinished | net/coder/tinypb_coder.cc:93-110 | every proper prefix of an encoded packet makes the decoder wait |
| TinyPBStream.RoundTrip | net/coder/tinypb_coder.cc:45-317 | encodings of any messages followed by part of one more decode to the post-encode records and leave exactly that part |
| MessageRecords.MessageArrives | net/coder/tinypb_coder.cc:45-317 | an encodable message is decoded to one message with its id, method, error code, error text and body |
| TinyPBStream.ReencodingRestoresThePacket | net/coder/tinypb_coder.cc:123-312 | an accepted packet is 26 bytes plus its fields, and re-encoding changes only the checksum and an empty id |
| TinyPBDecoder.ReadTextField | net/coder/tinypb_coder.cc:127-142 | length and text of a field are read exactly when both fit before the checksum |
| TinyPBDecoder.ParsePacket | net/coder/tinypb_coder.cc:120-206 | the cursor parser accepts the packets the reference parser accepts, with the same message |
| TinyPBDecoder.Scan | net/coder/tinypb_coder.cc:74-91 | jumping to the next start flag loses no message |
| TinyPBDecoder.AtStartFlag | net/coder/tinypb_coder.cc:93-211 | at a start flag the loop waits, drops one byte or takes a packet as the stream decoder does |
| TinyPBDecoder.DecodeBuffer | net/coder/tinypb_coder.cc:67-213 | the loop terminates, and messages and remaining buffer contents are those of the stream decoder |
| TinyPBEncoder.EncodeTinyPB | net/coder/tinypb_coder.cc:215-317 | the moving pointer writes exactly the packet of the message and fills in its record; an oversized message gives no packet |
| TinyPBEncoder.EncodeBuffer | net/coder/tinypb_coder.cc:45-65 | the packets of all messages are appended to the buffer in order |
| TcpBuffers.TcpBuffer.constructor | net/tcp/tcp_buffer.cc:11-13 | a new buffer is empty and has the asked capacity |
| TcpBuffers.TcpBuffer.ReadAble | net/tcp/tcp_buffer.cc:20-22 | the number of readable bytes |
| TcpBuffers.TcpBuffer.ResizeBuffer | net/tcp/tcp_buffer.cc:65-75 | the readable bytes move to the front of the new array; those that do not fit are lost from the end |
| TcpBuffers.TcpBuffer.AdjustBuffer | net/tcp/tcp_buffer.cc:78-93 | compacting keeps the readable bytes and the capacity |
| TcpBuffers.TcpBuffer.WriteToBuffer | net/tcp/tcp_buffer.cc:37-45 | the bytes are appended, growing the array by half when they do not fit |
| TcpBuffers.TcpBuffer.ReadFromBuffer | net/tcp/tcp_buffer.cc:48-62 | up to the asked number of bytes leave from the front, in order |
| TcpBuffers.TcpBuffer.MoveReadIndex | net/tcp/tcp_buffer.cc:95-103 | a size in range drops that many bytes, any other changes nothing |
| TcpBuffers.TcpBuffer.MoveWriteIndex | net/tcp/tcp_buffer.cc:105-113 | a size in range, the full free space included, makes the bytes behind the write index readable; any other changes nothing |
| BufferRuns.ApplyIsFifo | net/tcp/tcp_buffer.cc:37-113 | one operation keeps bytes taken followed by bytes readable equal to bytes put in |
| BufferRuns.ApplyIsCovered | net/tcp/tcp_buffer.cc:37-93 | one operation keeps the capacity within 3 times the peak, and within 9/4 when nothing is read from the socket |
| BufferRuns.BufferTheorem | net/tcp/tcp_buffer.cc:37-113 | every run is a FIFO queue, with a dead prefix of zero or under a third and a bounded capacity |
| TcpBuffers.ArrayChanges | net/tcp/tcp_buffer.cc:37-113 | the array is compacted from a dead prefix of a third on, grows to one and a half times what is needed when bytes do not fit, and doubles when a read finds it full |
| ConnectionSpec.WriteLoop | net/tcp/tcp_connection.cc:186-213 | whatever the socket answers, bytes accepted followed by bytes kept are the bytes there were |
| SocketLoops.WriteLoopByAnswers | net/tcp/tcp_connection.cc:186-213 | the loop sends what the socket takes up to its first other answer, and fails if and only if that is a fatal error with bytes left |
| SocketLoops.OnWriteCloses | net/tcp/tcp_connection.cc:164-225 | onWrite closes a live connection, with its disconnect callback, if and only if a fatal error comes behind interruptions and short writes with bytes left; otherwise it stays open with the bytes not taken |
| SocketLoops.WithoutFailureStaysOpen | net/tcp/tcp_connection.cc:202-212 | EAGAIN, EINTR and short writes never close a connection |
| SocketLoops.WriteWaits | net/tcp/tcp_connection.cc:214-217 | after a write that left bytes the connection still asks for write events, after a drained one it does not |
| SocketLoops.ReplyWaits | net/tcp/tcp_connection.cc:159-162 | an open connection asks for write events after a reply |
| SocketLoops.ReadLoopTurns | net/tcp/tcp_connection.cc:79-110 | end of file and fatal errors close, EAGAIN and a short read end the loop, EINTR and a filled buffer make it go on |
| SocketLoops.CloseNeedsACause | net/tcp/tcp_connection.cc:94-109 | a read loop on a buffer with capacity reports a close only if there was end of file or a fatal error |
| SocketLoops.CloseIsReported | net/tcp/tcp_connection.cc:94-109 | and reports it when one comes behind any interruptions |
| ConnectionSpec.ClearLeaves | net/tcp/tcp_connection.cc:235-264 | clear leaves the connection closed with nothing queued, registered or asked for, and its buffers untouched; a second one does nothing |
| TcpConnections.WriteAll | net/tcp/tcp_connection.cc:186-213 | the write loop sends what the socket accepts and keeps the rest |
| TcpConnections.ReadAll | net/tcp/tcp_connection.cc:77-110 | the read loop appends exactly the bytes it took and reports a close exactly on end of file, an error, or no room |
| TcpConnections.TcpConnection.SetState | net/tcp/tcp_connection.cc:227-229 | any state asked for makes the connection Connected |
| TcpConnections.TcpConnection.Clear | net/tcp/tcp_connection.cc:235-264 | the first clear drops everything pending and runs the disconnect callback; a second does nothing |
| TcpConnections.TcpConnection.PushSendMessage | net/tcp/tcp_connection.cc:339-341 | the message joins the end of the queue |
| TcpConnections.TcpConnection.PushReadMessage | net/tcp/tcp_connection.cc:343-345 | an id gets the callback unless it has one |
| TcpConnections.TcpConnection.RemoveReadMessage | net/tcp/tcp_connection.cc:347-349 | the id has no read callback afterwards, all others keep theirs |
| TcpConnections.TcpConnection.SetDisconnectCallback | net/tcp/tcp_connection.cc:351-353 | the callback replaces the previous one |
| TcpConnections.TcpConnection.Reply | net/tcp/tcp_connection.cc:159-162 | replies are appended to the out buffer, and write events asked for while open |
| TcpConnections.TcpConnection.OnWrite | net/tcp/tcp_connection.cc:164-225 | bytes sent, bytes kept, callbacks run and closing are those of the specification |
| TcpConnections.TcpConnection.OnRead | net/tcp/tcp_connection.cc:69-120 | bytes taken, messages delivered, callbacks run and closing are those of the specification; nothing is decoded at a close |
| TcpConnections.TcpConnection.Excute | net/tcp/tcp_connection.cc:122-156 | the in buffer is decoded, and a client runs the callback of each message it has one for |
| EndToEnd.StepKeepsStream | net/tcp/tcp_connection.cc:159-225 | bytes received and in flight are always a prefix of the encodings, and with the out buffer all of them while the sender is open |
| SenderStream.WriteKeepsStream | net/tcp/tcp_connection.cc:164-213 | one onWrite loses, repeats and reorders nothing: bytes sent followed by bytes held are the encodings asked for, whatever the socket does |
| EndToEnd.ReadDelivers | net/tcp/tcp_connection.cc:69-156 | a read delivers what decoding the leftover with the new bytes gives, whatever the callbacks do, and nothing at a close |
| EndToEnd.DeliveredIsPrefixOfSent | net/tcp/tcp_connection.cc:69-225 | over all schedules of both sockets, delivered messages are an in-order, unaltered prefix of the messages encoded |
| EndToEnd.EverythingArrives | net/tcp/tcp_connection.cc:69-225 | once the out buffer is drained and all is read without a close, every message has been delivered |
| EndToEnd.RepliesArriveInOrder | net/tcp/tcp_connection.cc:69-225 | the same for a server, in terms of the replies handed to it |
| EndToEnd.BytesWaitForWriteEvents | net/tcp/tcp_connection.cc:159-217 | in every run an open server connection that holds bytes to send is asking for write events |
| Duplex.PlayKeepsOk | net/rpc/rpc_dispatcher.cc:98-99 | with requests going up and replies coming down on one connection, every move keeps both streams in order and every reply belongs to a decoded request |
| Duplex.RepliesAnswerRequests | docs/protocol.md:34-36 | replies as sent carry id and method of requests that were sent, and the client has read nothing but their encodings |
| Duplex.ResponsesAnswerRequests | docs/protocol.md:34-36 | in every run of both directions, each response the client decodes carries the id and method of a request it sent |
| WriteCompletion.BytesAndCallbacks | net/tcp/tcp_connection.cc:164-225 | in every run, bytes sent followed by bytes buffered are the encodings so far; write callbacks run in queue order, each at most once |
| WriteCompletion.DeadConnectionIsSilent | net/tcp/tcp_connection.cc:202-264 | after a fatal error or a close no byte is sent and no write callback runs, even if the state is set again |
| WriteCompletion.CallbackMeansSentIfOnTime | net/tcp/tcp_connection.cc:164-225 | in every run, of the messages whose callback has run exactly those queued while the out buffer was empty were encoded, in queue order, and their bytes accepted first |
| WriteCompletion.CallbackMeansSent | net/tcp/tcp_connection.cc:172-224 | if all messages whose callback ran were queued while the out buffer was empty, the socket accepted all of them to the last byte, first and in order |
| WriteCompletion.LatePushIsPassedOver | net/tcp/tcp_connection.cc:172-184 | in every run of a new client, a callback that has run belongs to a message that was encoded if and only if the out buffer was empty when it was queued, and then every byte of it was accepted |
| WriteCompletion.DrainingRunsAllCallbacks | net/tcp/tcp_connection.cc:214-224 | a write that drains the out buffer runs every callback still queued, also that of a message passed over |
| WriteCompletion.LatePushIsCalledBackUnsent | net/tcp/tcp_connection.cc:172-224 | a message queued behind a partly sent one is called back without a byte of it sent |
| WriteCompletion.CallbackGetsItsMessage | net/tcp/tcp_connection.cc:219-224 | in every run each write callback gets its own message, as the encoder left it if it was queued on time, else as it was queued |
| WriteCompletion.FreshClientIsHonest | net/tcp/tcp_connection.cc:164-225 | in every run of a new client that queues only while the out buffer is empty, a callback that has run means its message and all earlier ones were sent |
| ReadCallbacks.AnsweredOnce | net/tcp/tcp_connection.cc:139-154 | within one decoded batch an id gets at most one call, of its own callback with the first message carrying the id, and is forgotten then |
| ReadCallbacks.EachRegistrationIsAnsweredOnce | net/tcp/tcp_connection.cc:139-154 | over every run of reads, registrations, removals and closes, each call answers a registration of its own, in order, with its callback and the first message with the id decoded since |
| ReadCallbacks.NoRegistrationIsLost | net/tcp/tcp_connection.cc:139-154 | while the connection is open and the id is not taken back, the k-th call answers the k-th registration, and only the latest may wait, for a message that has not come |
| DisconnectCallback.RunsAtMostOncePerInstallation | net/tcp/tcp_connection.cc:235-264 | over the life of a connection each disconnect callback runs at most as often as that callback was installed, the one in place counted, even if the state is set again |
| DisconnectCallback.NewConnectionRunsEachOnce | net/tcp/tcp_connection.cc:351-353 | on a new connection a callback installed once runs at most once, and not yet while it is still in place |
| DisconnectCallback.ClosingRunsTheCallback | net/tcp/tcp_connection.cc:235-264 | only clear, a write and a read close an open connection; clear, a fatal write and a read that sees the close run the callback installed then, a read whose callback disconnects runs none |
| RpcControllers.RpcController.StartCancel | net/rpc/rpc_controller.cc:35-54 | an effective cancellation hands out both callbacks once; after cancel or finish it does nothing |
| RpcControllers.RpcController.NotifyOnCancel | net/rpc/rpc_controller.cc:67-79 | the closure is kept, or handed back to be run if the call is cancelled already |
| RpcControllers.RpcController.SetCancelCallback | net/rpc/rpc_controller.cc:149-161 | the callback is kept, or handed back to be run if the call is cancelled already |
| RpcControllers.RpcController.ClearCancelCallback | net/rpc/rpc_controller.cc:163-166 | no cancel callback is installed afterwards |
| RpcControllers.RpcController.SetError | net/rpc/rpc_controller.cc:82-87 | code and text are recorded and the call has failed |
| RpcControllers.RpcController.SetFailed | net/rpc/rpc_controller.cc:56-60 | the reason is recorded and the call has failed; the code stays |
| RpcControllers.RpcController.SetFinished | net/rpc/rpc_controller.cc:144-147 | the finished flag takes the value |
| RpcControllers.DeliveriesOfEvent | net/rpc/rpc_controller.cc:35-54 | for either kind of callback, only registering on a cancelled call, or cancelling one that has it installed, delivers it, and once |
| RpcControllers.CancellationIsDeliveredOnce | net/rpc/rpc_controller.cc:35-54 | over all interleavings, a callback registered once, by the user or by the channel, is delivered once if an effective cancellation came before, or came later and before it was cleared, and never otherwise |
| RpcControllers.UserClosureAlwaysHears | net/rpc/rpc_controller.cc:67-79 | a closure registered once with NotifyOnCancel is delivered exactly once if the call is ever effectively cancelled, before or after, cleared callbacks or not, and never otherwise |
| RpcControllers.CancelAfterFinishIsIgnored | net/rpc/rpc_controller.cc:38-42 | cancelling a finished call changes and invokes nothing |
| RpcControllers.FailureIsReported | net/rpc/rpc_controller.cc:56-87 | setting an error or a failure makes the call count as failed with that text; only an error brings a code |
| RpcControllers.FailureStays | net/rpc/rpc_controller.cc:56-87 | over all interleavings no event takes a failure back, and code and text stay until one is reported again |
| RpcControllers.FinishedIsAsSet | net/rpc/rpc_controller.cc:144-147 | the finished flag is what it was last set to, and a call taken back from finished can be cancelled |
| RpcControllers.UserHearsFirst | net/rpc/rpc_controller.cc:48-53 | a cancellation hands out the user's closure before the channel's callback |
| Completion.CompletesAtMostOnce | net/rpc/rpc_channel.cc:37-84 | over all interleavings the closure runs at most once, and after `finish` the error, the failed flag and the response are those of the first event through the gate |
| CallResults.EndsAsCompleted | net/rpc/rpc_channel.cc:226-294 | in every run the event that completes a call decides its end: timeout 10000007, cancel 10000013, lost connection 10000014, connect failures 10000000 and 10000001, a bad answer 10000002 or 10000004, any other answer its own error or none, each with its text |
| Completion.FailedAfterSuccess | docs/rpc-semantics.md:11 | after a call that ends without an error, the failed flag is set if and only if it was set before the call, and the error code is the one before |
| Completion.SuccessLeavesFailed | net/rpc/rpc_channel.cc:59-66 | on a controller that failed before, a good answer fills the response and the call still counts as failed |
| Completion.ReturnedIsClean | net/rpc/rpc_channel.cc:37-84 | in the protocol, when the closure runs and from then on, nothing the call installed is left |
| Completion.ReturnedIsFinal | net/rpc/rpc_channel.cc:226-296 | in the protocol, no later event re-installs anything, rewrites the result or runs the closure again |
| Completion.CompletionAdvances | net/rpc/rpc_channel.cc:37-84 | past the gate every step of the loop thread brings completion nearer and nothing else moves it |
| Completion.ClosureRunsExactlyOnce | net/rpc/rpc_channel.cc:226-296 | once an event passed the gate and the loop thread took its steps, the closure has run exactly once with that event's result |
| Completion.CancelledCallsComplete | net/rpc/rpc_channel.cc:226-233 | while the loop accepts tasks, a cancelled call with no cancel callback or task left to run is completed |
| Completion.UnfinishedCallsTimeOut | net/rpc/rpc_channel.cc:234-241 | in every run a call that is set up, held and not completed has its timer uncancelled, in the queue or about to run |
| ChannelCalls.ReadCallbackOnFlags | net/tcp/tcp_connection.cc:343-349 | adding and erasing the read callback change what the protocol sees of the connection as it says, and nothing else |
| ChannelCalls.ClosingOnFlags | net/tcp/tcp_connection.cc:235-264 | clear, and the client's disconnect, are the protocol's closing, also on a connection relabelled after its close |
| ChannelCalls.WriteOnFlags | net/tcp/tcp_connection.cc:164-225 | the write callback runs exactly when a queue with the request has been sent, and a fatal write is a close |
| ChannelCalls.ReadOnFlags | net/tcp/tcp_connection.cc:69-156 | the read callback runs exactly on a message with the call's id while it is waited for, and is forgotten first; end of file is a close |
| ChannelCalls.DeletingKeepsLoop | net/timer.cc:153-172 | deleting the call's event cancels it and takes it out of the queue, and leaves what is collected |
| ChannelCalls.CollectedIfItLeaves | net/timer.cc:55-77 | the call's event leaves the queue only by being collected, and is about to run then unless it was cancelled |
| ChannelCalls.StepKeepsOk | net/rpc/rpc_channel.cc:226-296 | every read, write, close, connect result, timer operation and small step keeps the protocol's flags equal to the state of connection and queue |
| ChannelCalls.RunIsProtocol | net/rpc/rpc_channel.cc:226-296 | whatever sockets, timers and threads do, the call makes a run of the protocol, and its flags are the state of its connection and its timer |
| ChannelCalls.ReturnedIsClean | net/rpc/rpc_channel.cc:37-84 | when the closure runs, once, and after finish: the id has no read callback, no disconnect or cancel callback and no message is left, the descriptor is gone, and the timer event is cancelled and out of the queue for good |
| ChannelCalls.ReturnedIsFinal | net/rpc/rpc_channel.cc:37-84 | no later read, write, close, expiry, cancellation or successful connect undoes any of that, although the last sets the state again |
| ChannelCalls.UnfinishedCallsTimeOut | net/rpc/rpc_channel.cc:234-241 | the same in the timer queue: the event of an unfinished call is uncancelled, and pending or among the collected tasks |
| ChannelCalls.TimeoutCompletes | net/rpc/rpc_channel.cc:234-241 | whatever happened before and happens after, once the loop has collected at or after the deadline and run what it collected, a call somebody holds is completed |
| ChannelCalls.TimeoutNotEarly | net/timer_event.cc:12-22 | in every run the timeout of a call runs no earlier than the set-up step plus the timeout |
| ChannelCalls.EndsAsCompleted | net/rpc/rpc_channel.cc:226-294 | the same on connection and queue: a timeout task, a cancel task, a close seen by any operation, or a decoded message with the call's id decide error and response, by their numbers and that message's fields |
| ChannelCalls.RequestWaitsForWriteEvents | net/tcp/tcp_client.cc:126-132 | in every run, while the request or part of it is unsent on an open connection, write events are asked for |
| CallAnswers.ResponseIsAReply | net/rpc/rpc_channel.cc:270-294 | if what the connection read is a prefix of the encodings of some replies, the response was filled from the body of a reply sent under the call's id |
| CallAnswers.ResponseAnswersTheRequest | docs/protocol.md:34-36 | in every joint run of the call, its sockets and the server on the one connection, the server decodes nothing but the call's own request, and the response is the body of a reply sent under its id and method |
| CallAnswers.ResponseWasAnswered | net/rpc/rpc_channel.cc:270-294 | in every joint run the body in the response is one the server's code answered with |
| RequestStates.CallClient.Disconnect | net/tcp/tcp_client.cc:155-162 | the disconnect callback is forgotten, the connection cleared and the client's descriptor given up |
| RequestStates.CallClient.ConnectFinished | net/tcp/tcp_client.cc:64-98 | a failed connect records its error and closes the connection without running the disconnect callback; a successful one sets the state to Connected whatever it was |
| RequestStates.CallClient.Connect | net/tcp/tcp_client.cc:50-115 | an immediate success sets the state, an immediate failure records its error and clears nothing, otherwise the result comes later |
| RequestStates.CallClient.Uninstall | net/rpc/rpc_channel.cc:46-52 | disconnect callback, read callback and timer event of the call are removed from its connection and the loop's timer |
| RequestStates.RequestState.Install | net/rpc/rpc_channel.cc:226-248 | cancel callback, timer and disconnect callback are in place, and a call cancelled already gets its cancel callback back to run |
| RequestStates.RequestState.Connect | net/rpc/rpc_channel.cc:250-262 | an immediate connect result sends the request or completes the call with the recorded error |
| RequestStates.RequestState.OnConnected | net/rpc/rpc_channel.cc:250-262 | a connect result sends the request, completes the call with the connect error, or is ignored once the call is completed |
| RequestStates.RequestState.OnWritten | net/rpc/rpc_channel.cc:263-270 | the response is waited for unless the call is completed |
| RequestStates.RequestState.BeginCompletion | net/rpc/rpc_channel.cc:37-57 | only the first caller passes, and everything the call installed is removed |
| RequestStates.RequestState.Finish | net/rpc/rpc_channel.cc:59-84 | the error is recorded if there is one, the connection closed and the closure run and given up |
| RequestStates.RequestState.Complete | net/rpc/rpc_channel.cc:226-261 | timer, cancel, disconnect and connect callbacks complete the call unless it is completed |
| RequestStates.RequestState.OnTimeout | net/rpc/rpc_channel.cc:234-240 | a call not completed yet ends with 10000007 and rpc call timeout |
| RequestStates.RequestState.OnCancelTask | net/rpc/rpc_channel.cc:226-233 | a call not completed yet ends with 10000013 and rpc call cancelled |
| RequestStates.RequestState.OnDisconnect | net/rpc/rpc_channel.cc:242-248 | a call not completed yet ends with 10000014 and rpc transport disconnected |
| RequestStates.RequestState.OnResponse | net/rpc/rpc_channel.cc:270-294 | the read callback completes the call with the response, its parse failure or its error |
| RequestStates.InstallingIsTheProtocol | net/rpc/rpc_channel.cc:226-248 | what the objects install is what the protocol's set-up steps install |
| RequestStates.UninterruptedIsTheProtocol | net/rpc/rpc_channel.cc:37-84 | run without interruption, the objects take exactly the small steps of the protocol |
| TimerSpec.SplitIsExact | net/timer.cc:109-123 | the seconds and nanoseconds given to the timerfd are exactly the interval and never the zero that would disarm it |
| TimerSpec.InsertKeepsOk | net/timer.cc:145 | inserting keeps deadline order, insertion order among equal deadlines, and one entry per event |
| TimerSpec.EraseKeepsOk | net/timer.cc:157-171 | a deleted event is no longer pending, and all others are pending as before |
| TimerRuns.TimerfdIsArmedInTime | net/timer.cc:38-176 | through all runs, with events pending the timerfd expires no later than the first deadline or 100 ms after it was last armed |
| TimerSpec.ArmedForTheFirst | net/timer.cc:97-131 | arming sets the timerfd to the first deadline, or 100 ms ahead if it has passed, and leaves it with nothing pending |
| TimerSpec.AddedArmsForTheFirst | net/timer.cc:133-151 | an event that becomes the first arms the timerfd for itself, any other leaves it |
| TimerArming.FdOfStep | net/timer.cc:38-151 | over all steps only adding a new first event and arming set the timerfd, to exactly these times, and only reading an expiry clears it |
| TimerArming.StepKeepsExact | net/timer.cc:97-172 | the timerfd stays armed for the first deadline, or 100 ms ahead if that had passed, in every step but the erasing of a first event whose successor is due before the expiry |
| TimerArming.TimerfdIsArmedExactly | net/timer.cc:97-172 | so in every run without such an erasing |
| TimerArming.ErasedOverdueLeavesLate | net/timer.cc:153-172 | behind an erased overdue event the next one is left up to 100 ms late |
| TimerArming.FiresExactlyAtItsDeadline | net/timer.cc:38-131 | once armed for the first event, and whatever is added for later, cancelled or run meanwhile, collecting at the expiry hands it out exactly at its deadline |
| TimerArming.NewIsAsAskedFor | net/timer_event.cc:12-22 | a new event is pending, uncancelled, and due one interval after its construction |
| TimerArming.RunsAfterItsInterval | net/timer_event.cc:12-22 | in every run an event runs no earlier than its construction plus its interval, the first time or any later one |
| TimerRuns.CollectsExactlyTheDue | net/timer.cc:55-77 | one firing collects exactly the uncancelled due events, each once, and leaves exactly the later ones |
| TimerRuns.UncancelledInOrder | net/timer.cc:63-73 | they are collected in deadline order, then insertion order |
| TimerRuns.CollectionsOfStep | net/timer.cc:55-95 | nothing but a firing that finds it due and uncancelled makes an event run, and then once |
| TimerRuns.OneShotFiresAtMostOnce | net/timer.cc:55-95 | in every run a one-shot event fires at most once |
| TimerRuns.NeverEarly | net/timer.cc:63-77 | no event fires before its deadline |
| TimerCancellation.CancelledIsNotCollectedAgain | net/timer.cc:153-172 | a cancelled event is in no later batch, even if cancelled while it was being put back |
| TimerCancellation.CollectedRunsAnyway | net/timer.cc:90-94 | callbacks run in the order collected, and once none is left all of them have run, whatever was cancelled in between |
| TimerCancellation.CancelledRunsNoMore | net/timer.cc:55-94 | a cancelled event never runs again, in any continuation, if and only if none of its callbacks is waiting to run |
| TimerCancellation.CancelledStaysOut | net/timer.cc:79-86 | a cancelled event out of the queue is never pending again, in any continuation, if and only if it is not a repeating event of a batch being put back |
| TimerCancellation.DeletingStopsTheEvent | docs/known-regressions.md:102-103 | a deleted event neither runs nor re-arms later, exactly under these two conditions at the call |
| TimerCancellation.DeletedWhilePutBackIsPending | net/timer.cc:79-86 | an event deleted between getting its new deadline and being added again is pending, cancelled |
| TimerQueue.Timer.ResetArriveTime | net/timer.cc:97-131 | the timerfd is armed for the first deadline, or 100 ms ahead if that has passed |
| TimerQueue.Timer.AddTimerEvent | net/timer.cc:133-151 | the event joins the queue, and the timerfd is armed again only for a new first deadline |
| TimerQueue.Timer.DeleteTimerEvent | net/timer.cc:153-176 | the event is flagged and leaves the queue if it is there |
| TimerQueue.Timer.OnTimer | net/timer.cc:38-95 | what is due is handed out in order, repeating events are put back, and the timerfd is armed |
| TimerQueue.RepeatingEventsComeBack | net/timer.cc:79-86 | each repeating event of a batch is pending again, one interval after its reading of the clock; one-shot events are not |
| TimerQueue.UndisturbedIsARun | net/timer.cc:38-95 | the undisturbed object is one of the interleavings, so the guarantees of the runs hold for it |
| RegistrySpec.FirstOf | net/service_discovery/run_server_discovery.cc:69-80 | the position of the first occurrence of a character, or the length |
| RegistryTexts.ReceivedPart | net/service_discovery/run_server_discovery.cc:228-235 | what is received is the part of the first 1023 characters before a NUL |
| RegistryTexts.ParsedAsNamed | net/service_discovery/run_server_discovery.cc:69-80 | a word, a name and an address with single spaces between are read as that command with that name and that address |
| RegistryTexts.NamedIfParsed | net/service_discovery/run_server_discovery.cc:69-80 | and a text read as a command is that word with that name and address |
| RegistryTexts.OnlySilenceIsIgnored | net/service_discovery/run_server_discovery.cc:228-237 | a request without a byte is not answered and changes nothing, every other is answered |
| RegistryTexts.AddingByText | net/service_discovery/run_server_discovery.cc:247-262 | add NAME ADDR and heartbeat NAME ADDR make queries of NAME answered with ADDR up to the TTL, unknown host after it, and change no other name |
| RegistryTexts.ModifyingByText | net/service_discovery/run_server_discovery.cc:284-298 | modify NAME ADDR does so for a name that is held, and says of any other that it does not exist |
| RegistryTexts.DeletingByText | net/service_discovery/run_server_discovery.cc:263-272 | delete NAME makes a held name unknown, and says of any other that it does not exist |
| RegistryTexts.RefusedByText | net/service_discovery/run_server_discovery.cc:247-302 | a text is refused as invalid if and only if it asks to register without three parts, as unknown if and only if it starts with no command, and then changes nothing |
| ServiceRegistry.Registry.PruneExpiredServices | net/service_discovery/run_server_discovery.cc:44-55 | exactly the expired entries are erased |
| ServiceRegistry.Registry.HandleControl | net/service_discovery/run_server_discovery.cc:227-303 | map and reply after a control command, for every text received |
| ServiceRegistry.Registry.HandleQuery | net/service_discovery/run_server_discovery.cc:306-341 | map and reply after a query, for every text received |
| RegistryHistory.ExecuteAgrees | net/service_discovery/run_server_discovery.cc:247-302 | a command changes the entry of a name exactly as its reply says, or forgets an expired one |
| RegistryHistory.QueriesAgreeWithHistory | net/service_discovery/run_server_discovery.cc:306-341 | after every run, a query gets the address of the latest successful registration not deleted since, if its age is at most the TTL, else unknown host, whatever was pruned |
| RegistryHistory.LookupListsTheVisible | net/service_discovery/run_server_discovery.cc:273-283 | a lookup is answered with exactly the names a query would resolve and the addresses it would give, or that there are no services when there is no such name |
| RegistryHistory.HeldUntilFoundExpired | net/service_discovery/run_server_discovery.cc:44-55 | after every run a name is in the map if and only if it is registered and no lookup and no query of it was handled since its registration expired |
| RegistryHistory.LazinessShowsExactlyOnUnprunedEntries | net/service_discovery/run_server_discovery.cc:263-298 | modify and delete disagree with what a query sees if and only if the name is registered, expired, and not looked up or queried since |
| RegistryHistory.ExpiredServiceIsRevived | net/service_discovery/run_server_discovery.cc:284-298 | a late modify revives an expired service, unless a lookup came in between |
| Heartbeat.ServiceTTL | net/rpc/rpc_dispatcher.cc:30-39 | the TTL is the configured one, or 10000 if that is missing or not positive, so always positive |
| Heartbeat.VisibleWhileYoung | net/service_discovery/run_server_discovery.cc:306-341 | a query is answered by the age of the last registration alone, be it an add, a heartbeat or a modify: its address up to the TTL, unknown host after it |
| Heartbeat.PutsRegister | net/service_discovery/run_server_discovery.cc:247-262 | an add or a heartbeat that arrives registers the service, whatever the center holds |
| Heartbeat.HeartbeatsKeepTheServiceVisible | net/rpc/rpc_dispatcher.cc:41-66 | registrations at most interval plus delay apart, within the TTL, keep every query in between answered with the address, unless the name is deleted or moved |
| Heartbeat.IntervalFitsFromOneHundred | net/rpc/rpc_dispatcher.cc:46-47 | the interval is within the TTL if and only if the TTL is at least 100 ms |
| Heartbeat.IntervalIsHalfTheTTL | net/rpc/rpc_dispatcher.cc:46-47 | the interval is half the TTL from 200 ms on and 100 ms below |
| Heartbeat.OneMissedHeartbeat | net/rpc/rpc_dispatcher.cc:46-47 | after one missed heartbeat a query still gets the address if and only if the TTL is at least 200 ms and the next heartbeat is at most the rounding late |
| Heartbeat.ShortTTLsBlinkOut | net/rpc/rpc_dispatcher.cc:46-47 | with a shorter TTL, punctual heartbeats still leave a moment in each interval when the host is unknown |
| MsgIds.Generator.GenMsgID | net/rpc/msg_id_util.cc:18-47 | seeding, counting up and running off the string, with the state left behind |
| MsgIds.Generator.CountUp | net/rpc/msg_id_util.cc:35-42 | the carry loops increment the digit string in place, or find no digit to increment |
| MsgIds.IncrementAddsOne | net/rpc/msg_id_util.cc:35-42 | the number written by the digits grows by one |
| MsgIds.ExactlyWhenOutOfRange | net/rpc/msg_id_util.cc:19-42 | the carry runs off the string if and only if the id is all nines and there was more than one seeding; ids have twenty digits |
| MsgIds.IdsCountUp | net/rpc/msg_id_util.cc:18-47 | after k calls the generator holds the seed plus k, while that has twenty digits |
| MsgIds.SeedIsHandedOut | net/rpc/msg_id_util.cc:18-33 | a seeding hands out and keeps its twenty random bytes modulo ten, and without twenty bytes hands out nothing |
| MsgIds.IdsHandedOut | net/rpc/msg_id_util.cc:35-47 | the k-th call after a seeding hands out twenty digits that read as the seed plus k, while that has twenty digits |
| MsgIds.IdsAreDistinct | net/rpc/msg_id_util.cc:18-47 | all ids handed out from one seeding on, the seed's own included, are pairwise different |
| MsgIds.SecondWrapRunsOff | net/rpc/msg_id_util.cc:31 | seeded with nines twice, the third call runs off the string |

## Left out

* Sockets, epoll, eventfd, timerfd, clocks and randomness: the result of each call is an input.
* Buffer indices beyond 32 bits, failing allocation and shared_ptr counts; a request nobody holds any more makes its callbacks do nothing.
* A TinyPB message is a value the encoder returns, not a shared object it changes, so two entries of one list being the same object is not captured; other protocol types are skipped by the encoder and do not occur.
* Callbacks are identities; a write callback does not touch the send queue, and a read callback touches its connection only by disconnecting it.
* RpcDispatcher: requests a server decodes are delivered, and replies to them are separate steps at any later time; service lookup, Protobuf parsing and serialisation are opaque (a response either parses or does not).
* Deadlines are read from the wall clock while the timerfd runs on the monotonic one; the model has one clock that never goes back, also for the service center, which reads it once per request.
* Timer events are kept in a map from their identity, not as objects of their own, and each is added once by its creator; arming the timerfd is atomic with the rest of its operation.
* Concurrent calls on one channel, a controller reset while its call runs, and what the user's closure does beyond running.
* The event loop's wake-up and stop flag: queued tasks and collected timers may run at any later time, and cancel tasks may be refused.
* Checks in CallMethod before the request state exists: they complete at once and touch nothing else.
* Several timer operations on the loop's queue by other threads within one small step of a call: they come before or after it.
* The texts of the replies, the layout and order of a lookup reply, receive errors on the service center's sockets, and reading its configuration.
* Checksum validation: the field is only carried.
