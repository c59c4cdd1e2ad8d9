# The CXL transaction relay, verified

A Dafny model of the relay between a simulator host and an RTL device, with proofs of what the
relay must never get wrong. A transaction is a 288-byte record. It goes from the host through
`request_client_pipe` to the relay, through `request_server_pipe` to the DPI bridge and the
SystemVerilog echo device, and back through `reply_server_pipe` and `reply_client_pipe`. In local
mode one process copies records from pipe to pipe with two threads; in TCP mode a client and a
server process with two threads each put a byte stream in between. No code compares packet
numbers, looks at what a pipe read returned, or puts short receives together again. That it works
all the same rests on global invariants, and those are proved here.

`dafny verify dfyconfig.toml` checks everything.

## How the model is built

- `Bytes`, `Packets`, `Framing`: little-endian integers, the record and its image, the answer the
  echo device owes (`Answer`, `Reply`), and cutting byte strings into records.
- `Pipeline`: the specification. One FIFO up, the device, one FIFO down; a FIFO may be cut, which
  loses a tail of what is under way and everything after it.
- `Relay`, `Deployment`: the relay as a concurrent state machine. Pipes and streams are byte
  strings, every thread has a program counter and a static buffer, `send` accepts any number of
  bytes, `recv` returns any number. Both modes are proved to refine the pipeline, over every
  interleaving.
- `ClosedRun`: testhost against the device, in both modes: every schedule without a fault
  terminates, correctly.
- `Channel`, `Reconnect`: TCP mode over any number of connections, with readers and repliers left
  over from old connections that share one static buffer; exactly which steps lose a transaction.
- `Recovery`, `Session`: a waiting host can still be answered, and a host's whole script be played
  to its end, exactly as long as no transaction is lost.
- `BytePipes`: the same system with pipes of bytes instead of records makes the same runs.
- `NamedPipe`, `CommLib`, `RelayThreads`, `ClientThread`, `Device`, `Host`, `Lanes`: the code
  itself, as classes whose methods update fields, arrays and pipes, proved against the
  specifications above. What the network and the kernel will answer is given, call by call (which
  connects succeed, what each `send` and `recv` takes or gives, when the stop flag goes up), and
  the methods' results are exact in these terms. Turns of the relay's thread loops are proved to
  be acts of the state machine in `Relay`.
- `Connection`, `ClientMachine`: those acts are events of `Reconnect`, and the client thread's
  control flow is exactly that of the client in `Reconnect`.

Assumptions about the environment: writing a record to a FIFO is atomic, and where the relay's own
threads write it succeeds; reading from an empty one waits (`write()` and `read()` in IEEE Std
1003.1-2017, System Interfaces). TCP is a reliable, ordered byte stream (section 2.2 of RFC 9293).
A connected socket on which `send` has failed goes on failing (`Relay.RecoveredSocketMixes` shows
why that is needed); on one that is not connected yet `send` fails until it is. Pipes start empty,
and thread creation succeeds. The client's stop flag is set by the environment, if at all: no code
in the repository raises `cxl_client_stopflag`. `SIGPIPE` and the reuse of descriptor numbers are
not modelled: every connection has its own identity.

Where the code and what one might expect of it differ, the code is followed:

- A reply never carries the request's `r0w1` (cxl_relay/dpi_sv.c:148-155).
- A forwarder's write puts the value at byte 0 of the payload, but its read looks for it at byte
  `addr & 7`. So a read delivers every reply's payload exactly at addresses divisible by 8
  (`Lanes.RtlReadNeedsAlignment`).
- A written value is never looked at again on its own: `issue()` does not look at the reply to a
  write, and the echo device keeps nothing, so that a later read through it returns a counting
  pattern whatever was written (`Host.EchoForgets`). With a device that returns what was written
  from byte 0 on, a read after a write gets the value if and only if the address is a multiple of
  8 or the value is zero (`Lanes.WriteThenRead`).
- A read that leaves its 8-byte lane does not continue into the next word; it agrees with the byte
  stream exactly when the bytes beyond the lane are zero (`Lanes.AccessAgrees`), which for the
  default word they never are (`Lanes.LeavingTheLane`).
- A connected client has no reader if the stop flag is seen between the connect and the spawn, and
  only then (`ClientThread.ReadersPerConnect`, `ClientThread.StoppedBeforeAnyReader`).
- A reader left over from an old connection that is still blocked on the pipe when the host sends
  its next request may take that request, and then it is lost for good
  (`Reconnect.ReaderTakesRequest`).
- A reader on whose socket a send has failed goes on using it. If the failing call was the last,
  zero-length one, the request before has been answered all the same, and the next one that the
  reader takes is lost (`Channel.SendFailsStep`, `Reconnect.ReaderTakesRequest`).
- A sending thread does not stop when a send has failed; it goes on taking records out of its pipe
  and losing them (`RelayThreads.Endpoint.SendThread`).

## Model

| member | source | states |
|---|---|---|
| Packets.Layout | cxl_relay/cxl_tlp_fifo.h:11-20 | where each field of any record lies in its image: number at byte 0, type 4, origin 8, four bytes of padding, address 16, `r0w1` 24, size 28, data 32 |
| Packets.EncodeDecode | cxl_relay/cxl_tlp_fifo.h:11-20 | every record survives the trip through its memory image |
| Bytes.ByteOfValue | cxl_relay/cxl_tlp_fifo.h:13-18 | integers lie in memory little-endian: byte k is digit k, base 256 |
| Packets.DecodeEncode | cxl_relay/cxl_tlp_fifo.h:11-23 | reading an image into a record and writing it again changes at most the four padding bytes |
| Packets.ReplyIdentifiesRequest | cxl_relay/dpi_sv.sv:47-64 | the promised reply has the request's number, type, origin, address and size, `r0w1` 0, the counting pattern for reads or the request's data for writes, and zeros behind |
| Framing.ChunksJoined | cxl_relay/named_pipe.c:355-459 | records written one after the other are read back as the same records |
| Framing.JoinedChunks | cxl_relay/named_pipe.c:355-459 | cutting into records loses nothing if and only if the byte string is a whole number of records |
| Pipeline.RepliesInOrder | cxl_relay/dpi_sv.sv:39-72 | for any number of requests under way and any cuts, the k-th reply answers the k-th request, and the device sees the requests in order |
| Pipeline.Conservation | cxl_relay/cxl_tlp_relay_server.c:252-309 | nothing is made up at any time, and nothing is lost unless a FIFO is cut |
| Pipeline.OneTransaction | cxl_relay/dml_debug.c:141-168 | a host that waits for each reply has at most one transaction live, and the reply ready for it answers its last request |
| Relay.HopRefines | cxl_relay/cxl_tlp_relay_server.c:171-212 | in either mode each act of a thread, socket or pipe is one step of a FIFO, or changes nothing the FIFO shows |
| Relay.RecoveredSocketMixes | cxl_relay/cxl_tlp_relay_client.c:302-347 | were a socket to accept records again after part of one, the receiver would count and forward a mixture of two records; hence the assumption that it does not |
| Deployment.Refinement | cxl_relay/cxl_tlp_relay_server.c:244-406 | every run of a deployment, in local or TCP mode, under every interleaving and chunking, is a run of the pipeline |
| Deployment.InOrder | cxl_relay/cxl_tlp_relay_server.c:174-211 | framing and order under short receives and failures: what leaves a hop is a prefix of what its sender took in, and the k-th reply is the answer to the k-th request |
| Deployment.Lossless | cxl_relay/cxl_tlp_relay_client.c:212-347 | without faults, and always in local mode, every request and reply not yet at its end is under way, in order |
| Deployment.ReplyMatches | cxl_relay/dml_debug.c:141-168 | with the synchronous host at most one transaction is live anywhere, and the next reply dequeued carries number, type, origin, address and size of the request just sent |
| Deployment.Counters | cxl_relay/cxl_tlp_relay_server.c:179-282 | in every reachable state received is at most one ahead of sent, and only while that send is uncounted or has failed; until a receive goes wrong nothing is counted sent that was neither received nor is on the wire; at rest the difference is exactly the whole records on the wire |
| Deployment.PipesStayAligned | cxl_relay/cxl_tlp_relay_server.c:274-393 | all four pipes hold whole records in every reachable state, so threads that ignore the read's result fill their buffers completely |
| ClosedRun.TestHostRecords | cxl_relay/testhost.c:89-128 | main() sends records numbered from 1, of type 1 and origin 1, 4-byte accesses of address 0, reads and writes in turn starting with a read, all carrying 0xfacefeed, and then the last one with number 0 |
| ClosedRun.TestHostWellFormed | cxl_relay/testhost.c:89-128 | main() sends n requests with nonzero numbers and then a stop packet |
| ClosedRun.NotStuck | cxl_relay/testhost.c:89-128 | in either mode some thread can always move, without a fault, until everything is over |
| ClosedRun.StepsBounded | cxl_relay/cxl_tlp_relay_server.c:252-406 | the ranking measure, which grows with every step, never exceeds its bound, and reaches it exactly when everything is over |
| ClosedRun.EveryRunCompletes | cxl_relay/dpi_sv.sv:39-72 | in local mode and in TCP mode, every run without a fault is bounded and stops exactly where all requests are answered, the device has finished on packet 0, pipes and wires are empty and all relay threads blocked; in local mode after exactly 8 N + 4 steps |
| ClosedRun.TestHostCompletes | cxl_relay/testhost.c:89-128 | the same for main() with any number of transactions |
| Channel.Step | cxl_relay/cxl_tlp_relay_client.c:294-351 | with any number of old workers and connections, one record in a direction stays at one place, moves forward only, once lost never reappears, and is lost by exactly the acts of Channel.Loses, reads by a worker whose socket has failed among them |
| Channel.RecvStep | cxl_relay/cxlcommlib.c:240-293 | a receive of full size yields the record under way on the connection being read; a short one had got part of it, or the record was lost before |
| Channel.SendFailsStep | cxl_relay/cxlcommlib.c:216-238 | a failed send on a connected socket leaves it failing; it loses the record if and only if it was this worker's own and its last byte had not been accepted, or another worker is sending it on the same socket |
| Channel.OnlyPlace | cxl_relay/cxl_tlp_relay_client.c:294-351 | a record that is somewhere is nowhere else and not lost |
| Reconnect.AtMostOnce | cxl_relay/cxl_tlp_relay_client.c:173-347 | over any number of connection losses each packet number reaches the device at most once, in order and none after the stop packet, and each reply the host gets is the device's answer to that very request |
| Reconnect.StepLoses | cxl_relay/cxl_tlp_relay_client.c:257-347 | a step loses the transaction if and only if it is a bad receive of it, the failing of its own send or of another on the same socket, the closing of the socket it is being sent on, or a read by a worker whose socket has failed or whose connection either side has given up |
| Reconnect.ReaderTakesRequest | cxl_relay/cxl_tlp_relay_client.c:302-347 | a reader blocked in the pipe read may take the request, whatever has become of its connection, and loses it if and only if a send on its socket has failed before or either side has given up its connection; one left over from an earlier connection always does |
| Reconnect.LossIsFinal | cxl_relay/cxl_tlp_relay_client.c:257-268 | after a loss the host waits forever; no reconnect brings it a reply to anything, nor the device the stop packet |
| Recovery.AnswerableUnlessLost | cxl_relay/cxl_tlp_relay_client.c:173-347 | in every reachable state some schedule brings a waiting host its answer, or the device the stop packet, if and only if the transaction is not lost; if it is, no schedule brings anything |
| Session.TestHostNumbered | cxl_relay/testhost.c:89-128 | main() numbers its requests upwards |
| Session.Outcome | cxl_relay/testhost.c:89-128 | on every run of a script over any number of losses: replies are the answers in order, the stop packet is sent only when all are in, the script can be played to its end if and only if nothing is lost, and otherwise exactly one transaction is lost and nothing is asked, got or finished any more |
| BytePipes.SameRuns | cxl_relay/named_pipe.c:355-459 | with pipes of bytes, read by any number of workers into stale buffers, the system makes exactly the runs it makes with pipes of records, and all pipes stay aligned |
| Connection.ReaderEvents | cxl_relay/cxl_tlp_relay_client.c:302-347 | what a reader does on a connection, as proved of its code, are events of the whole system |
| Connection.ReplyLoopEvents | cxl_relay/cxl_tlp_relay_client.c:212-273 | so is what the client's reply loop does |
| Connection.ReplierEvents | cxl_relay/cxl_tlp_relay_server.c:252-289 | so is what a replier does |
| Connection.ServerLoopEvents | cxl_relay/cxl_tlp_relay_server.c:171-212 | and what the server's receive loop does |
| ClientMachine.ClientExactly | cxl_relay/cxl_tlp_relay_client.c:173-288 | the system's client can make a step if and only if the code's control flow allows it and, for a receive, the bytes have arrived |
| ClientMachine.TraceIsLegal | cxl_relay/cxl_tlp_relay_client.c:173-288 | every run of the system leaves a legal trace of the client thread, with one reader per connect |
| Reconnect.NoLossWithoutFault | cxl_relay/cxl_tlp_relay_server.c:171-224 | while no send or receive has failed or come back short, the transaction is at a place from which it is not lost, whatever the schedule |
| Reconnect.OneReaderPerConnection | cxl_relay/cxl_tlp_relay_client.c:173-288 | one reader per successful connect, stop flags up before every connect and accept and down while a connection is served, the server's socket variable set only from accept to close, and spawning never blocked |
| Reconnect.StoppedReader | cxl_relay/cxl_tlp_relay_client.c:302-324 | with the stop flag up and no new reader spawned, a reader takes nothing from the pipe but one record it was already waiting for, and one at its loop head stays there or returns |
| Reconnect.StoppedReplier | cxl_relay/cxl_tlp_relay_server.c:252-274 | the same for repliers and their flag |
| Reconnect.WorkersSockets | cxl_relay/cxl_tlp_relay_client.c:294-297 | the reader of the w-th connection sends on that connection's socket or, started late, on a later one, never on an earlier; a replier on a connected socket or none |
| Reconnect.FailedForGood | cxl_relay/cxl_tlp_relay_client.c:335-345 | once a send has failed on a connected socket no reader's send on it ever succeeds again |
| NamedPipe.Pipe.Write | cxl_relay/named_pipe.c:355-368 | a write appends the whole buffer, or nothing and says so |
| NamedPipe.Pipe.Read | cxl_relay/named_pipe.c:370-377 | a read takes up to one record from the front and overwrites just that much of the buffer |
| CommLib.Socket.CxlSend | cxl_relay/cxlcommlib.c:216-238 | for all answers of the kernel: appends exactly the prefix they take, returns 1 if and only if every call succeeds, and then every byte was appended once and in order; and is a sequence of the state machine's sends |
| CommLib.SendsUntilNothing | cxl_relay/cxlcommlib.c:224-235 | the calls go on until one fails or there was nothing left to send, one call more than it takes to get rid of all bytes, and not one further |
| CommLib.Socket.CxlRecv | cxl_relay/cxlcommlib.c:240-262 | one receive, of exactly as many bytes as the kernel's answer, the stream and the record allow, which is one receive of the state machine |
| RelayThreads.Copier.Turn | cxl_relay/cxl_tlp_relay_server.c:360-406 | one turn of a local-mode thread is the machine's fetch followed by its forward |
| RelayThreads.Copier.Run | cxl_relay/cxl_tlp_relay_server.c:252-309 | until the thread blocks it moves every byte on, in order, and counts the records |
| RelayThreads.Endpoint.SendTurn | cxl_relay/cxl_tlp_relay_client.c:302-347 | one turn of a sending thread, exact in the kernel's answers, is a run of the machine's acts that leaves pipe, socket, buffer and counter as the machine has them |
| RelayThreads.Endpoint.SendThread | cxl_relay/cxl_tlp_relay_client.c:294-351 | until it blocks: the pipe is emptied, and the socket has accepted and the counter counted exactly what the kernel's answers allow |
| RelayThreads.SendsAllWhole | cxl_relay/cxl_tlp_relay_client.c:335-345 | that is all records if no call fails; otherwise the whole ones counted and at most part of one more, and nothing after it |
| RelayThreads.Endpoint.ReceiveTurn | cxl_relay/cxl_tlp_relay_client.c:212-273 | a record is counted and forwarded if and only if the receive is whole; anything else closes the connection, and no whole record taken off the stream is dropped |
| RelayThreads.Endpoint.ReceiveLoop | cxl_relay/cxl_tlp_relay_server.c:171-212 | forwards every record that comes whole and in a row, and no other byte; ends waiting if and only if nothing is left and no error comes, and otherwise with the connection closed |
| ClientThread.Client.ReplyLoop | cxl_relay/cxl_tlp_relay_client.c:212-273 | looks at the stop flag before each receive; enqueues every reply that comes whole and in a row until the flag is up; ends waiting only with the stream drained, or with the connection given up after a bad receive; by acts of the machine's receiver |
| ClientThread.Client.Run | cxl_relay/cxl_tlp_relay_client.c:143-292 | for any network and any moment of stopping: it goes on trying until a connection stays up or the stop flag is seen, within three looks of its going up; the reply pipe has got all replies that arrive whole and in a row on each connection, in order; legal traces, with one reader per connect unless stopped directly after the connect |
| ClientThread.Neighbours | cxl_relay/cxl_tlp_relay_client.c:173-288 | what comes right before each event in every legal trace |
| ClientThread.ReadersPerConnect | cxl_relay/cxl_tlp_relay_client.c:195-205 | in every legal trace spawns equal connects, but for one if and only if the trace stops before the spawn or the stop flag was seen directly after the connect |
| ClientThread.StoppedBeforeAnyReader | cxl_relay/cxl_tlp_relay_client.c:195-287 | there is a legal complete trace with one connect and no reader |
| ClientThread.FlagBeforeReconnect | cxl_relay/cxl_tlp_relay_client.c:257-286 | in every legal trace a spawned reader's stop flag is raised before the next connect attempt and before the return |
| Device.Dpi.Request | cxl_relay/dpi_sv.c:95-133 | the oldest request is copied field by field; the caller's data beyond its size stays |
| Device.Dpi.Response | cxl_relay/dpi_sv.c:135-172 | the reply has every field but `r0w1`, as many data bytes as its size says, and zeros, whatever the static buffer held |
| Device.Module.FillReply | cxl_relay/dpi_sv.sv:56-62 | counting pattern for reads, the request's data for writes |
| Device.Module.Turn | cxl_relay/dpi_sv.sv:39-72 | one request in, exactly its promised reply out, or finished on packet 0, whatever all reused records held |
| Device.Module.Run | cxl_relay/dpi_sv.sv:33-75 | until it blocks or finishes, the device answers every request before the first stop packet, in order, and reads nothing behind it |
| Device.RepliesStop | cxl_relay/dpi_sv.sv:47-69 | every request before the first stop packet is answered, the k-th by its own reply; requests after it have no effect and stay unread |
| Host.LocalSystem.Exchange | cxl_relay/testhost.c:108-118 | through all pipes, threads and buffers, the reply is the device's answer to the request, and nothing is left under way |
| Host.Cosim.SendAccess | cxl_relay/dml_debug.c:96-192 | each call uses up one number; numbers reaching the device are nonzero and strictly increasing for the first 2^31 - 2 calls; the error and time-end paths send nothing |
| Host.TestHost | cxl_relay/testhost.c:60-138 | for any n the device gets the records of ClosedRun.TestHostRecords, the host the counting pattern from i + 1 on for each even i and the written word for each odd i, under the request's number, and at the end all pipes are empty and the device has finished |
| Host.ForwardReceiver.IssueRead | modules/forward-receiver/forward-receiver.c:106-150 | the value is that of the dummy word's lane, or of the device's pattern for this access's packet number, from byte `addr & 7` on; zero if the pipe does not open; with RTL exactly one more record reaches the device: a read of this address and size, of type 2 for memory access and 1 otherwise, from origin 1, without payload |
| Host.ForwardReceiver.IssueWrite | modules/forward-receiver/forward-receiver.c:152-172 | exactly one more record reaches the device: a write to this address, of type 2 for memory access and 1 otherwise, from origin 1, whose payload is the value, so that its first size bytes are the value modulo 256^size |
| Lanes.AndMask | modules/forward-receiver/forward-receiver.c:109-140 | masking with n low ones is reduction modulo 2^n |
| Lanes.MaskValue | modules/forward-receiver/forward-receiver.c:109-109 | the shifted all-ones mask has exactly the 8 size low bits set |
| Lanes.ExtractIsLane | modules/forward-receiver/forward-receiver.c:109-141 | shift-then-mask is the little-endian value of bytes align to min(8, align + size) - 1, below 256^size |
| Lanes.AccessAgrees | modules/forward-receiver/forward-receiver.c:138-145 | an access equals the byte stream of the repeated word if and only if the bytes it needs beyond its lane are zero |
| Lanes.DefaultBytes | modules/forward-receiver/forward-receiver.c:41-41 | the default word reads as bytes 0x10, 0x32 and so on to 0xfe in each lane |
| Lanes.LeavingTheLane | modules/forward-receiver/forward-receiver.c:41-41 | for words with a nonzero lowest byte, such as the default, that is if and only if the access stays inside its lane |
| Lanes.SplitReads | modules/forward-receiver/forward-receiver.c:138-145 | every partition of a range into accesses inside their lanes reads the same bytes |
| Lanes.RtlReadIsLane | modules/forward-receiver/forward-receiver.c:124-134 | the RTL path meets the same specification on the reply's first eight bytes |
| Lanes.RtlReadNeedsAlignment | modules/forward-receiver/forward-receiver.c:124-134 | a read delivers every reply's payload if and only if its address is a multiple of 8 |
| Lanes.EchoRead | cxl_relay/dpi_sv.sv:56-62 | a read through the echo device returns the counting pattern from byte `addr & 7` on, cut off at the access size |
| Host.EchoForgets | cxl_relay/dpi_sv.sv:39-64 | it does so whatever accesses came before, so a written value is never read back through the echo device |
| Lanes.WriteFidelity | modules/forward-receiver/forward-receiver.c:153-164 | the record the device decodes holds the value in its first eight bytes and so modulo 256^size in its first size bytes, zeros behind, with number, type, origin and address intact |
| Lanes.WriteThenRead | modules/forward-receiver/forward-receiver.c:124-164 | write then read of one place on a device that returns what was written from byte 0 on: the read sees the value without its `addr & 7` lowest bytes, so the value itself if and only if the address is a multiple of 8 or the value is zero |

## Left out

- Socket creation, bind, listen, accept and connect internals, error tables, delays, timestamps: only success or failure of connects and the outcome of each send and receive remain, as arbitrary choices.
- Environment variables, log files, printing, FIFO creation and opening: no effect on the records; an opening that fails is a parameter of Host.Cosim.SendAccess.
- The dispatch functions of cxl_relay/cxl_tlp_fifo.c: a single branch is ever taken, so the pipe functions stand in their place.
- Failing pipe writes by the relay's threads and the device, a full pipe, and simics_validate_receive, which always accepts.
- Lanes.WriteThenRead: the device that stores is not in the repository; the bytes are numbered from the address without wrap-around at 2^64.
- Server stop flags, message queues and the bounded wait of CXL_Recv: nothing sets or uses them.
- Several requests outstanding across a reconnect: several readers then overwrite one buffer and the code promises nothing; Reconnect is about the host that waits.
- Payload sizes above 256, for which the copies in cxl_relay/dpi_sv.c leave their buffers, access sizes other than 1 to 8, and packet numbers after the signed counter overflows: undefined in C. Answer stops at the end of the payload.
- `base_address` and the memory layout at the DPI boundary: the C and SystemVerilog records disagree, so that hop is modelled by named fields.
- PCIe BAR mapping and the Python and DML configuration modules: their meaning lies in libraries that are not part of this model.
- Host.LocalSystem.Exchange: runs the other threads one after the other while the host waits; all other schedules are covered by Deployment and ClosedRun.
- ClosedRun.EveryRunCompletes: runs without a fault only, in TCP mode; Session says what becomes of a script after one.
- ClientMachine.ClientExactly: leaves out the exit on the stop flag, which Reconnect does not have; ClientThread has it.
- Deployment.Refinement: the two directions of a TCP connection fail independently, which allows more runs than a shared socket does; Reconnect couples them.
