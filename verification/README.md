# The machinery around STCP

This project models the mysocket/STCP stub, that is, everything around the transport layer that
students write: the TCP checksum, the packet queues and their locking, the backlog of a listening
socket, datagram framing over a byte stream with simulated unreliability, the chained hash table,
and the file protocol of the sample client and server. The transport layer itself is an arbitrary
client of these interfaces.

The code that works on queues, slots, tables, buffers and streams is class methods proved against
functions on values. What holds over whole runs is proved as lemmas about those functions, by
induction over arbitrary sequences of operations; mywrite, myclose and stcp_app_recv appear there
only, as steps of the machine in `Wakeup`. What was sent, written, admitted or completed in a run
is read off its operations, so that the results compare what the code does with what it was asked
to do.

| file | models |
|---|---|
| `Checksum.dfy` | tcp_sum.c against RFC 1071 |
| `PacketQueue.dfy` | the linked packet queues of mysock.c |
| `Stream.dfy` | stcp_app_send, stcp_fin_received, myread |
| `Wakeup.dfy` | the lock, the condition variable, stcp_wait_for_event, mywrite, myclose |
| `CloseOrder.dfy` | whole runs of these: what went through the queues, and the close event |
| `AcceptWakeup.dfy` | waiting in accept: `connection_cond` and its signals |
| `Descriptors.dfy` | the descriptor table, transport_thread_func |
| `ListenQueue.dfy`, `Demux.dfy` | connection_demux.c, one call and whole runs |
| `Framing.dfy`, `Network.dfy` | network_io_tcp.c, network.c |
| `EndToEnd.dfy` | stcp_network_send to stcp_network_recv |
| `HashTable.dfy` | mysock_hash.h |
| `Codec.dfy`, `FileTransfer.dfy` | server.c, client.c |

Assumptions, stated once:

- In `Demux` each critical section is one atomic step; clearing `blocking` and appending to the
  completed list are two. The code changes `cur_len` in `_mysock_enqueue_connection` under the
  shared read lock only (connection_demux.c:160, 201), while `_mysock_dequeue_connection` also
  holds `connection_lock`, so the code relies on those two not overlapping: an overlap leaves the
  counter wrong by one (`ListenQueue.OverlapMiscounts`), and the assert at connection_demux.c:113
  can then fail (`ListenQueue.OverlapFiresAssert`). Allocating a descriptor is one step too,
  although `_mysock_new_mysocket` takes no lock (mysock.c:54-62): two calls that overlap can get
  the same descriptor (`Descriptors.OverlapSharesDescriptor`). Queued descriptors are not closed
  before they are accepted, and peers are AF_INET.
- In `Wakeup` each queue has one consumer, the transport thread or, for `app_send_queue`, the
  application; `Wakeup.SecondConsumerLosesWakeup` shows why, and `Wakeup.OnlyDrainsLoseWakeups`
  that no wake-up is lost in any other way. The copy that `_mysock_dequeue_buffer` makes after
  unlocking is a step of its own. Spurious wake-ups and timeouts may happen at any time.
- In `EndToEnd` the connection between the hosts neither fails nor ends; its bytes are written and
  read in pieces of any size, at any time. A send queues its bytes behind those not yet written.
  The buffer that stcp_network_send has on its stack is aligned as tcp_sum.c:46 asserts; the
  receiver's buffer need not be.
- `rand_r`, short reads and writes, the scheduler and the transport layer are arbitrary choices.
- Memory allocation succeeds.

Where the code and its comments differ, the model follows the code: the close event is reported
whatever the flags say (stcp_api.c:78, against stcp_api.h); a datagram that does not fit the buffer
is cut but its full length is returned (mysock.c:221-222); and get_nvt_line on a stream that ends
early leaves the partial line, not an empty string (client.c:360-364).

Properties that hold only under a condition, with the exact condition:

- A read returns 0 and latches end of file exactly when the marker was sent and every byte before
  it was read, or when it or an earlier read asks for 0 bytes (`Stream.ReadLaw`).
- Recomputing the checksum accepts exactly what the all-ones test of section 1 of RFC 1071 accepts,
  less the stored value 0xffff (`Checksum.AcceptsIffAllOnes`).
- A one-word change goes unnoticed exactly when it exchanges 0x0000 and 0xffff outside the checksum
  field (`Checksum.OneWordError`).
- A packet survives framing exactly when its length is 1 to 65535 (`Framing.RoundTrip`).
- A send that reports success has put the frame on the stream exactly when no write returned 0
  (`Framing.Pipe.SendPacket`).
- A pair of endpoints aborts, or reads past a buffer, exactly when a send has a total length
  outside that of a segment or an endpoint without addresses or peer port, or when a datagram is
  received into a buffer shorter than it or with bit 1 of its address set
  (`EndToEnd.FailsExactlyWhen`).
- An overlap of a SYN with an accept leaves `cur_len` wrong exactly when the SYN is admitted, and,
  where the accept is around the SYN, gets a descriptor (`ListenQueue.OverlapMiscounts`).
- The assert at the end of a hash-table delete holds exactly when the key had at most one entry
  (`HashTable.Table.Delete`).
- The client gets a file exactly when its length fits an int (`Codec.TurnOnAnswer`).
- get_nvt_line writes past its buffer exactly when the line and its NUL do not fit
  (`FileTransfer.Incoming.GetNvtLine`); a response to a name that fits the server's buffer always
  fits the client's (`FileTransfer.ResponseFits`).

## Model

| member | source | states |
|---|---|---|
| `Checksum.TcpChecksum` | tcp_sum.c:14-67 | the result is the RFC 1071 checksum of pseudo-header and segment, with an end-around carry after each addition, in either byte order; as a number it is the negated sum, modulo 65535, of address words, 6, length and segment words; never 0xffff |
| `Checksum.ChecksumIsArithmetic` | tcp_sum.c:14-67 | the RFC 1071 checksum is that arithmetic on the bytes of addresses, protocol, length and segment |
| `Checksum.PseudoWords` | tcp_sum.c:20-43 | the six pseudo-header words are those of the two addresses, 6, and the length |
| `Checksum.SumPseudoHeader` | tcp_sum.c:41-43 | the accumulator is the sum of the six pseudo-header words |
| `Checksum.SumSegment` | tcp_sum.c:45-60 | no addition overflows the signed 32-bit accumulator; the sum counts th_sum as zero and pads a lone last byte |
| `Checksum.SumBound` | tcp_sum.c:32-60 | any 32768 words fit the accumulator |
| `Checksum.Complement` | tcp_sum.c:66 | the cast of the complement keeps the complement of the low 16 bits |
| `Checksum.FoldIsRep` | tcp_sum.c:62-64 | for every nonnegative int32 the two-step fold is congruent to the sum modulo 65535 and zero only for zero |
| `Checksum.OnesSumIsRep` | tcp_sum.c:48-64 | deferring the carries to the end does not change the one's complement sum |
| `Checksum.SetChecksum` | tcp_sum.c:70-84 | writes exactly bytes 16 and 17, with that number in network order on either host, with local as source and peer as destination |
| `Checksum.VerifyChecksum` | tcp_sum.c:87-105 | accepts exactly when bytes 16 and 17 hold that number, with peer as source and local as destination |
| `Checksum.StoredIsNetworkOrder` | tcp_sum.c:70-105 | what either host stores in th_sum, and accepts there, is that number in network order |
| `Checksum.SetThenVerify` | tcp_sum.c:70-105 | a segment that was set verifies at the other end, and no other byte changed |
| `Checksum.OneWordError` | tcp_sum.c:87-105 | changing exactly one word of an accepted segment is detected unless it exchanges 0x0000 and 0xffff outside th_sum |
| `Checksum.AcceptsIffAllOnes` | tcp_sum.c:87-105 | acceptance by recomputation is the RFC 1071 all-ones test and a stored value other than 0xffff |
| `Checksum.OnesSumSwap` | tcp_sum.c:42-64 | the little-endian sum is the byte swap of the big-endian one, for even and odd lengths |
| `Checksum.HostIndependent` | tcp_sum.c:42-105 | the bytes stored and the verdict do not depend on the host's byte order |
| `PacketQueue.TakeStream` | mysock.c:196-230 | a stream read moves the front bytes of the queue and loses none |
| `PacketQueue.Queue.Enqueue` | mysock.c:133-168 | appends one string; the list stays acyclic, tail is its last node, head is null exactly when tail is |
| `PacketQueue.Queue.Dequeue` | mysock.c:177-231 | a stream read shorter than the head copies exactly that many bytes and leaves the rest at the head; any other dequeue removes the head, copies what fits and returns its full length; the list stays well formed |
| `PacketQueue.Queue.DropFront` | mysock.c:207-208 | the in-place move leaves the rest of the head's bytes and no other node changed |
| `PacketQueue.Queue.Unlink` | mysock.c:214-218 | removes the head and clears tail with the last node |
| `Stream.Socket.AppSend` | stcp_api.c:254-264 | queues non-empty data only |
| `Stream.Socket.FinReceived` | stcp_api.c:266-272 | queues a zero-length marker |
| `Stream.Socket.MyRead` | mysock_api.c:212-233 | returns the next bytes and latches end of file on a result of 0 |
| `Stream.StreamLaw` | mysock_api.c:212-233 | over every run, the bytes read are a prefix of those sent before the first marker, and without zero-length reads the bytes pending are exactly the rest |
| `Stream.ReadLaw` | mysock_api.c:222-232 | after every run and for every size, when a read blocks, what it returns, and exactly when it returns 0 and latches end of file |
| `Stream.EofIsFinal` | mysock_api.c:222-230 | after a result of 0 every later read returns 0, whatever else happens |
| `Stream.PendingTake` | mysock.c:199-209 | a read of at least one byte never turns data into a marker |
| `Wakeup.EventSource.WaitForEvent` | stcp_api.c:62-127 | the loop computes the result of waiting for whatever other threads do during its waits |
| `Wakeup.WaitLaw` | stcp_api.c:62-127 | the wait lasts exactly until something is reportable or it times out; each data bit is set exactly when asked for and its queue is not empty, the close bit, whatever the flags, exactly when a close is pending on a drained queue, and is then withdrawn |
| `Wakeup.EventSource.Poll` | stcp_api.c:72-89 | bits 1, 2 and 4 of the result, each exactly under its condition, and the close request withdrawn when reported |
| `Wakeup.MaskRoundTrip` | stcp_api.h:17-19 | the bits of the three events, and back |
| `Wakeup.NoLostWakeup` | stcp_api.c:69-121 | in every interleaving of any number of threads, a sleeper whose queue is not empty, or whose event is there, is owed a broadcast by a thread that by unlocking and broadcasting wakes it; the lock has one holder |
| `Wakeup.FreeLockIsUsed` | mysock.c:152-219 | a thread that wants the free lock, or was woken, does its job with exactly the effects of the source, and sleeps again only if what it waits for is not there |
| `Wakeup.LockIsReleased` | mysock.c:152-219 | a thread that is done, or is to sleep or to copy, gives up the lock, and still owes the broadcast it owed; an idle one may start any job open to it |
| `Wakeup.WaitCanEnd` | stcp_api.c:91-121 | a sleeper may wake at any time, or time out if it has a deadline, and then ends its wait with an empty result |
| `Wakeup.UnlockedCopyIsSafe` | mysock.c:199-209 | in every reachable state, a partial dequeue that copies after unlocking finds the head it saw under the lock and leaves what an atomic dequeue would have left, whatever was appended meanwhile |
| `Wakeup.CopyKeeps` | mysock.c:204-209 | the copy outside the lock keeps the invariant behind NoLostWakeup and shortens exactly the head |
| `Wakeup.ReadyIsOwed` | mysock.c:152-194 | no critical section makes another thread's wait condition true without owing a broadcast |
| `Wakeup.SecondConsumerLosesWakeup` | stcp_api.c:78-87 | a run, given action by action, in which one drain of app_recv_queue by a second consumer leaves the transport thread asleep on a pending close event with no broadcast owed |
| `Wakeup.OnlyDrainsLoseWakeups` | stcp_api.c:69-121 | with any number of consumers, a sleeper that is ready with no broadcast owed was overlooked in a step in which another thread emptied app_recv_queue with a close pending, and in no other |
| `CloseOrder.CloseOrdering` | stcp_api.c:62-127 | over every run, each wait returned what was due; the close event comes at most once per myclose, exactly once or still pending after a single one, never with APP_DATA, and after every byte of every mywrite so far was taken; an empty result means timeout |
| `CloseOrder.QueuesConserve` | mysock.c:133-231 | over every run, what was put on a queue is what was taken off it and then what it holds: byte for byte, and for network_recv_queue packet by packet |
| `CloseOrder.HistoryIsRun` | stcp_api.c:62-127 | bytes written and taken, close calls and results of the waits are those of the actions of the run |
| `AcceptWakeup.NoLostAccept` | connection_demux.c:88-301 | with any number of accepting and completing threads and one signal per completion, while a thread sleeps every completed connection has a thread that owes a signal or is on its way; the connections taken, then those waiting, are the ones added in order; every completion started is added once or its thread still waits for the lock; so one that completes once is never taken twice |
| `AcceptWakeup.HelpersHelp` | connection_demux.c:88-301 | a signal wakes the sleeper that is picked, and an accepting thread that gets the lock takes the first completed connection |
| `AcceptWakeup.LockIsReleased` | connection_demux.c:88-301 | a thread that is done or sleeps gives up the lock, and owes a signal if it added a connection |
| `AcceptWakeup.StepKeeps` | connection_demux.c:88-301 | every step keeps mutual exclusion and a helper per completed connection while a thread sleeps |
| `Descriptors.DescriptorTable.NewMysocket` | mysock.c:39-67 | the lowest free index, a context that knows it, nothing else changed; on a full table -1 and no change |
| `Descriptors.DescriptorTable.FreeContext` | mysock.c:308-338 | clears the context's own entry and never that of another |
| `Descriptors.DescriptorTable.GetContext` | mysock.c:72-77 | the live context at the index, which carries that index |
| `Descriptors.Context.UnblockApplication` | stcp_api.c:28-48 | unblocks once, turns EINTR into success, and completes a passive connection |
| `Descriptors.Context.TransportThread` | mysock.c:343-393 | the application is unblocked and a passive connection completed exactly once; the error is the one it was unblocked with, else the transport's, else ECONNREFUSED for an active and ECONNABORTED for a passive side; never EINTR; one EOF marker follows |
| `Descriptors.FreeDescriptor` | mysock.c:54-62 | the lowest free index, or -1 exactly when there is none |
| `Descriptors.OverlapSharesDescriptor` | mysock.c:53-62 | one after the other, two allocations get descriptors of their own; when both search before either stores, they share one whenever any is free, and the first context is lost from the table |
| `ListenQueue.PendingConnections.constructor` | connection_demux.c:310-357 | backlog + 1 free slots, nothing completed |
| `ListenQueue.PendingConnections.FindPeer` | connection_demux.c:175-187 | whether any slot, free ones included, holds the address |
| `ListenQueue.PendingConnections.FindFree` | connection_demux.c:192-200 | when the counter allows, the first free slot exists and is found |
| `ListenQueue.PendingConnections.EnqueueConnection` | connection_demux.c:142-258 | admits exactly a packet of at least 20 bytes with the SYN flag, from a peer in no slot, with room and a descriptor, into a free slot; otherwise the backlog is unchanged |
| `ListenQueue.PendingConnections.ConnectionComplete` | connection_demux.c:260-304 | appends the slot that holds the connection to the completed list |
| `ListenQueue.PendingConnections.AppendCompleted` | connection_demux.c:283-298 | the walk to the tail links the entry last |
| `ListenQueue.PendingConnections.DequeueConnection` | connection_demux.c:95-114 | takes the first completed slot, returns its descriptor, zeroes it, and decrements the counter, which was positive |
| `ListenQueue.SynKeeps` | connection_demux.c:161-251 | a SYN keeps the backlog invariant and an admitted one has a free slot |
| `ListenQueue.CompleteKeeps` | connection_demux.c:274-298 | a completion keeps the backlog invariant |
| `ListenQueue.AcceptKeeps` | connection_demux.c:95-114 | an accept keeps the backlog invariant |
| `ListenQueue.OverlapMiscounts` | connection_demux.c:108-202 | for every consistent backlog, a SYN between the load and the store of an accept's decrement leaves the counter wrong, one too low, exactly when it is admitted with a descriptor; an accept between the load and the store of a SYN's increment leaves it wrong, one too high, exactly when the SYN is admitted |
| `ListenQueue.OverlapFiresAssert` | connection_demux.c:108-202 | from an empty backlog of two, such an overlap ends with a completed connection to accept and a counter of zero, on which the assert before the decrement fails |
| `Demux.BacklogIsConsistent` | connection_demux.c:74-304 | over every interleaving no assert fails, cur_len counts the occupied slots within the backlog, descriptors and peers are distinct, completed entries name distinct occupied slots |
| `Demux.ConservationAndFifo` | connection_demux.c:88-298 | every connection admitted by a SYN of the run is in exactly one of incomplete, waiting, accepted; accepts follow the order of the completions of the run; none twice |
| `Demux.SynLaw` | connection_demux.c:161-251 | in every reachable state a new complete SYN from a peer in no slot, with a free slot and descriptor, gets the next number and a slot; anything else changes nothing |
| `Demux.HistoryIsRun` | connection_demux.c:88-304 | admissions, completions and accepts are those of the operations of the run |
| `Demux.RetransmissionTest` | connection_demux.c:174-187 | the unguarded address comparison finds AF_INET peers in occupied slots only |
| `Demux.AssertsFollow` | connection_demux.c:104-281 | the asserts of SYN, completion and accept follow from the invariant |
| `Demux.UnblockKeeps` | stcp_api.c:35-47 | clearing the blocking flag before the connection is listed keeps the whole invariant |
| `Demux.ConnectionCompletes` | stcp_api.c:35-47 | in every reachable state a connection that still blocks completes once it is unblocked and listed |
| `Demux.CreateTakesLowest` | mysock.c:54-62 | in every reachable state a new socket takes the lowest free descriptor |
| `Demux.CloseFrees` | mysock.c:308-338 | in every reachable state closing a descriptor that no slot holds frees it |
| `Framing.RoundTrip` | network_io_tcp.c:153-238 | a packet is received back, and the stream is at the next one, exactly for lengths 1 to 65535 |
| `Framing.StreamRoundTrip` | network_io_tcp.c:218-238 | any sequence of packets is recovered in order, also past packets longer than the buffer |
| `Framing.CutFrame` | network_io_tcp.c:218-238 | a stream that ends inside a frame yields the packet exactly when all that fits the buffer has arrived |
| `Framing.Pipe.WriteAll` | network_io_tcp.c:243-265 | whatever the short writes, all bytes are written unless one write returned 0 or -1, which is then the result, with a front of the bytes written |
| `Framing.Pipe.ReadAll` | network_io_tcp.c:243-265 | whatever the short reads, exactly count bytes are read, or the stream ended, or a read failed; never more than count are taken |
| `Framing.Pipe.SendPacket` | network_io_tcp.c:153-159 | -1 exactly if a write failed, else the full length; the length in network order and the packet are on the stream then, exactly unless a write returned 0; otherwise a front of the frame, or a front of the length and then one of the packet |
| `Framing.Pipe.RecvRest` | network_io_tcp.c:225-238 | takes the body off the stream and discards what does not fit, with the stream position also on a failing connection |
| `Framing.Pipe.RecvPacket` | network_io_tcp.c:218-239 | takes one frame off the stream, discarding what does not fit, unless a read failed; even then what it returns is right and no byte beyond the frame is taken |
| `Network.NetworkContext.Send` | network.c:34-81 | what is held and what is sent, with the exact bytes of the held packet; the result is the length on a drop, a hold and a replay, else that of the last transmission |
| `Network.UnreliableSender` | network.c:34-79 | each emission at call i is packet i or, at a replay, the most recently held one; at most two, none exactly on drop and hold |
| `Network.ReliableSender` | network.c:34-81 | in reliable mode the packets come out as they went in |
| `EndToEnd.Gather` | stcp_api.c:203-216 | the buffer holds the concatenation of the pieces |
| `EndToEnd.Assemble` | stcp_api.c:192-233 | the packet is the gathered bytes with ports, zero urgent pointer and checksum |
| `EndToEnd.AssembledIsGood` | stcp_api.c:222-233 | a segment differs from what was gathered in bytes 0-3 and 16-19 only and verifies at a peer of either byte order |
| `EndToEnd.PartOfFrame` | network_io_tcp.c:218-238 | what has been read of a packet is the front of the next frame: its length field is right once it is there, a packet that needs no more is the whole frame, and a stream that stops does not stop inside a frame |
| `EndToEnd.CarriedFinish` | network_io_socket.c:263-287 | however the bytes arrived, the receive thread never closes or fails and queues the next packet unchanged |
| `EndToEnd.FailsExactlyWhen` | stcp_api.c:158-235 | over every interleaving of sends, short writes, short reads and deliveries the receive thread never gives up, and a run fails exactly when some operation is a send of the wrong length or at an unconnected endpoint, or a delivery into a buffer too short or badly aligned |
| `EndToEnd.EmittedFromOps` | stcp_api.c:192-234 | over every run, the packets emitted are what network.c makes of all sends of the run, in order, with their random numbers |
| `EndToEnd.QuietMeansDelivered` | network_io_socket.c:263-287 | when no write, read, completion of a packet or delivery is possible, everything emitted has been delivered |
| `EndToEnd.EverythingArrives` | network_io_socket.c:263-287 | from every run that has not failed, everything sent can still be delivered without another send, and every step but a send brings that closer |
| `EndToEnd.AnyPieces` | network_io_tcp.c:243-265 | any number of bytes may be written, and any that have arrived read, up to the end of the length field or of the packet |
| `EndToEnd.ReliableDelivery` | stcp_api.c:158-235 | over every interleaving of sends, short writes, short reads and deliveries, the datagrams delivered and then queued are those of the sends of the run, in order, each once, changed only in header bytes 0-3 and 16-19, and verifying; all of them once nothing more can happen |
| `EndToEnd.UnreliableDelivery` | stcp_api.c:158-235 | for all random choices and interleavings, what is delivered and then queued is a prefix of what network.c makes of the sends of the run, all of it once nothing more can happen; every datagram is byte for byte that of a send, and verifies |
| `HashTable.StackLaws` | mysock_hash.h:77-144 | insert pushes, set replaces the top, delete pops, other keys are untouched, for any hash function |
| `HashTable.Table.GetEntry` | mysock_hash.h:65-75 | finds the first entry of the key |
| `HashTable.Table.Lookup` | mysock_hash.h:96-113 | the top of the key's stack, if any |
| `HashTable.Table.Insert` | mysock_hash.h:77-94 | links a new head into the bucket, keeps every chain well formed, and a lookup finds the new head |
| `HashTable.Table.SetEntry` | mysock_hash.h:115-122 | replaces the top or inserts |
| `HashTable.Table.Delete` | mysock_hash.h:124-144 | unlinks the first entry; the final assert holds exactly when there was at most one |
| `HashTable.GuardedTableIsMap` | connection_demux.c:322-335 | inserting only after a failed lookup, over every run, the table is an ordinary map |
| `Codec.LineIsFirst` | client.c:346-379 | the line read ends at the first CRLF or at the end of the stream |
| `Codec.DecimalRoundTrip` | client.c:207 | scanning a printed length gives it back |
| `Codec.ScanLaw` | client.c:207 | the scan skips white space, takes one sign, reads the number and stops behind it |
| `Codec.IntLength` | server.c:229 | a length below 2^31 prints with at most ten digits |
| `Codec.AnswerIs` | server.c:217-231 | the three answers, spelled out |
| `Codec.ParseRoundTrip` | client.c:189-207 | the length field is found behind any name, whatever commas the name contains |
| `Codec.TurnLaw` | client.c:189-271 | for every response line with two commas, the outcome and the stream behind it by the number scanned and the bytes there are |
| `Codec.TurnOnMalformed` | client.c:190-204 | a line with fewer than two commas is refused |
| `Codec.TurnOnAnswer` | server.c:211-268 | the client takes an answer apart into the file or the refusal and the next answer, exactly when the length fits an int |
| `Codec.SessionRoundTrip` | client.c:143-277 | any sequence of answers is taken apart file by file |
| `FileTransfer.Incoming.GetNvtLine` | client.c:346-379 | the buffer holds the line and a NUL, and the stream is behind the CRLF; unless a read failed; or the buffer is overrun, exactly when line and NUL do not fit |
| `FileTransfer.CutAtComma` | client.c:190-204 | cuts the string in place at its last comma |
| `FileTransfer.ParseInPlace` | client.c:190-207 | two cuts in place give the response the line carries |
| `FileTransfer.Incoming.ReadBody` | client.c:227-261 | whatever the read sizes, exactly length bytes are consumed, or all there are, or those before a read that failed |
| `FileTransfer.Incoming.ClientTurn` | client.c:179-271 | one turn of the client computes the outcome and leaves the stream at the next answer; a failing read can only cut the file short, and the line buffer is overrun only by a response line that does not fit it |
| `FileTransfer.Outgoing.ProcessLine` | server.c:211-269 | whatever the read sizes, the answer is the response line and the whole file; exactly if a read or write failed it returns -1, with a prefix of that sent |
| `FileTransfer.Outgoing.SendFile` | server.c:240-265 | the chunks sent are the file, or a prefix of it on an error |
| `FileTransfer.ResponseFits` | server.c:217-231 | for every name that fits the server's 256-byte line and every length below 2^31 the response line fits the client's 1000-byte buffer |
| `FileTransfer.ServerTurn` | server.c:134-148 | one turn of the server reads a request line and appends its answer, hangs up on an empty one, and reports a failing read, a partial answer or an overrun of its buffer |
| `FileTransfer.Exchange` | client.c:168-271 | request and answer through the code of both sides: for every name that fits the server's line the client ends with the file or the refusal, no buffer overrun, and both streams at what follows; an empty name makes the server hang up |

## Left out

- transport.c: an unfilled stub; no handshake, window or retransmission is modelled.
- Sockets, poll, pipes, name lookup, thread creation and signals: foreign calls; streams, addresses and threads are abstract.
- A second `_mysock_set_backlog` on a listening socket: reallocation can move slots that completed entries point to (connection_demux.c:341-354).
- Closing a listening socket with pending connections: `myclose` joins threads while it holds a lock they may need (connection_demux.c:366-379).
- The accepted real socket after a dropped SYN: the drop paths do not reset `new_socket` (network_io_tcp.c:203).
- The order of the passive side's SYN against the next packet: the end-to-end results start after the SYN was queued (connection_demux.c:241-245).
- A failing connect, which returns with the lock held (network_io_tcp.c:285-291).
- The condition variable `blocking_cond` (mysock.c:106-120), on which a single thread waits for a flag that is set once; and that an accepting thread keeps the read lock while it waits.
- Retries of fwrite, the quiet option and the prompt of the client, which trims the name typed in and ignores one of a single character (client.c:150-161).
- The queues that stcp_wait_for_event looks at are sequences in `Wakeup.EventSource`, not the linked lists of `PacketQueue.Queue`.
- `myaccept`, `mygetsockname`, `mygetpeername`, `mybind` and `mylisten` beyond the operations above: they copy addresses and call the operations modelled here.
- The Wireshark dissector, makefiles, command-line and address parsing, logging.
