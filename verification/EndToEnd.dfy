/** A connected pair, after the SYN hand-off: stcp_network_send gathers, fills in the header and
    sends; the stream carries frames; the receive thread queues packets; stcp_network_recv takes
    them. Short writes, short reads and deliveries interleave freely, so that the receive thread
    sees frames arrive in pieces, and the two hosts may have different byte orders. A failing
    assert of the code sets a flag. */
module EndToEnd {
  import opened Common
  import opened Checksum
  import Framing
  import Network
  import PacketQueue

  type Port = p: seq<byte> | |p| == 2 witness [0, 0]

  /** The sending endpoint: addresses and ports in network byte order. */
  datatype Endpoint = Endpoint(local: Ipv4, peer: Ipv4, localPort: Port, peerPort: Port)

  predicate Connected(ep: Endpoint) {
    ep.local != ZERO_ADDR && ep.peer != ZERO_ADDR && ep.peerPort != [0, 0]
  }

  // ---------- Assembling a segment ----------

  predicate Sendable(p: Bytes) {
    HEADER_LEN <= |p| <= MAX_PAYLOAD
  }

  /** stcp_api.c:222-231: th_sport, th_dport, and zero th_sum and th_urp. */
  function HeaderByte(ep: Endpoint, k: nat, given: byte): byte {
    if k < 2 then ep.localPort[k]
    else if k < 4 then ep.peerPort[k - 2]
    else if 16 <= k < 20 then 0
    else given
  }

  function FillHeader(ep: Endpoint, p: Bytes): Bytes {
    seq(|p|, k requires 0 <= k < |p| => HeaderByte(ep, k, p[k]))
  }

  function Assembled(e: ByteOrder, ep: Endpoint, p: Bytes): Bytes
    requires Sendable(p)
  {
    WithChecksum(e, ep.local, ep.peer, FillHeader(ep, p))
  }

  /** d is the segment gathered as p, changed only in header bytes 0-3 and 16-19. */
  ghost predicate SameSegment(p: Bytes, d: Bytes) {
    |d| == |p| && forall k :: 0 <= k < |p| && !(0 <= k < 4) && !(16 <= k < 20) ==> d[k] == p[k]
  }

  /** Copy src to offset off of a buffer: memcpy. */
  method CopyInto(packet: array<byte>, off: nat, src: Bytes)
    requires off + |src| <= packet.Length
    modifies packet
    ensures packet[..off] == old(packet[..off])
    ensures packet[off..off + |src|] == src
  {
    forall i | 0 <= i < |src| {
      packet[off + i] := src[i];
    }
  }

  /** The gather loop of stcp_api.c:203-216; the requires is the assert at lines 203 and 212. */
  method Gather(packet: array<byte>, bufs: seq<Bytes>) returns (len: nat)
    requires |Flatten(bufs)| <= packet.Length
    modifies packet
    ensures len == |Flatten(bufs)| && packet[..len] == Flatten(bufs)
  {
    len := 0;
    assert bufs[..|bufs|] == bufs;
    for k := 0 to |bufs|
      invariant len == |Flatten(bufs[..k])| <= packet.Length
      invariant packet[..len] == Flatten(bufs[..k])
    {
      assert bufs[..k + 1] == bufs[..k] + [bufs[k]];
      FlattenSnoc(bufs[..k], bufs[k]);
      assert bufs == bufs[..k + 1] + bufs[k + 1..];
      FlattenAppend(bufs[..k + 1], bufs[k + 1..]);
      CopyInto(packet, len, bufs[k]);
      assert packet[..len + |bufs[k]|] == packet[..len] + packet[len..len + |bufs[k]|];
      len := len + |bufs[k]|;
    }
  }

  method WriteHeader(ep: Endpoint, packet: array<byte>, len: nat)
    requires HEADER_LEN <= len <= packet.Length
    modifies packet
    ensures packet[..len] == FillHeader(ep, old(packet[..len]))
  {
    packet[0], packet[1] := ep.localPort[0], ep.localPort[1];
    packet[2], packet[3] := ep.peerPort[0], ep.peerPort[1];
    packet[16], packet[17] := 0, 0;
    packet[18], packet[19] := 0, 0;
    forall k | 0 <= k < len
      ensures packet[k] == HeaderByte(ep, k, old(packet[k]))
    {
    }
  }

  /** stcp_network_send up to the call of _network_send (stcp_api.c:192-233). */
  method Assemble(e: ByteOrder, ep: Endpoint, bufs: seq<Bytes>) returns (packet: array<byte>, len: nat)
    requires Connected(ep) && Sendable(Flatten(bufs))
    ensures fresh(packet) && packet.Length == MAX_PAYLOAD && len <= MAX_PAYLOAD
    ensures packet[..len] == Assembled(e, ep, Flatten(bufs))
  {
    packet := new byte[MAX_PAYLOAD](_ => 0);
    len := Gather(packet, bufs);
    WriteHeader(ep, packet, len);
    SetChecksum(e, ep.local, ep.peer, packet, len);
  }

  lemma {:induction false} AssembledVerifies(e: ByteOrder, e': ByteOrder, ep: Endpoint, p: Bytes)
    requires Sendable(p)
    ensures Accepts(e', ep.local, ep.peer, Assembled(e, ep, p))
  {
    SetThenVerify(e, ep.local, ep.peer, FillHeader(ep, p));
    HostIndependent(ep.local, ep.peer, Assembled(e, ep, p));
  }

  /** A segment differs from what was gathered only in bytes 0-3 and 16-19, and passes the
      checksum at the other end, whatever the byte order there. */
  lemma {:induction false} AssembledIsGood(e: ByteOrder, e': ByteOrder, ep: Endpoint, p: Bytes)
    requires Sendable(p)
    ensures var r := Assembled(e, ep, p);
            && SameSegment(p, r)
            && r[..4] == ep.localPort + ep.peerPort && r[18..20] == [0, 0]
            && Accepts(e', ep.local, ep.peer, r)
  {
    AssembledVerifies(e, e', ep, p);
  }

  // ---------- The pair as a state machine ----------

  datatype Setup = Setup(ep: Endpoint, sender: ByteOrder, receiver: ByteOrder, reliable: bool)

  /** emitted is the history of the frames. */
  datatype State = State(
    held: Option<Bytes>,    // the packet in the copy buffer of network.c
    emitted: seq<Bytes>,
    unwritten: Bytes,       // bytes of frames that the sender has still to write
    wire: Bytes,            // bytes written and not yet read
    part: Bytes,            // bytes that the receive thread has read of the current packet
    recvQueue: seq<Bytes>,
    delivered: seq<Bytes>,
    closed: bool,
    failed: bool)

  datatype Op =
    | Send(bufs: seq<Bytes>, choice: nat)
    | Write(n: nat)         // one write(2) of the sender
    | Read(n: nat)          // one read(2) of the receive thread
    | Finish                // the receive thread has all of a packet
    | Deliver(max: nat, aligned: bool)   // one stcp_network_recv, with bit 1 of the buffer's address clear

  const INIT := State(None, [], [], [], [], [], [], false, false)

  /** The bytes that the current _tcp_io call of _network_recv_packet still waits for: the
      length, then what fits the buffer, then the remainder to discard. */
  function Needed(part: Bytes): nat {
    if |part| < 2 then 2 - |part|
    else
      var len := Framing.Ntohs(part[0], part[1]);
      var body := 2 + Min(len, MAX_PAYLOAD);
      if |part| < body then body - |part|
      else if |part| < 2 + len then 2 + len - |part|
      else 0
  }

  /** Reads and writes move at least one byte, reads no more than is needed and has arrived:
      read(2) blocks on an empty stream. Delivery waits for a packet. Bytes of a send queue behind
      those not yet written. */
  predicate Enabled(s: State, op: Op) {
    match op
    case Send(_, _) => true
    case Write(n) => 1 <= n <= |s.unwritten|
    case Read(n) => !s.closed && 1 <= n <= Min(Needed(s.part), |s.wire|)
    case Finish => !s.closed && Needed(s.part) == 0
    case Deliver(_, _) => s.recvQueue != []
  }

  /** stcp_network_send, with the asserts at stcp_api.c:203, 212, 219, 228 and tcp_sum.c:38-39. */
  function DoSend(u: Setup, s: State, p: Bytes, choice: nat): State {
    if !Connected(u.ep) || !Sendable(p) then s.(failed := true)
    else
      var call := Network.Call(Assembled(u.sender, u.ep, p), choice);
      var out := Network.Emitted(u.reliable, s.held, call);
      s.(held := Network.HeldAfter(u.reliable, s.held, call),
         emitted := s.emitted + out, unwritten := s.unwritten + Framing.Frames(out))
  }

  /** network_io_socket.c:263-287 once _network_recv_packet returns, with the assert at 271. */
  function DoFinish(s: State): State {
    match Framing.Recv(s.part, MAX_PAYLOAD).0
    case Closed => s.(part := [], closed := true)
    case Packet(len, data) =>
      if len > MAX_PAYLOAD then s.(failed := true)
      else s.(part := [], recvQueue := s.recvQueue + [data])
  }

  /** stcp_api.c:158-168. The checksum is computed over the full length of the packet, also when
      only a part of it fits the buffer: reading on behind the buffer counts as a failure, and so
      do the asserts on the length, on the address (tcp_sum.c:46) and on the checksum. */
  function DoDeliver(u: Setup, s: State, max: nat, aligned: bool): State
    requires s.recvQueue != []
  {
    var t := PacketQueue.Take(s.recvQueue, max, false);
    if t.len > max || !aligned || t.len < HEADER_LEN || !Accepts(u.receiver, u.ep.local, u.ep.peer, t.copied)
    then s.(failed := true)
    else s.(recvQueue := t.rest, delivered := s.delivered + [t.copied])
  }

  function Step(u: Setup, s: State, op: Op): State {
    if s.failed || !Enabled(s, op) then s
    else
      match op
      case Send(bufs, choice) => DoSend(u, s, Flatten(bufs), choice)
      case Write(n) => s.(unwritten := s.unwritten[n..], wire := s.wire + s.unwritten[..n])
      case Read(n) => s.(wire := s.wire[n..], part := s.part + s.wire[..n])
      case Finish => DoFinish(s)
      case Deliver(max, aligned) => DoDeliver(u, s, max, aligned)
  }

  function Run(u: Setup, ops: seq<Op>): State {
    if ops == [] then INIT else Step(u, Run(u, ops[..|ops| - 1]), ops[|ops| - 1])
  }

  // ---------- What every step keeps ----------

  ghost predicate Good(u: Setup, p: Bytes) {
    Sendable(p) && Accepts(u.receiver, u.ep.local, u.ep.peer, p)
  }

  /** part and then rest are the bytes of the packets, and part goes no further than the first. */
  ghost predicate InTransit(part: Bytes, rest: Bytes, packets: seq<Bytes>) {
    part + rest == Framing.Frames(packets) && OneFrame(part)
  }

  predicate OneFrame(part: Bytes) {
    |part| >= 2 ==> |part| <= 2 + Framing.Ntohs(part[0], part[1])
  }

  /** Everything emitted is delivered, queued, or somewhere between the sender's buffer and the
      receive thread's, in that order. */
  ghost predicate Carried(s: State) {
    var arrived := s.delivered + s.recvQueue;
    arrived <= s.emitted && InTransit(s.part, s.wire + s.unwritten, s.emitted[|arrived|..])
  }

  /** What the sender has emitted, and what it holds, is good. */
  ghost predicate Emits(u: Setup, s: State) {
    (forall q :: q in s.emitted ==> Good(u, q)) && (s.held.Some? ==> Good(u, s.held.value))
  }

  ghost predicate Inv(u: Setup, s: State) {
    !s.closed && Emits(u, s) && Carried(s)
  }

  lemma {:induction false} EmitsMore(u: Setup, s: State, p: Bytes, choice: nat)
    requires Emits(u, s) && Sendable(p) && Connected(u.ep) && Good(u, Assembled(u.sender, u.ep, p))
    ensures Emits(u, DoSend(u, s, p, choice))
  {
  }

  lemma {:induction false} TransitMore(part: Bytes, rest: Bytes, packets: seq<Bytes>, out: seq<Bytes>)
    requires InTransit(part, rest, packets)
    ensures InTransit(part, rest + Framing.Frames(out), packets + out)
  {
    Framing.FramesAppend(packets, out);
    AppendAssociates(part, rest, Framing.Frames(out));
  }

  lemma {:induction false} DropOfAppend(n: nat, emitted: seq<Bytes>, out: seq<Bytes>)
    requires n <= |emitted|
    ensures (emitted + out)[n..] == emitted[n..] + out
  {
  }

  lemma {:induction false} CarriedSend(s: State, s': State, out: seq<Bytes>)
    requires Carried(s)
    requires s'.emitted == s.emitted + out && s'.unwritten == s.unwritten + Framing.Frames(out)
    requires s'.wire == s.wire && s'.part == s.part
    requires s'.delivered == s.delivered && s'.recvQueue == s.recvQueue
    ensures Carried(s')
  {
    var n := |s.delivered + s.recvQueue|;
    TransitMore(s.part, s.wire + s.unwritten, s.emitted[n..], out);
    AppendAssociates(s.wire, s.unwritten, Framing.Frames(out));
    DropOfAppend(n, s.emitted, out);
  }

  lemma {:induction false} CarriedWrite(s: State, n: nat)
    requires Carried(s) && n <= |s.unwritten|
    ensures Carried(s.(unwritten := s.unwritten[n..], wire := s.wire + s.unwritten[..n]))
  {
    AppendAssociates(s.wire, s.unwritten[..n], s.unwritten[n..]);
    assert s.unwritten == s.unwritten[..n] + s.unwritten[n..];
  }

  lemma {:induction false} TransitRead(part: Bytes, wire: Bytes, unwritten: Bytes, n: nat, packets: seq<Bytes>)
    requires InTransit(part, wire + unwritten, packets) && n <= |wire| && n <= Needed(part)
    ensures InTransit(part + wire[..n], wire[n..] + unwritten, packets)
  {
    AppendAssociates(part, wire[..n], wire[n..] + unwritten);
    AppendAssociates(wire[..n], wire[n..], unwritten);
    assert wire == wire[..n] + wire[n..];
  }

  lemma {:induction false} FrontOfFrame(part: Bytes, rest: Bytes, p: Bytes, more: Bytes)
    requires part + rest == Framing.Frame(p) + more && |part| >= 2 && Sendable(p)
    ensures Framing.Ntohs(part[0], part[1]) == |p|
  {
    var frame := Framing.Frame(p);
    assert part[0] == (part + rest)[0] == frame[0] && part[1] == (part + rest)[1] == frame[1];
    Framing.LengthPrefix(|p|);
  }

  lemma {:induction false} SameLength(a: Bytes, b: Bytes, c: Bytes, d: Bytes)
    requires a + b == c + d && |a| == |c|
    ensures a == c && b == d
  {
    assert a == (a + b)[..|a|] && b == (a + b)[|a|..];
  }

  /** What the receive thread has read is the front of the next frame, and a packet read to its
      end is the whole of it; the stream does not stop inside a frame. */
  lemma {:induction false} PartOfFrame(part: Bytes, rest: Bytes, packets: seq<Bytes>)
    requires InTransit(part, rest, packets) && part + rest != []
    requires forall p :: p in packets ==> Sendable(p)
    ensures packets != [] && (|part| >= 2 ==> Framing.Ntohs(part[0], part[1]) == |packets[0]|)
    ensures Needed(part) == 0 ==> part == Framing.Frame(packets[0]) && InTransit([], rest, packets[1..])
    ensures rest == [] ==> Needed(part) == 0
  {
    var p, more := packets[0], Framing.Frames(packets[1..]);
    assert p in packets;
    if |part| >= 2 {
      FrontOfFrame(part, rest, p, more);
      if Needed(part) == 0 {
        SameLength(part, rest, Framing.Frame(p), more);
      }
    }
  }

  lemma {:induction false} ReceiveFrame(p: Bytes)
    requires Sendable(p)
    ensures Framing.Recv(Framing.Frame(p), MAX_PAYLOAD).0 == Framing.Packet(|p|, p)
  {
    Framing.RoundTrip(p, [], MAX_PAYLOAD);
    assert Framing.Frame(p) + [] == Framing.Frame(p);
    assert p[..Min(|p|, MAX_PAYLOAD)] == p;
  }

  lemma {:induction false} FinishFrame(s: State, p: Bytes)
    requires s.part == Framing.Frame(p) && Sendable(p)
    ensures DoFinish(s) == s.(part := [], recvQueue := s.recvQueue + [p])
  {
    ReceiveFrame(p);
  }

  lemma {:induction false} NextArrives(delivered: seq<Bytes>, queued: seq<Bytes>, emitted: seq<Bytes>)
    requires delivered + queued <= emitted && |delivered + queued| < |emitted|
    ensures var p := emitted[|delivered + queued|];
            delivered + (queued + [p]) <= emitted
  {
  }

  lemma {:induction false} LeftAreSendable(n: nat, emitted: seq<Bytes>)
    requires n <= |emitted| && forall q :: q in emitted ==> Sendable(q)
    ensures forall q :: q in emitted[n..] ==> Sendable(q)
  {
  }

  /** A packet read to its end is the next emitted one: however its bytes arrived, the receive
      thread neither closes nor fails, and queues it unchanged. */
  lemma {:induction false} CarriedFinish(s: State)
    requires Carried(s) && Needed(s.part) == 0 && forall q :: q in s.emitted ==> Sendable(q)
    ensures var n := |s.delivered + s.recvQueue|;
            && n < |s.emitted|
            && DoFinish(s) == s.(part := [], recvQueue := s.recvQueue + [s.emitted[n]])
    ensures Carried(DoFinish(s))
  {
    var n := |s.delivered + s.recvQueue|;
    var left := s.emitted[n..];
    LeftAreSendable(n, s.emitted);
    PartOfFrame(s.part, s.wire + s.unwritten, left);
    FinishFrame(s, left[0]);
    NextArrives(s.delivered, s.recvQueue, s.emitted);
    assert left[1..] == s.emitted[n + 1..];
  }

  lemma {:induction false} CarriedDeliver(s: State, s': State)
    requires Carried(s) && s.recvQueue != []
    requires s' == s.(recvQueue := s.recvQueue[1..], delivered := s.delivered + [s.recvQueue[0]])
    ensures Carried(s') && s.recvQueue[0] in s.emitted
  {
    assert s'.delivered + s'.recvQueue == s.delivered + s.recvQueue;
    assert s.recvQueue[0] == (s.delivered + s.recvQueue)[|s.delivered|] == s.emitted[|s.delivered|];
  }

  lemma {:induction false} DeliverWhole(u: Setup, s: State, max: nat)
    requires s.recvQueue != [] && max >= |s.recvQueue[0]| && Good(u, s.recvQueue[0])
    ensures DoDeliver(u, s, max, true) ==
            s.(recvQueue := s.recvQueue[1..], delivered := s.delivered + [s.recvQueue[0]])
  {
    var p := s.recvQueue[0];
    assert p[..|p|] == p;
  }

  lemma {:induction false} SendKeeps(u: Setup, s: State, p: Bytes, choice: nat)
    requires Inv(u, s)
    ensures Inv(u, DoSend(u, s, p, choice))
  {
    if Connected(u.ep) && Sendable(p) {
      var call := Network.Call(Assembled(u.sender, u.ep, p), choice);
      AssembledIsGood(u.sender, u.receiver, u.ep, p);
      EmitsMore(u, s, p, choice);
      CarriedSend(s, DoSend(u, s, p, choice), Network.Emitted(u.reliable, s.held, call));
    }
  }

  lemma {:induction false} DeliverKeeps(u: Setup, s: State, max: nat, aligned: bool)
    requires Inv(u, s) && s.recvQueue != []
    ensures Inv(u, DoDeliver(u, s, max, aligned))
    ensures DoDeliver(u, s, max, aligned).failed <==> s.failed || |s.recvQueue[0]| > max || !aligned
  {
    if |s.recvQueue[0]| <= max && aligned {
      var s' := s.(recvQueue := s.recvQueue[1..], delivered := s.delivered + [s.recvQueue[0]]);
      CarriedDeliver(s, s');
      DeliverWhole(u, s, max);
    }
  }

  /** Where the code aborts: a send of the wrong total length or at an endpoint without addresses
      or peer port, and a delivery into a buffer that is too short or badly aligned. */
  predicate Aborts(u: Setup, s: State, op: Op) {
    match op
    case Send(bufs, _) =>
      || u.ep.local == [0, 0, 0, 0] || u.ep.peer == [0, 0, 0, 0] || u.ep.peerPort == [0, 0]
      || |Flatten(bufs)| < 20 || |Flatten(bufs)| > 1500
    case Deliver(max, aligned) => s.recvQueue != [] && (|s.recvQueue[0]| > max || !aligned)
    case _ => false
  }

  lemma {:induction false} StepKeeps(u: Setup, s: State, op: Op)
    requires Inv(u, s)
    ensures Inv(u, Step(u, s, op))
    ensures Step(u, s, op).failed <==> s.failed || Aborts(u, s, op)
  {
    if !s.failed && Enabled(s, op) {
      match op
      case Send(bufs, choice) => SendKeeps(u, s, Flatten(bufs), choice);
      case Write(n) => CarriedWrite(s, n);
      case Read(n) =>
        TransitRead(s.part, s.wire, s.unwritten, n, s.emitted[|s.delivered + s.recvQueue|..]);
      case Finish => CarriedFinish(s);
      case Deliver(max, aligned) => DeliverKeeps(u, s, max, aligned);
    }
  }

  lemma {:induction false} InvInit(u: Setup)
    ensures Inv(u, INIT)
  {
  }

  lemma {:induction false} InvHolds(u: Setup, ops: seq<Op>)
    ensures Inv(u, Run(u, ops))
  {
    if ops == [] {
      InvInit(u);
    } else {
      InvHolds(u, ops[..|ops| - 1]);
      StepKeeps(u, Run(u, ops[..|ops| - 1]), ops[|ops| - 1]);
    }
  }

  // ---------- The main results ----------

  /** What the sends of a run were given, read off the operations alone. */
  function SendsOf(ops: seq<Op>): seq<Bytes> {
    if ops == [] then []
    else
      var op := ops[|ops| - 1];
      SendsOf(ops[..|ops| - 1]) + if op.Send? then [Flatten(op.bufs)] else []
  }

  /** The datagram that a send should make of it. */
  function Datagram(u: Setup, p: Bytes): Bytes {
    if Sendable(p) then Assembled(u.sender, u.ep, p) else []
  }

  function Datagrams(u: Setup, sends: seq<Bytes>): seq<Bytes> {
    seq(|sends|, i requires 0 <= i < |sends| => Datagram(u, sends[i]))
  }

  /** The calls of _network_send that the sends should make, with their random numbers. */
  function CallsOf(u: Setup, ops: seq<Op>): seq<Network.Call> {
    if ops == [] then []
    else
      var op := ops[|ops| - 1];
      CallsOf(u, ops[..|ops| - 1]) +
      if op.Send? then [Network.Call(Datagram(u, Flatten(op.bufs)), op.choice)] else []
  }

  lemma {:induction false} CallsCarrySends(u: Setup, ops: seq<Op>)
    ensures |CallsOf(u, ops)| == |SendsOf(ops)|
    ensures forall i :: 0 <= i < |SendsOf(ops)| ==> CallsOf(u, ops)[i].packet == Datagram(u, SendsOf(ops)[i])
  {
    if ops != [] {
      CallsCarrySends(u, ops[..|ops| - 1]);
    }
  }

  lemma {:induction false} OneMoreCall(reliable: bool, calls: seq<Network.Call>, call: Network.Call)
    ensures Network.Held(reliable, calls + [call]) ==
            Network.HeldAfter(reliable, Network.Held(reliable, calls), call)
    ensures Network.EmittedBy(reliable, calls + [call]) ==
            Network.EmittedBy(reliable, calls) + Network.Emitted(reliable, Network.Held(reliable, calls), call)
  {
    assert (calls + [call])[..|calls|] == calls;
  }

  lemma {:induction false} StepEmits(u: Setup, s: State, op: Op)
    requires !Step(u, s, op).failed
    ensures var s' := Step(u, s, op);
            if op.Send? then
              var call := Network.Call(Datagram(u, Flatten(op.bufs)), op.choice);
              && s'.emitted == s.emitted + Network.Emitted(u.reliable, s.held, call)
              && s'.held == Network.HeldAfter(u.reliable, s.held, call)
            else s'.emitted == s.emitted && s'.held == s.held
  {
  }

  lemma {:induction false} FailedStays(u: Setup, s: State, op: Op)
    ensures s.failed ==> Step(u, s, op) == s
    ensures Step(u, s, op).failed ==> Step(u, s, op).emitted == s.emitted
  {
  }

  /** The sender emits what network.c makes of the sends of the run, all of them and in order,
      unless the run has failed; then it is what they make of a beginning of the run. */
  lemma {:induction false} EmittedFromOps(u: Setup, ops: seq<Op>)
    ensures var s, calls := Run(u, ops), CallsOf(u, ops);
            && s.emitted <= Network.EmittedBy(u.reliable, calls)
            && (!s.failed ==> s.emitted == Network.EmittedBy(u.reliable, calls) &&
                              s.held == Network.Held(u.reliable, calls))
  {
    if ops != [] {
      var pre, op := ops[..|ops| - 1], ops[|ops| - 1];
      EmittedFromOps(u, pre);
      FailedStays(u, Run(u, pre), op);
      if op.Send? {
        OneMoreCall(u.reliable, CallsOf(u, pre), Network.Call(Datagram(u, Flatten(op.bufs)), op.choice));
      } else {
        assert CallsOf(u, ops) == CallsOf(u, pre);
      }
      if !Run(u, ops).failed {
        StepEmits(u, Run(u, pre), op);
      }
    }
  }

  /** The code aborts in the i-th operation, if it gets there. */
  predicate AbortsAt(u: Setup, ops: seq<Op>, i: nat)
    requires i < |ops|
  {
    Aborts(u, Run(u, ops[..i]), ops[i])
  }

  lemma {:induction false} LastFails(u: Setup, ops: seq<Op>)
    requires ops != []
    ensures Run(u, ops).failed <==> Run(u, ops[..|ops| - 1]).failed || AbortsAt(u, ops, |ops| - 1)
  {
    InvHolds(u, ops[..|ops| - 1]);
    StepKeeps(u, Run(u, ops[..|ops| - 1]), ops[|ops| - 1]);
  }

  lemma {:induction false} AbortsInPrefix(u: Setup, ops: seq<Op>, n: nat, i: nat)
    requires i < n <= |ops|
    ensures AbortsAt(u, ops[..n], i) <==> AbortsAt(u, ops, i)
  {
    assert ops[..n][..i] == ops[..i];
  }

  ghost predicate SomeAbort(u: Setup, ops: seq<Op>) {
    exists i :: 0 <= i < |ops| && AbortsAt(u, ops, i)
  }

  lemma {:induction false} AbortBeforeOrLast(u: Setup, ops: seq<Op>)
    requires ops != []
    ensures SomeAbort(u, ops) <==> SomeAbort(u, ops[..|ops| - 1]) || AbortsAt(u, ops, |ops| - 1)
  {
    var last := |ops| - 1;
    if i :| 0 <= i < |ops| && AbortsAt(u, ops, i) && i != last {
      AbortsInPrefix(u, ops, last, i);
    }
    if i :| 0 <= i < last && AbortsAt(u, ops[..last], i) {
      AbortsInPrefix(u, ops, last, i);
    }
  }

  /** The asserts along the way, on the received length and the checksum, never fail, and the
      receive thread never gives up: a run fails exactly when some operation of it is one on
      which the code aborts. */
  lemma {:induction false} FailsExactlyWhen(u: Setup, ops: seq<Op>)
    ensures !Run(u, ops).closed
    ensures Run(u, ops).failed <==> SomeAbort(u, ops)
  {
    InvHolds(u, ops);
    if ops != [] {
      FailsExactlyWhen(u, ops[..|ops| - 1]);
      LastFails(u, ops);
      AbortBeforeOrLast(u, ops);
    }
  }

  /** No step but a send is possible. */
  ghost predicate Quiet(s: State) {
    forall op: Op :: !op.Send? ==> !Enabled(s, op)
  }

  lemma {:induction false} QuietIsEmpty(s: State)
    requires Quiet(s) && !s.closed
    ensures s.recvQueue == [] && s.unwritten == [] && Needed(s.part) > 0 && s.wire == []
  {
    assert !Enabled(s, Write(1)) && !Enabled(s, Read(1)) && !Enabled(s, Finish);
    assert !Enabled(s, Deliver(0, true));
  }

  lemma {:induction false} NothingLeft(part: Bytes, packets: seq<Bytes>)
    requires InTransit(part, [], packets) && Needed(part) > 0
    requires forall p :: p in packets ==> Sendable(p)
    ensures packets == []
  {
    if part != [] {
      PartOfFrame(part, [], packets);
    }
  }

  /** Nothing gets stuck: when neither writing, reading, finishing nor delivering is possible,
      everything emitted has been delivered. */
  lemma {:induction false} QuietMeansDelivered(u: Setup, ops: seq<Op>)
    requires Quiet(Run(u, ops))
    ensures Run(u, ops).delivered == Run(u, ops).emitted
  {
    InvHolds(u, ops);
    QuietIsEmpty(Run(u, ops));
    AllDelivered(Run(u, ops));
  }

  lemma {:induction false} AllDelivered(s: State)
    requires Carried(s) && s.recvQueue == [] && s.wire == [] && s.unwritten == [] && Needed(s.part) > 0
    requires forall p :: p in s.emitted ==> Sendable(p)
    ensures s.delivered == s.emitted
  {
    var n := |s.delivered|;
    assert s.delivered + s.recvQueue == s.delivered;
    LeftAreSendable(n, s.emitted);
    NothingLeft(s.part, s.emitted[n..]);
    assert |s.emitted| == n;
  }

  // ---------- Progress ----------

  /** What is still to be done to the bytes under way. */
  function Work(s: State): nat {
    4 * |s.unwritten| + 3 * |s.wire| + 2 * |s.part| + |s.recvQueue|
  }

  /** Every step but a send gets closer to delivery. */
  lemma {:induction false} StepWorks(u: Setup, s: State, op: Op)
    requires Inv(u, s) && !s.failed && !op.Send? && Enabled(s, op) && !Aborts(u, s, op)
    ensures var s' := Step(u, s, op);
            !s'.failed && Work(s') < Work(s) && s'.emitted == s.emitted
  {
    match op
    case Finish => CarriedFinish(s);
    case Deliver(max, _) =>
      HeadIsGood(u, s);
      DeliverWhole(u, s, max);
    case _ =>
  }

  lemma {:induction false} HeadIsGood(u: Setup, s: State)
    requires Inv(u, s) && s.recvQueue != []
    ensures Good(u, s.recvQueue[0])
  {
    CarriedDeliver(s, s.(recvQueue := s.recvQueue[1..], delivered := s.delivered + [s.recvQueue[0]]));
  }

  lemma {:induction false} NextStep(u: Setup, s: State) returns (op: Op)
    requires !Quiet(s)
    ensures !op.Send? && Enabled(s, op) && !Aborts(u, s, op)
  {
    op :| !op.Send? && Enabled(s, op);
    if op.Deliver? {
      op := Deliver(|s.recvQueue[0]|, true);
    }
  }

  /** Carry on without sends until nothing more is possible. */
  lemma {:induction false} Drain(u: Setup, ops: seq<Op>, work: nat, emitted: seq<Bytes>) returns (more: seq<Op>)
    requires Underway(u, ops, work, emitted)
    ensures NoSends(more) && AllArrived(u, ops + more, emitted)
    decreases work
  {
    var done, op, less := DrainOne(u, ops, work, emitted);
    if done {
      more := [];
      assert ops + more == ops;
    } else {
      var rest := Drain(u, ops + [op], less, emitted);
      more := [op] + rest;
      assert ops + more == ops + [op] + rest;
    }
  }

  ghost predicate Underway(u: Setup, ops: seq<Op>, work: nat, emitted: seq<Bytes>) {
    !Run(u, ops).failed && Work(Run(u, ops)) == work && Run(u, ops).emitted == emitted
  }

  ghost predicate AllArrived(u: Setup, ops: seq<Op>, emitted: seq<Bytes>) {
    !Run(u, ops).failed && Run(u, ops).delivered == emitted
  }

  predicate NoSends(ops: seq<Op>) {
    forall op :: op in ops ==> !op.Send?
  }

  lemma {:induction false} DrainOne(u: Setup, ops: seq<Op>, work: nat, emitted: seq<Bytes>)
    returns (done: bool, op: Op, less: nat)
    requires Underway(u, ops, work, emitted)
    ensures done ==> AllArrived(u, ops, emitted)
    ensures !done ==> !op.Send? && less < work && Underway(u, ops + [op], less, emitted)
  {
    done, op, less := Quiet(Run(u, ops)), Finish, 0;
    if done {
      QuietMeansDelivered(u, ops);
    } else {
      InvHolds(u, ops);
      op := NextStep(u, Run(u, ops));
      StepWorks(u, Run(u, ops), op);
      assert (ops + [op])[..|ops|] == ops;
      less := Work(Run(u, ops + [op]));
    }
  }

  /** From every run that has not failed, everything sent can still be delivered without another
      send; and no step but a send can be repeated for ever, since each reduces Work. */
  lemma {:induction false} EverythingArrives(u: Setup, ops: seq<Op>)
    requires !Run(u, ops).failed
    ensures exists more ::
              NoSends(more) && AllArrived(u, ops + more, Network.EmittedBy(u.reliable, CallsOf(u, ops)))
    ensures forall op: Op :: !op.Send? && Enabled(Run(u, ops), op) && !Aborts(u, Run(u, ops), op) ==>
              Work(Step(u, Run(u, ops), op)) < Work(Run(u, ops))
  {
    EmittedFromOps(u, ops);
    var more := Drain(u, ops, Work(Run(u, ops)), Run(u, ops).emitted);
    InvHolds(u, ops);
    forall op: Op | !op.Send? && Enabled(Run(u, ops), op) && !Aborts(u, Run(u, ops), op)
      ensures Work(Step(u, Run(u, ops), op)) < Work(Run(u, ops))
    {
      StepWorks(u, Run(u, ops), op);
    }
  }

  /** Any number of bytes can be written; and any number read that have arrived, up to the end of
      the length field or of the packet. */
  lemma {:induction false} AnyPieces(u: Setup, ops: seq<Op>, n: nat)
    requires !Run(u, ops).failed && n > 0
    ensures var s := Run(u, ops);
            n <= |s.unwritten| ==>
              Run(u, ops + [Write(n)]) == s.(unwritten := s.unwritten[n..], wire := s.wire + s.unwritten[..n])
    ensures var s := Run(u, ops);
            n <= |s.wire| && (|s.part| + n <= 2 ||
                              (|s.part| >= 2 && |s.part| + n <= 2 + Framing.Ntohs(s.part[0], s.part[1]) <= 1502)) ==>
              Run(u, ops + [Read(n)]) == s.(wire := s.wire[n..], part := s.part + s.wire[..n])
  {
    InvHolds(u, ops);
    assert (ops + [Write(n)])[..|ops|] == ops && (ops + [Read(n)])[..|ops|] == ops;
  }

  // ---------- Delivery ----------

  lemma {:induction false} EmittedWasSent(reliable: bool, calls: seq<Network.Call>, q: Bytes)
    requires q in Network.EmittedBy(reliable, calls) || Network.Held(reliable, calls) == Some(q)
    ensures exists i :: 0 <= i < |calls| && calls[i].packet == q
  {
    var pre := calls[..|calls| - 1];
    if q in Network.EmittedBy(reliable, pre) || Network.Held(reliable, pre) == Some(q) {
      EmittedWasSent(reliable, pre, q);
      var i :| 0 <= i < |pre| && pre[i].packet == q;
      assert calls[i].packet == q;
    } else {
      assert q == calls[|calls| - 1].packet;
    }
  }

  /** The datagram is, byte for byte, the one that some send should make. */
  ghost predicate WasSent(u: Setup, ops: seq<Op>, d: Bytes) {
    exists i :: 0 <= i < |SendsOf(ops)| && Sendable(SendsOf(ops)[i]) &&
                d == Assembled(u.sender, u.ep, SendsOf(ops)[i])
  }

  lemma {:induction false} EmittedIsSent(u: Setup, ops: seq<Op>, d: Bytes)
    requires d in Network.EmittedBy(u.reliable, CallsOf(u, ops)) && Good(u, d)
    ensures WasSent(u, ops, d)
  {
    EmittedWasSent(u.reliable, CallsOf(u, ops), d);
    CallsCarrySends(u, ops);
    var i :| 0 <= i < |CallsOf(u, ops)| && CallsOf(u, ops)[i].packet == d;
    assert d == Datagram(u, SendsOf(ops)[i]);
  }

  lemma {:induction false} DeliveredWasEmitted(u: Setup, s: State, i: nat)
    requires Inv(u, s) && i < |s.delivered|
    ensures i < |s.emitted| && s.delivered[i] == s.emitted[i] && Good(u, s.delivered[i])
  {
    assert s.delivered[i] == (s.delivered + s.recvQueue)[i];
  }

  /** Either mode, any choices of the unreliable sender, any arrival of the bytes: what has been
      delivered, and then queued, is what network.c makes of the sends of the run with their
      random numbers, cut off where delivery has got to, and all of it once nothing more can
      happen; every datagram is one that a send of the run makes, and passes the checksum. */
  lemma {:induction false} UnreliableDelivery(u: Setup, ops: seq<Op>)
    ensures var s, all := Run(u, ops), Network.EmittedBy(u.reliable, CallsOf(u, ops));
            && !s.closed
            && s.delivered + s.recvQueue <= all
            && (forall d :: d in s.delivered ==> Good(u, d) && WasSent(u, ops, d))
            && (Quiet(s) && !s.failed ==> s.delivered == all)
  {
    InvHolds(u, ops);
    EmittedFromOps(u, ops);
    var s := Run(u, ops);
    forall d | d in s.delivered
      ensures Good(u, d) && WasSent(u, ops, d)
    {
      var k :| 0 <= k < |s.delivered| && s.delivered[k] == d;
      DeliveredWasEmitted(u, s, k);
      EmittedIsSent(u, ops, d);
    }
    if Quiet(s) {
      QuietMeansDelivered(u, ops);
    }
  }

  lemma {:induction false} ReliableEmits(u: Setup, ops: seq<Op>)
    ensures Network.EmittedBy(true, CallsOf(u, ops)) == Datagrams(u, SendsOf(ops))
  {
    CallsCarrySends(u, ops);
    Network.ReliableSender(CallsOf(u, ops));
  }

  lemma {:induction false} DatagramIsSegment(u: Setup, p: Bytes)
    requires Good(u, Datagram(u, p))
    ensures Sendable(p) && SameSegment(p, Datagram(u, p))
  {
    if Sendable(p) {
      AssembledIsGood(u.sender, u.receiver, u.ep, p);
    }
  }

  /** Reliable mode: the datagrams delivered are those that the sends of the run make, in order
      and each once, up to where delivery has got to; each is what the send was given, changed only
      in header bytes 0-3 and 16-19, and passes the checksum. When nothing more can happen without
      a send, all of them have been delivered. */
  lemma {:induction false} ReliableDelivery(u: Setup, ops: seq<Op>)
    requires u.reliable
    ensures var s, sends := Run(u, ops), SendsOf(ops);
            && !s.closed
            && s.delivered + s.recvQueue <= Datagrams(u, sends)
            && (forall i :: 0 <= i < |s.delivered| ==>
                  Sendable(sends[i]) && SameSegment(sends[i], s.delivered[i]) && Good(u, s.delivered[i]))
            && (Quiet(s) && !s.failed ==> s.delivered == Datagrams(u, sends))
  {
    UnreliableDelivery(u, ops);
    ReliableEmits(u, ops);
    InvHolds(u, ops);
    var s, sends := Run(u, ops), SendsOf(ops);
    forall i | 0 <= i < |s.delivered|
      ensures i < |sends| && Sendable(sends[i]) && SameSegment(sends[i], s.delivered[i]) && Good(u, s.delivered[i])
    {
      assert s.delivered[i] == (s.delivered + s.recvQueue)[i] == Datagrams(u, sends)[i];
      DeliveredWasEmitted(u, s, i);
      DatagramIsSegment(u, sends[i]);
    }
  }
}
