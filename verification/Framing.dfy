/** Datagrams over a byte stream (network_io_tcp.c): each packet is preceded by its length as
    two bytes, and every read or write of the stream may be short. */
module Framing {
  import opened Common

  /** The 16-bit value of two bytes in network order. */
  function Ntohs(high: byte, low: byte): uint16 {
    0x100 * high + low
  }

  /** What _network_send_packet puts on the stream: the length is cut to 16 bits. */
  function Frame(p: Bytes): Bytes {
    [|p| / 0x100 % 0x100, |p| % 0x100] + p
  }

  function Frames(ps: seq<Bytes>): Bytes {
    if ps == [] then [] else Frame(ps[0]) + Frames(ps[1..])
  }

  /** Closed is any result <= 0: the receive thread then gives up the connection. */
  datatype Received = Closed | Packet(len: nat, data: Bytes)

  /** _network_recv_packet on a stream that ends after s and reports no error. A remainder that
      does not fit the buffer is discarded, whether or not all of it arrives. */
  function Recv(s: Bytes, max: nat): (Received, Bytes) {
    if |s| < 2 then (Closed, []) else RecvBody(s[2..], Ntohs(s[0], s[1]), max)
  }

  /** The part after the length (network_io_tcp.c:225-238). */
  function RecvBody(body: Bytes, len: nat, max: nat): (Received, Bytes) {
    var want := Min(len, max);
    if want == 0 then (Closed, body)
    else if |body| < want then (Closed, [])
    else (Packet(len, body[..want]), body[Min(len, |body|)..])
  }

  /** The first n results. */
  function RecvMany(s: Bytes, max: nat, n: nat): (seq<Received>, Bytes)
    decreases n
  {
    if n == 0 then ([], s)
    else
      var (r, rest) := Recv(s, max);
      var (rs, end) := RecvMany(rest, max, n - 1);
      ([r] + rs, end)
  }

  // ---------- The round trip ----------

  lemma {:induction false} LengthPrefix(n: nat)
    ensures Ntohs(n / 0x100 % 0x100, n % 0x100) == n % 0x1_0000
    ensures n % 0x1_0000 == n <==> n <= 0xffff
  {
  }

  /** A packet comes back with its full length, its first max bytes, and the stream at the next
      packet, exactly when its length is between 1 and 65535. */
  lemma {:induction false} RoundTrip(p: Bytes, rest: Bytes, max: nat)
    requires max > 0
    ensures Recv(Frame(p) + rest, max) == (Packet(|p|, p[..Min(|p|, max)]), rest) <==>
            1 <= |p| <= 0xffff
  {
    var s := Frame(p) + rest;
    assert s[2..] == p + rest;
    LengthPrefix(|p|);
    if 1 <= |p| <= 0xffff {
      assert (p + rest)[..Min(|p|, max)] == p[..Min(|p|, max)];
      assert (p + rest)[|p|..] == rest;
    }
  }

  /** A stream that ends inside the frame: it is a packet exactly when all that fits the buffer has
      arrived, and nothing is left either way. */
  lemma {:induction false} CutFrame(p: Bytes, k: nat, max: nat)
    requires 1 <= |p| <= 0xffff && max > 0 && k <= |Frame(p)|
    ensures Recv(Frame(p)[..k], max) ==
            (if k >= 2 + Min(|p|, max) then Packet(|p|, p[..Min(|p|, max)]) else Closed, [])
  {
    if k >= 2 {
      var s, body := Frame(p)[..k], p[..k - 2];
      LengthPrefix(|p|);
      assert s[2..] == body && s[0] == Frame(p)[0] && s[1] == Frame(p)[1];
      assert Recv(s, max) == RecvBody(body, |p|, max);
      if k >= 2 + Min(|p|, max) {
        assert body[..Min(|p|, max)] == p[..Min(|p|, max)] && body[|body|..] == [];
      }
    }
  }

  /** What a receiver with max bytes of buffer should see of the packets. */
  function Expected(ps: seq<Bytes>, max: nat): seq<Received> {
    if ps == [] then []
    else [Packet(|ps[0]|, ps[0][..Min(|ps[0]|, max)])] + Expected(ps[1..], max)
  }

  lemma {:induction false} FramesHead(ps: seq<Bytes>, rest: Bytes)
    requires ps != []
    ensures Frames(ps) + rest == Frame(ps[0]) + (Frames(ps[1..]) + rest)
  {
  }

  /** Any sequence of such packets is recovered in order, and the stream stays in step even
      where a packet was longer than the buffer. */
  lemma {:induction false} StreamRoundTrip(ps: seq<Bytes>, rest: Bytes, max: nat)
    requires max > 0
    requires forall p :: p in ps ==> 1 <= |p| <= 0xffff
    ensures RecvMany(Frames(ps) + rest, max, |ps|) == (Expected(ps, max), rest)
  {
    if ps == [] {
      assert Frames(ps) + rest == rest;
    } else {
      StreamRoundTrip(ps[1..], rest, max);
      FramesHead(ps, rest);
      RoundTrip(ps[0], Frames(ps[1..]) + rest, max);
    }
  }

  lemma {:induction false} FramesAppend(ps: seq<Bytes>, qs: seq<Bytes>)
    ensures Frames(ps + qs) == Frames(ps) + Frames(qs)
  {
    if ps == [] {
      assert ps + qs == qs;
    } else {
      assert (ps + qs)[1..] == ps[1..] + qs;
      FramesAppend(ps[1..], qs);
    }
  }

  // ---------- The code ----------

  lemma {:induction false} SplitPrefix(s: Bytes, i: nat, n: nat)
    requires i + n <= |s|
    ensures s[..i] + s[i..][..n] == s[..i + n] && s[i..][n..] == s[i + n..]
  {
  }

  /** Between low and high bytes were taken off the front of the stream. */
  predicate Advanced(before: Bytes, after: Bytes, low: nat, high: nat) {
    && low <= |before| - |after| <= high
    && after == before[|before| - |after|..]
  }

  lemma {:induction false} AdvancedTwice(a: Bytes, b: Bytes, c: Bytes, l: nat, h: nat, l': nat, h': nat)
    requires Advanced(a, b, l, h) && Advanced(b, c, l', h')
    ensures Advanced(a, c, l + l', h + h')
  {
  }

  /** A part from the front of a and then one from the front of b were put on the stream. */
  ghost predicate Fronts(before: Bytes, after: Bytes, a: Bytes, b: Bytes) {
    exists i, j :: 0 <= i <= |a| && 0 <= j <= |b| && after == before + a[..i] + b[..j]
  }

  lemma {:induction false} FrontsOf(before: Bytes, mid: Bytes, after: Bytes, a: Bytes, b: Bytes)
    requires before <= mid <= before + a && mid <= after <= mid + b
    ensures Fronts(before, after, a, b)
  {
    var i, j := |mid| - |before|, |after| - |mid|;
    assert mid == before + a[..i];
    assert after == mid + b[..j];
  }

  /** One direction of a TCP connection. Calls transfer any positive number of bytes up to the
      number asked for; on a faulty connection they may also return 0 or -1. */
  class Pipe {
    var bytes: Bytes
    const faulty: bool
    ghost var emptyWrites: nat    // writes that returned 0
    ghost var failedWrites: nat   // writes that returned -1
    ghost var failedReads: nat    // reads that returned -1

    constructor (faulty: bool)
      ensures this.faulty == faulty && bytes == [] && emptyWrites == failedWrites == failedReads == 0
    {
      this.faulty := faulty;
      bytes, emptyWrites, failedWrites, failedReads := [], 0, 0, 0;
    }

    /** write(2) */
    method Write(src: Bytes) returns (rc: int)
      requires src != []
      modifies this`bytes, this`emptyWrites, this`failedWrites
      ensures -1 <= rc <= |src| && (rc <= 0 ==> faulty)
      ensures bytes == old(bytes) + if rc <= 0 then [] else src[..rc]
      ensures emptyWrites == old(emptyWrites) + if rc == 0 then 1 else 0
      ensures failedWrites == old(failedWrites) + if rc < 0 then 1 else 0
    {
      var fails: bool, empty: bool := *, *;
      if faulty && empty {
        emptyWrites := emptyWrites + 1;
        return 0;
      }
      if faulty && fails {
        failedWrites := failedWrites + 1;
        return -1;
      }
      rc :| 1 <= rc <= |src|;
      bytes := bytes + src[..rc];
    }

    /** read(2): 0 at the end of the stream. */
    method Read(dst: array<byte>, off: nat, count: nat) returns (rc: int)
      requires count > 0 && off + count <= dst.Length
      modifies this`bytes, this`failedReads, dst
      ensures -1 <= rc <= count && rc <= |old(bytes)|
      ensures failedReads == old(failedReads) + (if rc < 0 then 1 else 0) && (rc < 0 ==> faulty)
      ensures rc == 0 ==> old(bytes) == []
      ensures bytes == if rc <= 0 then old(bytes) else old(bytes)[rc..]
      ensures rc > 0 ==> dst[..off + rc] == old(dst[..off]) + old(bytes)[..rc]
    {
      var fails: bool := *;
      if faulty && fails {
        failedReads := failedReads + 1;
        return -1;
      }
      if bytes == [] {
        return 0;
      }
      rc :| 1 <= rc <= Min(count, |bytes|);
      assert rc <= Min(count, |bytes|);
      forall i | 0 <= i < rc {
        dst[off + i] := bytes[i];
      }
      bytes := bytes[rc..];
    }

    /** _tcp_io with write (network_io_tcp.c:243-265): everything is written, or the result is
        that of the write that failed, and a part from the front is written. */
    method WriteAll(buf: Bytes) returns (rc: int)
      modifies this`bytes, this`emptyWrites, this`failedWrites
      ensures if emptyWrites == old(emptyWrites) && failedWrites == old(failedWrites)
              then rc == |buf| && bytes == old(bytes) + buf
              else faulty && |bytes| < |old(bytes)| + |buf| && rc == if failedWrites == old(failedWrites) then 0 else -1
      ensures emptyWrites + failedWrites <= old(emptyWrites) + old(failedWrites) + 1
      ensures old(emptyWrites) <= emptyWrites && old(failedWrites) <= failedWrites
      ensures old(bytes) <= bytes <= old(bytes) + buf
    {
      var remaining := |buf|;
      while remaining > 0
        invariant 0 <= remaining <= |buf| && emptyWrites == old(emptyWrites) && failedWrites == old(failedWrites)
        invariant bytes == old(bytes) + buf[..|buf| - remaining]
      {
        var cbuf := buf[|buf| - remaining..];
        rc := Write(cbuf);
        if rc <= 0 {
          return;
        }
        SplitPrefix(buf, |buf| - remaining, rc);
        remaining := remaining - rc;
      }
      return |buf|;
    }

    /** _tcp_io with read. */
    method ReadAll(dst: array<byte>, count: nat) returns (rc: int)
      requires count <= dst.Length
      modifies this`bytes, this`failedReads, dst
      ensures rc <= count
      ensures rc > 0 ==> rc == count <= |old(bytes)|
      ensures rc > 0 ==> bytes == old(bytes)[count..] && dst[..count] == old(bytes)[..count]
      ensures rc == 0 ==> count == 0 || count > |old(bytes)|
      ensures rc == 0 ==> bytes == if count == 0 then old(bytes) else []
      ensures failedReads == old(failedReads) + (if rc < 0 then 1 else 0) && (rc < 0 ==> faulty)
      ensures Advanced(old(bytes), bytes, 0, count)
    {
      var remaining := count;
      while remaining > 0
        invariant 0 <= remaining <= count && count - remaining <= |old(bytes)|
        invariant failedReads == old(failedReads)
        invariant bytes == old(bytes)[count - remaining..]
        invariant dst[..count - remaining] == old(bytes)[..count - remaining]
      {
        ghost var done := count - remaining;
        rc := Read(dst, count - remaining, remaining);
        if rc <= 0 {
          return;
        }
        assert bytes == old(bytes)[done + rc..] by { SplitPrefix(old(bytes), done, rc); }
        assert dst[..done + rc] == old(bytes)[..done + rc] by { SplitPrefix(old(bytes), done, rc); }
        remaining := remaining - rc;
      }
      return count;
    }

    /** _network_send_packet (network_io_tcp.c:153-159), once connected. The result is the full
        length or -1. A full length means that the frame is on the stream, exactly unless a
        write returned 0, which the tests for a negative result let pass: then it may lack bytes
        at the end of the length and of the packet. Otherwise a part from the front of the frame
        is written. */
    method SendPacket(src: Bytes) returns (rc: int)
      modifies this`bytes, this`emptyWrites, this`failedWrites
      ensures rc == if failedWrites == old(failedWrites) then |src| else -1
      ensures failedWrites != old(failedWrites) ==> faulty
      ensures rc == |src| ==> (bytes == old(bytes) + Frame(src) <==> emptyWrites == old(emptyWrites))
      ensures rc == |src| && emptyWrites == old(emptyWrites) ==>
                var length: Bytes := [|src| / 0x100 % 0x100, |src| % 0x100];
                bytes == old(bytes) + length + src
      ensures emptyWrites != old(emptyWrites) ==> faulty
      ensures emptyWrites == old(emptyWrites) ==> old(bytes) <= bytes <= old(bytes) + Frame(src)
      ensures Fronts(old(bytes), bytes, Frame(src)[..2], src)
    {
      var prefix := [|src| / 0x100 % 0x100, |src| % 0x100];
      assert Frame(src)[..2] == prefix;
      rc := WriteAll(prefix);
      ghost var mid := bytes;
      FrontsOf(old(bytes), mid, mid, prefix, src);
      if rc < 0 {
        return -1;
      }
      rc := WriteAll(src);
      FrontsOf(old(bytes), mid, bytes, prefix, src);
      if rc < 0 {
        return -1;
      }
      return |src|;
    }

    /** network_io_tcp.c:225-238, with the length already read. */
    method RecvRest(dst: array<byte>, len: nat, max: nat) returns (rc: int)
      requires max <= dst.Length
      modifies this`bytes, this`failedReads, dst
      ensures rc > 0 ==> RecvBody(old(bytes), len, max).0 == Packet(rc, dst[..Min(rc, max)])
      ensures rc > 0 ==> rc == len && Advanced(old(bytes), bytes, Min(len, max), len)
      ensures rc < 0 ==> failedReads != old(failedReads)
      ensures old(failedReads) <= failedReads && (failedReads != old(failedReads) ==> faulty)
      ensures failedReads == old(failedReads) ==> bytes == RecvBody(old(bytes), len, max).1
      ensures failedReads == old(failedReads) && rc <= 0 ==> RecvBody(old(bytes), len, max).0 == Closed
      ensures Advanced(old(bytes), bytes, 0, len)
    {
      rc := ReadAll(dst, Min(len, max));
      if rc <= 0 {
        return;
      }
      ghost var over, front := bytes, dst[..Min(len, max)];
      if len > max {
        var dummy := new byte[len - max];
        var _ := ReadAll(dummy, len - max);
        AdvancedTwice(old(bytes), over, bytes, max, max, 0, len - max);
        SplitPrefix(old(bytes), max, Min(len - max, |over|));
      }
      assert dst[..Min(len, max)] == front;
      rc := len;
    }

    /** _network_recv_packet (network_io_tcp.c:218-239). Even on a faulty connection, a packet
        that is returned is the one on the stream, and no byte beyond it is taken. */
    method RecvPacket(dst: array<byte>, max: nat) returns (rc: int)
      requires max <= dst.Length
      modifies this`bytes, this`failedReads, dst
      ensures rc > 0 ==> Recv(old(bytes), max).0 == Packet(rc, dst[..Min(rc, max)])
      ensures rc > 0 ==> Advanced(old(bytes), bytes, 2 + Min(rc, max), 2 + rc)
      ensures rc < 0 ==> failedReads != old(failedReads)
      ensures failedReads != old(failedReads) ==> faulty
      ensures failedReads == old(failedReads) ==> bytes == Recv(old(bytes), max).1
      ensures failedReads == old(failedReads) && rc <= 0 ==> Recv(old(bytes), max).0 == Closed
      ensures Advanced(old(bytes), bytes, 0,
                       if |old(bytes)| < 2 then 2 else 2 + Ntohs(old(bytes)[0], old(bytes)[1]))
    {
      var header := new byte[2];
      rc := ReadAll(header, 2);
      if rc <= 0 {
        return;
      }
      ghost var body := bytes;
      assert header[..2][0] == old(bytes)[0] && header[..2][1] == old(bytes)[1];
      var len: nat := Ntohs(header[0], header[1]);
      rc := RecvRest(dst, len, max);
      AdvancedTwice(old(bytes), body, bytes, 2, 2, if rc > 0 then Min(len, max) else 0, len);
    }
  }
}
