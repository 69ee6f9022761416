/** The byte stream from the transport layer up to the application: stcp_app_send and
    stcp_fin_received fill app_send_queue, myread drains it and latches end of file. An EOF
    marker is a zero-length node among the data. */
module Stream {
  import opened Common
  import opened PacketQueue

  datatype State = State(queue: seq<Bytes>, eof: bool)

  datatype Op = Send(data: Bytes) | Fin | Read(max: nat)

  const INIT := State([], false)

  /** A read blocks until a node is queued, unless end of file is latched (mysock_api.c:222). */
  predicate Enabled(s: State, op: Op) {
    op.Read? ==> s.eof || s.queue != []
  }

  /** The bytes a read returns; other operations return none. */
  function Result(s: State, op: Op): Bytes {
    if !op.Read? || s.eof || s.queue == [] then [] else Take(s.queue, op.max, true).copied
  }

  /** A read that blocks has changed nothing yet. */
  function Step(s: State, op: Op): State {
    match op
    case Send(data) => if |data| > 0 then s.(queue := s.queue + [data]) else s
    case Fin => s.(queue := s.queue + [[]])
    case Read(max) =>
      if s.eof || s.queue == [] then s else
      var t := Take(s.queue, max, true);
      State(t.rest, t.len == 0)
  }

  // ---------- The code ----------

  class Socket {
    var eof: bool
    const appSendQueue: Queue

    ghost predicate Valid()
      reads this, appSendQueue, appSendQueue.Repr
    {
      appSendQueue.Valid() && this !in appSendQueue.Repr
    }

    ghost function Abs(): State
      reads this, appSendQueue
    {
      State(appSendQueue.contents, eof)
    }

    constructor ()
      ensures Valid() && fresh(appSendQueue.Repr) && Abs() == INIT
    {
      eof := false;
      appSendQueue := new Queue();
    }

    /** stcp_api.c:254-264. */
    method AppSend(src: Bytes)
      requires Valid()
      modifies appSendQueue.Repr
      ensures Valid() && fresh(appSendQueue.Repr - old(appSendQueue.Repr))
      ensures Abs() == Step(old(Abs()), Send(src))
    {
      if |src| > 0 {
        appSendQueue.Enqueue(src);
      }
    }

    /** stcp_api.c:266-272, and the final marker of mysock.c:391. */
    method FinReceived()
      requires Valid()
      modifies appSendQueue.Repr
      ensures Valid() && fresh(appSendQueue.Repr - old(appSendQueue.Repr))
      ensures Abs() == Step(old(Abs()), Fin)
    {
      appSendQueue.Enqueue([]);
    }

    /** mysock_api.c:212-233, once it would not block. */
    method MyRead(buf: array<byte>, len: nat) returns (got: nat)
      requires Valid() && Enabled(Abs(), Read(len))
      requires len <= buf.Length && buf !in appSendQueue.Repr
      modifies this, appSendQueue.Repr, buf
      ensures Valid() && appSendQueue.Repr == old(appSendQueue.Repr)
      ensures Abs() == Step(old(Abs()), Read(len))
      ensures var r := Result(old(Abs()), Read(len));
              got == |r| <= len && buf[..] == r + old(buf[got..])
    {
      if eof {
        return 0;
      }
      ghost var q := appSendQueue.contents;
      TakeStream(q, len);
      got := appSendQueue.Dequeue(buf, len, true);
      if got == 0 {
        eof := true;
      }
    }
  }

  // ---------- Whole runs ----------

  /** The run can happen: no read in it blocks. */
  predicate Legal(ops: seq<Op>) {
    ops == [] ||
    var pre, op := ops[..|ops| - 1], ops[|ops| - 1];
    Legal(pre) && Enabled(Run(pre), op)
  }

  function Run(ops: seq<Op>): State {
    if ops == [] then INIT else Step(Run(ops[..|ops| - 1]), ops[|ops| - 1])
  }

  /** All bytes returned by the reads of a run, in order. */
  function Got(ops: seq<Op>): Bytes {
    if ops == [] then [] else
    Got(ops[..|ops| - 1]) + Result(Run(ops[..|ops| - 1]), ops[|ops| - 1])
  }

  /** All bytes sent up before the first EOF marker: a reference that knows no queue. */
  function Sent(ops: seq<Op>): Bytes {
    if ops == [] then [] else
    var pre, op := ops[..|ops| - 1], ops[|ops| - 1];
    Sent(pre) + if op.Send? && Fin !in pre then op.data else []
  }

  /** The bytes of the queue in front of its first marker. */
  function Pending(q: seq<Bytes>): Bytes {
    if q == [] || |q[0]| == 0 then [] else q[0] + Pending(q[1..])
  }

  predicate HasMarker(q: seq<Bytes>) {
    q != [] && (|q[0]| == 0 || HasMarker(q[1..]))
  }

  lemma {:induction false} PendingAppend(q: seq<Bytes>, x: Bytes)
    ensures Pending(q + [x]) == if HasMarker(q) then Pending(q) else Pending(q) + x
    ensures HasMarker(q + [x]) <==> HasMarker(q) || |x| == 0
  {
    if q == [] {
      assert q + [x] == [x] && [x][1..] == [];
    } else if |q[0]| > 0 {
      assert (q + [x])[1..] == q[1..] + [x];
      PendingAppend(q[1..], x);
    }
  }

  /** A read of at least one byte takes the front of what is pending, and takes nothing only
      from a marker; it never turns data into a marker. */
  lemma {:induction false} PendingTake(q: seq<Bytes>, max: nat)
    requires q != [] && max > 0
    ensures var t := Take(q, max, true);
            && t.len == |t.copied|
            && Pending(q) == t.copied + (if t.len == 0 then [] else Pending(t.rest))
            && (t.len == 0 <==> |q[0]| == 0)
            && (t.len > 0 ==> (HasMarker(t.rest) <==> HasMarker(q)))
  {
    var t, h := Take(q, max, true), q[0];
    if |h| > max {
      assert t.rest[0] == h[max..] && t.rest[1..] == q[1..];
      calc {
        Pending(q);
        h + Pending(q[1..]);
        { assert h == h[..max] + h[max..]; }
        h[..max] + (h[max..] + Pending(q[1..]));
        t.copied + Pending(t.rest);
      }
    }
  }

  /** How a state accounts for the bytes got and sent so far, for the marker, and for reads of
      zero bytes. */
  predicate Good(s: State, got: Bytes, sent: Bytes, fin: bool, zero: bool) {
    if s.eof then got <= sent && (zero || (fin && got == sent))
    else !zero && got + Pending(s.queue) == sent && (fin <==> HasMarker(s.queue))
  }

  lemma {:induction false} GoodStep(s: State, got: Bytes, sent: Bytes, fin: bool, zero: bool, op: Op)
    requires Good(s, got, sent, fin, zero) && Enabled(s, op)
    ensures Good(Step(s, op), got + Result(s, op),
                 sent + (if op.Send? && !fin then op.data else []), fin || op.Fin?, zero || op == Read(0))
  {
    match op
    case Send(data) =>
      PendingAppend(s.queue, data);
    case Fin =>
      PendingAppend(s.queue, []);
    case Read(max) => GoodRead(s, got, sent, fin, zero, max);
  }

  lemma {:induction false} GoodRead(s: State, got: Bytes, sent: Bytes, fin: bool, zero: bool, max: nat)
    requires Good(s, got, sent, fin, zero) && Enabled(s, Read(max))
    ensures Good(Step(s, Read(max)), got + Result(s, Read(max)), sent, fin, zero || max == 0)
  {
    if !s.eof {
      TakeStream(s.queue, max);
      if max > 0 {
        PendingTake(s.queue, max);
      }
    }
  }

  lemma {:induction false} GoodRun(ops: seq<Op>)
    requires Legal(ops)
    ensures Good(Run(ops), Got(ops), Sent(ops), Fin in ops, Read(0) in ops)
  {
    if ops != [] {
      var pre, op := ops[..|ops| - 1], ops[|ops| - 1];
      GoodRun(pre);
      GoodStep(Run(pre), Got(pre), Sent(pre), Fin in pre, Read(0) in pre, op);
      assert ops == pre + [op];
      assert Fin in ops <==> Fin in pre || op.Fin?;
      assert Read(0) in ops <==> Read(0) in pre || op == Read(0);
    }
  }

  /** The stream law: whatever the chunking of sends and reads, what has been read is a prefix of
      what was sent before the first EOF marker, and without a read of zero bytes it is followed
      by exactly the bytes still pending. */
  lemma {:induction false} StreamLaw(ops: seq<Op>)
    requires Legal(ops)
    ensures Got(ops) <= Sent(ops)
    ensures Read(0) !in ops ==>
              Got(ops) + (if Run(ops).eof then [] else Pending(Run(ops).queue)) == Sent(ops)
  {
    GoodRun(ops);
  }

  /** What one more read does after any run, for any size it asks for: it blocks exactly when
      every byte has been read, no marker was sent and no read asked for zero bytes; it returns
      the next bytes of the stream; and it returns 0, latching end of file, exactly when it asks
      for zero bytes, an earlier read did, or the marker was sent and every byte before it has
      been read. So a zero-length read, and only that, ends the stream early. */
  lemma {:induction false} ReadLaw(ops: seq<Op>, max: nat)
    requires Legal(ops)
    ensures Enabled(Run(ops), Read(max)) <==>
              Got(ops) != Sent(ops) || Fin in ops || Read(0) in ops
    ensures Enabled(Run(ops), Read(max)) ==>
              var r := Result(Run(ops), Read(max));
              && |r| <= max && Got(ops) + r <= Sent(ops)
              && (r == [] <==> max == 0 || Read(0) in ops || (Fin in ops && Got(ops) == Sent(ops)))
              && (r == [] <==> Step(Run(ops), Read(max)).eof)
  {
    GoodRun(ops);
    var s := Run(ops);
    if !s.eof && s.queue != [] {
      TakeStream(s.queue, max);
      if max > 0 {
        PendingTake(s.queue, max);
        assert Got(ops) + Pending(s.queue) == Sent(ops);
      }
    }
  }

  /** Once a read has returned 0, every later read returns 0. */
  lemma {:induction false} EofIsFinal(ops: seq<Op>, more: seq<Op>)
    requires Run(ops).eof
    ensures Run(ops + more).eof && Got(ops + more) == Got(ops)
  {
    if more == [] {
      assert ops + more == ops;
    } else {
      var pre := more[..|more| - 1];
      assert (ops + more)[..|ops + more| - 1] == ops + pre;
      EofIsFinal(ops, pre);
    }
  }
}
