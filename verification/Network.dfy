/** The simulated unreliability of network.c: by the low five bits of a random number, a packet
    is dropped, sent twice, held back, replaced by the held packet, or sent. */
module Network {
  import opened Common

  /** One call of _network_send: the packet and rand_r(...) & 0x1f. */
  datatype Call = Call(packet: Bytes, choice: nat)

  const DROP := 0
  const DUPLICATE := 1
  const HOLD := 2
  const REPLAY := 3

  // ---------- One call ----------

  function Emitted(reliable: bool, held: Option<Bytes>, c: Call): seq<Bytes> {
    if reliable then [c.packet]
    else if c.choice == DROP || c.choice == HOLD then []
    else if c.choice == DUPLICATE then [c.packet, c.packet]
    else if c.choice == REPLAY && held.Some? then [held.value]
    else [c.packet]
  }

  function HeldAfter(reliable: bool, held: Option<Bytes>, c: Call): Option<Bytes> {
    if !reliable && c.choice == HOLD then Some(c.packet) else held
  }

  class NetworkContext {
    const isReliable: bool
    var copied: bool
    const copyBuffer: array<byte>
    var copyBufLen: nat
    var sent: seq<Bytes>    // packets passed to _network_send_packet
    ghost var lastResult: int    // what its last call returned

    ghost predicate Valid()
      reads this
    {
      copyBuffer.Length == MAX_PAYLOAD && copyBufLen <= MAX_PAYLOAD
    }

    ghost function Held(): Option<Bytes>
      requires Valid()
      reads this, copyBuffer
    {
      if copied then Some(copyBuffer[..copyBufLen]) else None
    }

    constructor (isReliable: bool)
      ensures Valid() && fresh(copyBuffer) && this.isReliable == isReliable
      ensures Held() == None && sent == []
    {
      this.isReliable := isReliable;
      copied, copyBufLen, sent, lastResult := false, 0, [], 0;
      copyBuffer := new byte[MAX_PAYLOAD](_ => 0);
    }

    /** _network_send_packet: the length, or -1 if the connection fails. */
    method Transmit(packet: Bytes) returns (rc: int)
      modifies this`sent, this`lastResult
      ensures sent == old(sent) + [packet] && (rc == |packet| || rc == -1) && lastResult == rc
    {
      sent := sent + [packet];
      var fails: bool := *;
      rc := if fails then -1 else |packet|;
      lastResult := rc;
    }

    /** network.c:34-81; the bytes of an earlier, longer held packet stay in the buffer. The
        result is the length for a drop, a hold and a replay, whatever happens, and otherwise that of
        the last transmission. */
    method Send(buf: Bytes, choice: nat) returns (rc: int)
      requires Valid() && |buf| <= MAX_PAYLOAD
      modifies this, copyBuffer
      ensures Valid()
      ensures rc == |buf| || rc == -1
      ensures rc == if !isReliable && choice in {0, 2, 3} then |buf| else lastResult
      ensures Held() == HeldAfter(isReliable, old(Held()), Call(buf, choice))
      ensures sent == old(sent) + Emitted(isReliable, old(Held()), Call(buf, choice))
    {
      if !isReliable {
        match choice {
          case 0 =>
            return |buf|;
          case 1 =>
            var _ := Transmit(buf);
          case 2 =>
            forall i | 0 <= i < |buf| {
              copyBuffer[i] := buf[i];
            }
            copyBufLen := |buf|;
            copied := true;
            assert copyBuffer[..copyBufLen] == buf;
            return |buf|;
          case 3 =>
            if copied {
              var _ := Transmit(copyBuffer[..copyBufLen]);
            } else {
              var _ := Transmit(buf);
            }
            return |buf|;
          case _ =>
        }
      }
      rc := Transmit(buf);
    }
  }

  // ---------- Whole runs ----------

  function Held(reliable: bool, calls: seq<Call>): Option<Bytes> {
    if calls == [] then None
    else HeldAfter(reliable, Held(reliable, calls[..|calls| - 1]), calls[|calls| - 1])
  }

  /** What the i-th call of a run emits. */
  function EmittedAt(reliable: bool, calls: seq<Call>, i: nat): seq<Bytes>
    requires i < |calls|
  {
    Emitted(reliable, Held(reliable, calls[..i]), calls[i])
  }

  /** Everything a run emits, in order. */
  function EmittedBy(reliable: bool, calls: seq<Call>): seq<Bytes> {
    if calls == [] then []
    else EmittedBy(reliable, calls[..|calls| - 1]) + EmittedAt(reliable, calls, |calls| - 1)
  }

  /** Call j held its packet back, and no call between j and i did. */
  predicate MostRecentlyHeld(calls: seq<Call>, j: int, i: int) {
    && 0 <= j < i <= |calls| && calls[j].choice == HOLD
    && forall k :: j < k < i ==> calls[k].choice != HOLD
  }

  lemma {:induction false} HeldIsMostRecent(calls: seq<Call>, j: int)
    requires MostRecentlyHeld(calls, j, |calls|)
    ensures Held(false, calls) == Some(calls[j].packet)
  {
    if j < |calls| - 1 {
      HeldIsMostRecent(calls[..|calls| - 1], j);
    }
  }

  lemma {:induction false} NothingHeld(calls: seq<Call>)
    requires forall k :: 0 <= k < |calls| ==> calls[k].choice != HOLD
    ensures Held(false, calls) == None
  {
    if calls != [] {
      NothingHeld(calls[..|calls| - 1]);
    }
  }

  lemma {:induction false} LastHold(calls: seq<Call>) returns (j: int)
    ensures if j < 0 then forall k :: 0 <= k < |calls| ==> calls[k].choice != HOLD
            else MostRecentlyHeld(calls, j, |calls|)
  {
    j := |calls| - 1;
    while j >= 0 && calls[j].choice != HOLD
      invariant -1 <= j < |calls|
      invariant forall k :: j < k < |calls| ==> calls[k].choice != HOLD
    {
      j := j - 1;
    }
  }

  /** For every sequence of choices: each packet emitted at call i is packet i, or at a replay
      the most recently held packet with its exact bytes; a call emits at most two packets, two
      only when it duplicates, none exactly when it drops or holds. */
  lemma {:induction false} UnreliableSender(calls: seq<Call>, i: nat)
    requires i < |calls|
    ensures var out := EmittedAt(false, calls, i);
            && (|out| == 0 <==> calls[i].choice == DROP || calls[i].choice == HOLD)
            && (|out| == 2 <==> calls[i].choice == DUPLICATE) && |out| <= 2
            && forall q :: q in out ==>
                 if calls[i].choice == REPLAY && (exists j :: MostRecentlyHeld(calls, j, i))
                 then exists j :: MostRecentlyHeld(calls, j, i) && q == calls[j].packet
                 else q == calls[i].packet
  {
    var pre := calls[..i];
    var j := LastHold(pre);
    if j >= 0 {
      HeldIsMostRecent(pre, j);
      assert MostRecentlyHeld(calls, j, i);
    } else {
      NothingHeld(pre);
      assert !exists j :: MostRecentlyHeld(calls, j, i);
    }
  }

  /** In reliable mode the packets come out as they went in. */
  lemma {:induction false} ReliableSender(calls: seq<Call>)
    ensures |EmittedBy(true, calls)| == |calls|
    ensures forall i :: 0 <= i < |calls| ==> EmittedBy(true, calls)[i] == calls[i].packet
  {
    if calls != [] {
      ReliableSender(calls[..|calls| - 1]);
    }
  }
}
