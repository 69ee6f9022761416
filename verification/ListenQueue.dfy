/** The backlog of one listening socket (connection_demux.c): an array of slots for pending
    connections, a counter of occupied slots, and a linked list of completed slots. Each
    function's critical section is one step; slots are named by their index. */
module ListenQueue {
  import opened Common

  datatype SockAddr = SockAddr(family: nat, port: nat, ip: nat)

  const AF_INET := 2
  const SOCKADDR_LEN := 16
  const ZERO_SOCKADDR := SockAddr(0, 0, 0)

  datatype Slot = Slot(peer: SockAddr, peerLen: nat, sd: int)

  /** INVALIDATE_CONNECT_REQUEST: all zero but for the descriptor. */
  const FREE := Slot(ZERO_SOCKADDR, 0, -1)

  /** completed holds slot indices in the order of their completion. */
  datatype Backlog = Backlog(slots: seq<Slot>, curLen: nat, completed: seq<nat>)

  // ---------- Searching the slots ----------

  /** The first slot whose descriptor is negative, or the number of slots. */
  function FreeSlot(slots: seq<Slot>): (k: nat)
    ensures k <= |slots| && forall i :: 0 <= i < k ==> slots[i].sd >= 0
    ensures k < |slots| ==> slots[k].sd < 0
  {
    if slots == [] || slots[0].sd < 0 then 0 else 1 + FreeSlot(slots[1..])
  }

  /** The first slot that holds the descriptor, or the number of slots. */
  function SlotOf(slots: seq<Slot>, sd: int): (k: nat)
    ensures k <= |slots| && forall i :: 0 <= i < k ==> slots[i].sd != sd
    ensures k < |slots| ==> slots[k].sd == sd
  {
    if slots == [] || slots[0].sd == sd then 0 else 1 + SlotOf(slots[1..], sd)
  }

  predicate Known(slots: seq<Slot>, peer: SockAddr) {
    exists k :: 0 <= k < |slots| && slots[k].peer == peer
  }

  function Occupied(slots: seq<Slot>): nat {
    if slots == [] then 0 else (if slots[0].sd >= 0 then 1 else 0) + Occupied(slots[1..])
  }

  // ---------- The three operations ----------

  /** connection_demux.c:161-251. newSd is what _mysock_new_mysocket returns, if it is called. */
  function Admits(b: Backlog, len: nat, syn: bool, peer: SockAddr): bool {
    len >= HEADER_LEN && syn && !Known(b.slots, peer) && b.curLen < |b.slots|
  }

  function OnSyn(b: Backlog, len: nat, syn: bool, peer: SockAddr, newSd: int): Backlog {
    var k := FreeSlot(b.slots);
    if !Admits(b, len, syn, peer) || k == |b.slots| then b
    else if newSd < 0 then b.(slots := b.slots[k := FREE])
    else b.(slots := b.slots[k := Slot(peer, SOCKADDR_LEN, newSd)], curLen := b.curLen + 1)
  }

  /** connection_demux.c:274-298. */
  function OnComplete(b: Backlog, sd: int): Backlog {
    b.(completed := b.completed + [SlotOf(b.slots, sd)])
  }

  /** connection_demux.c:95-114. */
  function OnAccept(b: Backlog): Backlog
    requires b.completed != [] && b.completed[0] < |b.slots| && b.curLen > 0
  {
    Backlog(b.slots[b.completed[0] := FREE], b.curLen - 1, b.completed[1..])
  }

  // ---------- What the operations keep ----------

  ghost predicate Inv(b: Backlog) {
    Counted(b) && Distinct(b) && CompletedOccupied(b) && CompletedOnce(b)
  }

  /** The counter counts the occupied slots, free slots are all zero, and occupied ones hold an
      AF_INET address. */
  ghost predicate Counted(b: Backlog) {
    && b.curLen == Occupied(b.slots)
    && (forall k :: 0 <= k < |b.slots| ==>
          if b.slots[k].sd < 0 then b.slots[k] == FREE
          else b.slots[k].peer.family == AF_INET && b.slots[k].peerLen == SOCKADDR_LEN)
  }

  ghost predicate Distinct(b: Backlog) {
    forall i, j :: 0 <= i < j < |b.slots| && b.slots[i].sd >= 0 && b.slots[j].sd >= 0 ==>
      b.slots[i].sd != b.slots[j].sd && b.slots[i].peer != b.slots[j].peer
  }

  ghost predicate CompletedOccupied(b: Backlog) {
    forall i :: 0 <= i < |b.completed| ==>
      b.completed[i] < |b.slots| && b.slots[b.completed[i]].sd >= 0
  }

  ghost predicate CompletedOnce(b: Backlog) {
    forall i, j :: 0 <= i < j < |b.completed| ==> b.completed[i] != b.completed[j]
  }

  lemma {:induction false} OccupiedBound(slots: seq<Slot>)
    ensures Occupied(slots) <= |slots|
    ensures Occupied(slots) < |slots| <==> FreeSlot(slots) < |slots|
  {
    if slots != [] {
      OccupiedBound(slots[1..]);
    }
  }

  lemma {:induction false} OccupiedUpdate(slots: seq<Slot>, k: nat, x: Slot)
    requires k < |slots|
    ensures Occupied(slots[k := x]) ==
            Occupied(slots) - (if slots[k].sd >= 0 then 1 else 0) + (if x.sd >= 0 then 1 else 0)
  {
    if k == 0 {
      assert slots[k := x][1..] == slots[1..];
    } else {
      assert slots[k := x][1..] == slots[1..][k - 1 := x];
      OccupiedUpdate(slots[1..], k - 1, x);
    }
  }

  lemma {:induction false} OccupiedPositive(slots: seq<Slot>, k: nat)
    requires k < |slots| && slots[k].sd >= 0
    ensures Occupied(slots) > 0
  {
    if k > 0 {
      OccupiedPositive(slots[1..], k - 1);
    }
  }

  /** The new descriptor must be one that no slot holds. */
  lemma {:induction false} SynKeeps(b: Backlog, len: nat, syn: bool, peer: SockAddr, newSd: int)
    requires Inv(b) && peer.family == AF_INET
    requires forall k :: 0 <= k < |b.slots| && newSd >= 0 ==> b.slots[k].sd != newSd
    ensures Inv(OnSyn(b, len, syn, peer, newSd))
    ensures Admits(b, len, syn, peer) ==> FreeSlot(b.slots) < |b.slots|
  {
    OccupiedBound(b.slots);
    var k := FreeSlot(b.slots);
    if Admits(b, len, syn, peer) && newSd >= 0 {
      AdmissionKeeps(b, k, Slot(peer, SOCKADDR_LEN, newSd));
    } else if k < |b.slots| {
      assert b.slots[k := FREE] == b.slots;
    }
  }

  /** A new connection in a free slot. */
  lemma {:induction false} AdmissionKeeps(b: Backlog, k: nat, x: Slot)
    requires Inv(b) && k < |b.slots| && b.slots[k].sd < 0
    requires x.sd >= 0 && x.peer.family == AF_INET && x.peerLen == SOCKADDR_LEN
    requires forall i :: 0 <= i < |b.slots| ==> b.slots[i].sd != x.sd && b.slots[i].peer != x.peer
    ensures Inv(Backlog(b.slots[k := x], b.curLen + 1, b.completed))
  {
    OccupiedUpdate(b.slots, k, x);
  }

  lemma {:induction false} CompleteKeeps(b: Backlog, sd: int)
    requires Inv(b) && sd >= 0
    requires SlotOf(b.slots, sd) < |b.slots| && SlotOf(b.slots, sd) !in b.completed
    ensures Inv(OnComplete(b, sd))
  {
  }

  lemma {:induction false} AcceptKeeps(b: Backlog)
    requires Inv(b) && b.completed != []
    ensures b.curLen > 0 && Inv(OnAccept(b))
  {
    OccupiedPositive(b.slots, b.completed[0]);
    OccupiedUpdate(b.slots, b.completed[0], FREE);
  }

  // ---------- Why the steps must not overlap ----------

  /** Accept before its decrement: the entry is unlinked and the slot is free, but still counted. */
  function Freed(b: Backlog): Backlog
    requires b.completed != [] && b.completed[0] < |b.slots|
  {
    Backlog(b.slots[b.completed[0] := FREE], b.curLen, b.completed[1..])
  }

  /** Accept loads cur_len, a SYN is admitted in between, and accept stores what it had loaded
      less one. */
  function AcceptAroundSyn(b: Backlog, len: nat, syn: bool, peer: SockAddr, newSd: int): Backlog
    requires b.completed != [] && b.completed[0] < |b.slots| && b.curLen > 0
  {
    OnSyn(Freed(b), len, syn, peer, newSd).(curLen := b.curLen - 1)
  }

  /** A SYN loads cur_len, accept runs in between, and the SYN stores what it had loaded plus
      one. The slot it fills was chosen before; without a descriptor it is freed and the counter
      decremented again. A SYN that is dropped before stores nothing. */
  function SynAroundAccept(b: Backlog, len: nat, syn: bool, peer: SockAddr, newSd: int): Backlog
    requires b.completed != [] && b.completed[0] < |b.slots| && b.curLen > 0
  {
    var after := OnSyn(b, len, syn, peer, newSd);
    if Admits(b, len, syn, peer)
    then Backlog(after.slots[b.completed[0] := FREE], after.curLen, after.completed[1..])
    else OnAccept(b)
  }

  lemma {:induction false} AcceptAroundSynCount(b: Backlog, len: nat, syn: bool, peer: SockAddr, newSd: int)
    requires b.curLen == Occupied(b.slots) > 0 && b.completed != []
    requires b.completed[0] < |b.slots| && b.slots[b.completed[0]].sd >= 0
    ensures var low := AcceptAroundSyn(b, len, syn, peer, newSd);
            low.curLen == Occupied(low.slots) -
                          if Admits(Freed(b), len, syn, peer) && newSd >= 0 then 1 else 0
  {
    var a, freed := b.completed[0], Freed(b).slots;
    OccupiedUpdate(b.slots, a, FREE);
    assert freed[a].sd < 0;
    OccupiedUpdate(freed, FreeSlot(freed), FREE);
    OccupiedUpdate(freed, FreeSlot(freed), Slot(peer, SOCKADDR_LEN, newSd));
  }

  lemma {:induction false} SynAroundAcceptCount(b: Backlog, len: nat, syn: bool, peer: SockAddr, newSd: int)
    requires b.curLen == Occupied(b.slots) > 0 && b.completed != []
    requires b.completed[0] < |b.slots| && b.slots[b.completed[0]].sd >= 0
    ensures var high := SynAroundAccept(b, len, syn, peer, newSd);
            high.curLen == Occupied(high.slots) + if Admits(b, len, syn, peer) then 1 else 0
  {
    var a := b.completed[0];
    OccupiedUpdate(b.slots, a, FREE);
    if Admits(b, len, syn, peer) {
      OccupiedBound(b.slots);
      var k, after := FreeSlot(b.slots), OnSyn(b, len, syn, peer, newSd).slots;
      OccupiedUpdate(b.slots, k, after[k]);
      OccupiedUpdate(after, a, FREE);
    }
  }

  /** Whatever the backlog, an accept around a SYN leaves the counter wrong, by one too low,
      exactly when the SYN is admitted with a descriptor, and a SYN around an accept leaves it
      wrong, by one too high, exactly when the SYN is admitted. */
  lemma {:induction false} OverlapMiscounts(b: Backlog, len: nat, syn: bool, peer: SockAddr, newSd: int)
    requires Inv(b) && b.completed != []
    ensures b.curLen > 0
    ensures var low := AcceptAroundSyn(b, len, syn, peer, newSd);
            && low.curLen <= Occupied(low.slots) <= low.curLen + 1
            && (low.curLen != Occupied(low.slots) <==> Admits(Freed(b), len, syn, peer) && newSd >= 0)
    ensures var high := SynAroundAccept(b, len, syn, peer, newSd);
            && Occupied(high.slots) <= high.curLen <= Occupied(high.slots) + 1
            && (high.curLen != Occupied(high.slots) <==> Admits(b, len, syn, peer))
  {
    OccupiedPositive(b.slots, b.completed[0]);
    AcceptAroundSynCount(b, len, syn, peer, newSd);
    SynAroundAcceptCount(b, len, syn, peer, newSd);
  }

  function Empty(n: nat): Backlog {
    Backlog(seq(n, _ => FREE), 0, [])
  }

  /** The overlap can make the assert at connection_demux.c:113 fail: with room for two, one
      connection is admitted and completes; its accept overlaps the admission of a second, which
      then completes too; the next accept finds a counter of zero. */
  lemma {:induction false} OverlapFiresAssert(len: nat, p: SockAddr, q: SockAddr, i: nat, j: nat)
    requires len >= HEADER_LEN && p.family == q.family == AF_INET && p != q && i != j
    ensures var one := OnComplete(OnSyn(Empty(2), len, true, p, i), i);
            && Inv(one) && one.completed == [0] && one.curLen == 1
            && var two := OnComplete(AcceptAroundSyn(one, len, true, q, j), j);
               two.completed == [0] && two.slots[0].sd == j && two.curLen == 0
  {
    var a, b := Slot(p, SOCKADDR_LEN, i), Slot(q, SOCKADDR_LEN, j);
    assert Empty(2).slots == [FREE, FREE];
    var first := OnSyn(Empty(2), len, true, p, i);
    assert first == Backlog([a, FREE], 1, []);
    assert SlotOf([a, FREE], i) == 0;
    var one := OnComplete(first, i);
    assert one == Backlog([a, FREE], 1, [0]);
    assert [a, FREE][1..] == [FREE] && Occupied([a, FREE]) == 1 + Occupied([FREE]);
    assert Freed(one) == Backlog([FREE, FREE], 1, []);
    assert AcceptAroundSyn(one, len, true, q, j) == Backlog([b, FREE], 0, []);
    assert SlotOf([b, FREE], j) == 0;
  }

  // ---------- The code ----------

  class CompletedNode {
    var request: nat
    var next: CompletedNode?

    constructor (request: nat)
      ensures this.request == request && next == null
    {
      this.request := request;
      next := null;
    }
  }

  class PendingConnections {
    const slots: array<Slot>
    var curLen: nat
    var completedQueue: CompletedNode?
    ghost var nodes: seq<CompletedNode>
    ghost var completed: seq<nat>

    ghost predicate Valid()
      reads this`nodes, this`completed, this`completedQueue, nodes
    {
      && |completed| == |nodes|
      && completedQueue == (if nodes == [] then null else nodes[0])
      && (forall i {:trigger nodes[i].next} :: 0 <= i < |nodes| - 1 ==> nodes[i].next == nodes[i + 1])
      && (nodes != [] ==> nodes[|nodes| - 1].next == null)
      && (forall i :: 0 <= i < |nodes| ==> nodes[i].request == completed[i])
      && (forall i, j :: 0 <= i < j < |nodes| ==> nodes[i] != nodes[j])
    }

    ghost function Abs(): Backlog
      reads this, slots
    {
      Backlog(slots[..], curLen, completed)
    }

    /** The first _mysock_set_backlog of a socket (connection_demux.c:310-357): a backlog of
        zero permits one pending connection. */
    constructor (backlog: nat)
      ensures Valid() && fresh(slots) && slots.Length == backlog + 1
      ensures Inv(Abs()) && Abs().completed == []
      ensures forall k :: 0 <= k <= backlog ==> slots[k] == FREE
    {
      slots := new Slot[backlog + 1](_ => Slot(ZERO_SOCKADDR, 0, 0));
      curLen, completedQueue, nodes, completed := 0, null, [], [];
      new;
      for k := 0 to backlog + 1
        invariant Valid() && curLen == 0 && nodes == [] && completed == []
        invariant forall i :: 0 <= i < k ==> slots[i] == FREE
        invariant forall i :: k <= i <= backlog ==> slots[i] == Slot(ZERO_SOCKADDR, 0, 0)
      {
        slots[k] := slots[k].(sd := -1);
      }
      NoneOccupied(slots[..]);
    }

    /** The search for a retransmission (connection_demux.c:175-187): it compares free slots
        too, which hold the zero address. */
    method FindPeer(peer: SockAddr) returns (found: bool)
      requires Counted(Abs())
      ensures found <==> exists k :: 0 <= k < slots.Length && slots[k].peer == peer
    {
      for k := 0 to slots.Length
        invariant forall i :: 0 <= i < k ==> slots[i].peer != peer
      {
        assert slots[k].sd < 0 || SOCKADDR_LEN == slots[k].peerLen;
        if slots[k].peer == peer {
          return true;
        }
      }
      return false;
    }

    /** connection_demux.c:194-200. */
    method FindFree() returns (k: nat)
      requires Counted(Abs()) && curLen < slots.Length
      ensures k == FreeSlot(slots[..]) < slots.Length && slots[k].sd == -1
    {
      OccupiedBound(slots[..]);
      k := 0;
      while k < slots.Length && slots[k].sd >= 0
        invariant k <= FreeSlot(slots[..])
      {
        k := k + 1;
      }
    }

    /** connection_demux.c:275-281. */
    method FindSlot(sd: int) returns (k: nat)
      ensures k == SlotOf(slots[..], sd)
    {
      k := 0;
      while k < slots.Length && slots[k].sd != sd
        invariant k <= SlotOf(slots[..], sd)
      {
        k := k + 1;
      }
    }

    /** _mysock_enqueue_connection; the descriptor the new mysocket would get is passed in. */
    method EnqueueConnection(len: nat, syn: bool, peer: SockAddr, newSd: int) returns (queued: bool)
      requires Valid() && Counted(Abs()) && peer.family == AF_INET
      modifies this`curLen, slots
      ensures Valid()
      ensures Abs() == OnSyn(old(Abs()), len, syn, peer, newSd)
      ensures queued <==>
                && len >= 20 && syn && newSd >= 0 && old(curLen) < slots.Length
                && forall k :: 0 <= k < slots.Length ==> old(slots[k].peer) != peer
      ensures !queued ==> slots[..] == old(slots[..]) && curLen == old(curLen)
      ensures queued ==>
                && curLen == old(curLen) + 1
                && exists k :: 0 <= k < slots.Length && old(slots[k].sd) < 0 &&
                               slots[..] == old(slots[..])[k := Slot(peer, SOCKADDR_LEN, newSd)]
      ensures completed == old(completed)
    {
      if len < HEADER_LEN || !syn {
        return false;
      }
      var known := FindPeer(peer);
      if known || curLen >= slots.Length {
        return false;
      }
      var k := FindFree();
      curLen := curLen + 1;
      if newSd < 0 {
        slots[k] := FREE;
        curLen := curLen - 1;
        return false;
      }
      slots[k] := Slot(peer, SOCKADDR_LEN, newSd);
      return true;
    }

    /** _mysock_passive_connection_complete; that the connection is in a slot is the assert of
        connection_demux.c:281. */
    method ConnectionComplete(sd: nat)
      requires Valid() && SlotOf(Abs().slots, sd) < |Abs().slots|
      modifies this`completedQueue, this`nodes, this`completed, nodes
      ensures Valid()
      ensures Abs() == OnComplete(old(Abs()), sd)
      ensures exists k :: 0 <= k < slots.Length && slots[k].sd == sd && completed == old(completed) + [k]
    {
      var k := FindSlot(sd);
      AppendCompleted(k);
    }

    /** connection_demux.c:283-298: walk to the tail and link the new entry there. */
    method AppendCompleted(k: nat)
      requires Valid()
      modifies this`completedQueue, this`nodes, this`completed, nodes
      ensures Valid() && completed == old(completed) + [k]
    {
      var entry := new CompletedNode(k);
      var tail := completedQueue;
      ghost var at := 0;
      while tail != null && tail.next != null
        invariant tail == null <==> nodes == []
        invariant tail != null ==> 0 <= at < |nodes| && tail == nodes[at]
        decreases |nodes| - at
      {
        tail := tail.next;
        at := at + 1;
      }
      if tail != null {
        assert at == |nodes| - 1;
        tail.next := entry;
      } else {
        completedQueue := entry;
      }
      nodes := nodes + [entry];
      completed := completed + [k];
    }

    /** _mysock_dequeue_connection, once a connection has completed. */
    method DequeueConnection() returns (sd: int)
      requires Valid() && Counted(Abs()) && CompletedOccupied(Abs()) && completedQueue != null
      modifies this`curLen, this`completedQueue, this`nodes, this`completed, slots
      ensures Valid()
      ensures old(Abs()).completed != [] && sd == old(Abs()).slots[old(Abs()).completed[0]].sd >= 0
      ensures old(Abs()).curLen > 0 && Abs() == OnAccept(old(Abs()))
      ensures completed == old(completed)[1..] && curLen == old(curLen) - 1
      ensures slots[..] == old(slots[..])[old(completed)[0] := Slot(SockAddr(0, 0, 0), 0, -1)]
    {
      OccupiedPositive(slots[..], completed[0]);
      var k := PopCompleted();
      sd := slots[k].sd;
      slots[k] := FREE;
      assert curLen > 0;
      curLen := curLen - 1;
    }

    /** connection_demux.c:95-96. */
    method PopCompleted() returns (k: nat)
      requires Valid() && completedQueue != null
      modifies this`completedQueue, this`nodes, this`completed
      ensures Valid()
      ensures old(completed) == [k] + completed
    {
      k := completedQueue.request;
      completedQueue := completedQueue.next;
      nodes := nodes[1..];
      completed := completed[1..];
    }
  }

  lemma {:induction false} NoneOccupied(slots: seq<Slot>)
    requires forall k :: 0 <= k < |slots| ==> slots[k] == FREE
    ensures Occupied(slots) == 0
  {
    if slots != [] {
      NoneOccupied(slots[1..]);
    }
  }
}
