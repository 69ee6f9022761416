/** Every interleaving of SYN arrival, completion, accept and unrelated creation and closing of
    sockets around one listening socket, with any fixed backlog. Connections are numbered in
    the order of their admission. A failing assert of the code sets a flag. */
module Demux {
  import opened Common
  import opened ListenQueue
  import opened Descriptors

  /** stcp_unblock_application first clears blocking (stcp_api.c:35-40) and then adds the
      connection to the completed list (connection_demux.c:260-304). */
  datatype Phase = Blocking | Unblocked | Listed

  /** A live context; conn is its number if it came in through this listening socket. */
  datatype Ctx = Ctx(conn: Option<nat>, phase: Phase)

  datatype State = State(
    b: Backlog,
    table: seq<Option<Ctx>>,
    admitted: nat,
    completions: seq<nat>,
    accepts: seq<nat>,
    failed: bool)

  datatype Op =
    | Syn(len: nat, syn: bool, peer: SockAddr)
    | Unblock(sd: nat)
    | Complete(sd: nat)
    | Accept
    | Create
    | Close(sd: nat)

  function Init(backlog: nat, descriptors: nat): State {
    State(Backlog(seq(backlog + 1, _ => FREE), 0, []), seq(descriptors, _ => None), 0, [], [], false)
  }

  predicate IsConnection(s: State, sd: int) {
    0 <= sd < |s.table| && s.table[sd].Some? && s.table[sd].value.conn.Some?
  }

  /** The number of the connection in a slot. */
  function Conn(s: State, k: nat): nat {
    if k < |s.b.slots| && IsConnection(s, s.b.slots[k].sd)
    then s.table[s.b.slots[k].sd].value.conn.value else 0
  }

  /** The numbers of the completed connections that wait to be accepted, in order. */
  function Waiting(s: State): seq<nat> {
    seq(|s.b.completed|, i requires 0 <= i < |s.b.completed| => Conn(s, s.b.completed[i]))
  }

  predicate Queued(s: State, sd: int) {
    SlotOf(s.b.slots, sd) < |s.b.slots|
  }

  /** Peers are AF_INET; a context unblocks only while it blocks (stcp_api.c:36) and completes
      after that; accept waits for a completion; and no descriptor is closed while it is queued. */
  predicate Enabled(s: State, op: Op) {
    match op
    case Syn(_, _, peer) => peer.family == AF_INET
    case Unblock(sd) => IsConnection(s, sd) && s.table[sd].value.phase == Blocking
    case Complete(sd) => IsConnection(s, sd) && s.table[sd].value.phase == Unblocked
    case Accept => s.b.completed != []
    case Create => true
    case Close(sd) => sd < |s.table| && s.table[sd].Some? && !Queued(s, sd)
  }

  /** The asserts of connection_demux.c at lines 179, 200 and 209; at 281; and at 104, 106, 113. */
  predicate AssertsHold(s: State, op: Op) {
    match op
    case Syn(len, syn, peer) =>
      && (forall k :: 0 <= k < |s.b.slots| ==>
            s.b.slots[k].sd == -1 || s.b.slots[k].peerLen == SOCKADDR_LEN)
      && (Admits(s.b, len, syn, peer) ==>
            FreeSlot(s.b.slots) < |s.b.slots| && s.b.slots[FreeSlot(s.b.slots)].sd == -1)
    case Complete(sd) => Queued(s, sd)
    case Accept =>
      s.b.completed != [] && s.b.completed[0] < |s.b.slots| && s.b.curLen > 0 &&
      var sd := s.b.slots[s.b.completed[0]].sd;
      0 <= sd < |s.table| && s.table[sd].Some?
    case _ => true
  }

  function Move(s: State, op: Op): State
    requires Enabled(s, op) && AssertsHold(s, op)
  {
    var newSd := FreeDescriptor(s.table);
    match op
    case Syn(len, syn, peer) =>
      var s' := s.(b := OnSyn(s.b, len, syn, peer, newSd));
      if Admits(s.b, len, syn, peer) && newSd >= 0 then
        s'.(table := s.table[newSd := Some(Ctx(Some(s.admitted), Blocking))], admitted := s.admitted + 1)
      else s'
    case Unblock(sd) =>
      s.(table := s.table[sd := Some(s.table[sd].value.(phase := Unblocked))])
    case Complete(sd) =>
      var ctx := s.table[sd].value;
      s.(b := OnComplete(s.b, sd), table := s.table[sd := Some(ctx.(phase := Listed))],
         completions := s.completions + [ctx.conn.value])
    case Accept =>
      s.(b := OnAccept(s.b), accepts := s.accepts + [Conn(s, s.b.completed[0])])
    case Create =>
      if newSd < 0 then s else s.(table := s.table[newSd := Some(Ctx(None, Blocking))])
    case Close(sd) =>
      s.(table := s.table[sd := None])
  }

  function Step(s: State, op: Op): State {
    if s.failed || !Enabled(s, op) then s
    else if AssertsHold(s, op) then Move(s, op)
    else s.(failed := true)
  }

  function Run(backlog: nat, descriptors: nat, ops: seq<Op>): State {
    if ops == [] then Init(backlog, descriptors)
    else Step(Run(backlog, descriptors, ops[..|ops| - 1]), ops[|ops| - 1])
  }

  // ---------- What every step keeps ----------

  /** An occupied slot holds a live connection, listed exactly when it is in the completed list. */
  ghost predicate SlotsLive(s: State) {
    forall k :: 0 <= k < |s.b.slots| && s.b.slots[k].sd >= 0 ==>
      && IsConnection(s, s.b.slots[k].sd)
      && (s.table[s.b.slots[k].sd].value.phase == Listed <==> k in s.b.completed)
  }

  /** A connection not yet listed is queued and has not completed. */
  ghost predicate UnlistedQueued(s: State) {
    forall sd :: IsConnection(s, sd) && s.table[sd].value.phase != Listed ==>
      Queued(s, sd) && s.table[sd].value.conn.value !in s.completions
  }

  ghost predicate Numbered(s: State) {
    && (forall sd :: IsConnection(s, sd) ==> s.table[sd].value.conn.value < s.admitted)
    && (forall i, j :: IsConnection(s, i) && IsConnection(s, j) && i != j ==>
          s.table[i].value.conn != s.table[j].value.conn)
  }

  /** Accepts follow completions in order, and each connection completes at most once. */
  ghost predicate Ordered(s: State) {
    && s.accepts + Waiting(s) == s.completions
    && Unique(s.completions)
    && (forall c :: c in s.completions ==> c < s.admitted)
  }

  predicate Incomplete(s: State, c: nat) {
    exists k :: 0 <= k < |s.b.slots| && s.b.slots[k].sd >= 0 && k !in s.b.completed && Conn(s, k) == c
  }

  /** No admitted connection is lost. */
  ghost predicate Conserved(s: State) {
    forall c: nat :: c < s.admitted ==> c in s.completions || Incomplete(s, c)
  }

  ghost predicate SystemInv(s: State) {
    && !s.failed && Inv(s.b)
    && SlotsLive(s) && UnlistedQueued(s) && Numbered(s) && Ordered(s) && Conserved(s)
  }

  lemma {:induction false} AssertsFollow(s: State, op: Op)
    requires SystemInv(s) && Enabled(s, op)
    ensures AssertsHold(s, op)
  {
    OccupiedBound(s.b.slots);
    if op.Accept? {
      OccupiedPositive(s.b.slots, s.b.completed[0]);
    }
  }

  /** Slots, their numbers and the completed list stay; only contexts outside the slots change. */
  lemma {:induction false} TableOnly(s: State, s': State)
    requires SystemInv(s) && s' == s.(table := s'.table) && |s'.table| == |s.table|
    requires forall k :: 0 <= k < |s.b.slots| && s.b.slots[k].sd >= 0 ==>
               s'.table[s.b.slots[k].sd] == s.table[s.b.slots[k].sd]
    requires forall sd :: IsConnection(s', sd) ==> IsConnection(s, sd) && s'.table[sd] == s.table[sd]
    ensures SystemInv(s')
  {
  }

  /** Only phases change, and none to or from Listed. */
  ghost predicate SameConnections(s: State, s': State) {
    && s' == s.(table := s'.table)
    && (forall i :: IsConnection(s', i) <==> IsConnection(s, i))
    && (forall i :: IsConnection(s, i) ==> s'.table[i].value.conn == s.table[i].value.conn)
    && (forall i :: IsConnection(s, i) ==>
          (s'.table[i].value.phase == Listed <==> s.table[i].value.phase == Listed))
  }

  lemma {:induction false} SamePlaces(s: State, s': State)
    requires SameConnections(s, s') && SlotsLive(s) && UnlistedQueued(s) && Numbered(s)
    ensures SlotsLive(s') && UnlistedQueued(s') && Numbered(s')
  {
  }

  lemma {:induction false} SameHistory(s: State, s': State)
    requires SameConnections(s, s') && Ordered(s) && Conserved(s)
    ensures Ordered(s') && Conserved(s')
  {
    assert forall k: nat :: Conn(s', k) == Conn(s, k);
    assert Waiting(s') == Waiting(s);
    forall c: nat | c < s.admitted && c !in s.completions
      ensures Incomplete(s', c)
    {
      var k :| 0 <= k < |s.b.slots| && s.b.slots[k].sd >= 0 && k !in s.b.completed && Conn(s, k) == c;
      assert Conn(s', k) == c;
    }
  }

  lemma {:induction false} UnblockKeeps(s: State, sd: nat)
    requires SystemInv(s) && Enabled(s, Unblock(sd))
    ensures SystemInv(Move(s, Unblock(sd)))
  {
    assert SameConnections(s, Move(s, Unblock(sd)));
    SamePlaces(s, Move(s, Unblock(sd)));
    SameHistory(s, Move(s, Unblock(sd)));
  }

  lemma {:induction false} QueuedIff(slots: seq<Slot>, sd: int)
    ensures SlotOf(slots, sd) < |slots| <==> exists k :: 0 <= k < |slots| && slots[k].sd == sd
  {
  }

  lemma {:induction false} CreateKeeps(s: State)
    requires SystemInv(s)
    ensures SystemInv(Move(s, Create))
  {
    TableOnly(s, Move(s, Create));
  }

  lemma {:induction false} CloseKeeps(s: State, sd: nat)
    requires SystemInv(s) && Enabled(s, Close(sd))
    ensures SystemInv(Move(s, Close(sd)))
  {
    QueuedIff(s.b.slots, sd);
    TableOnly(s, Move(s, Close(sd)));
  }

  /** s' is s with a new connection in free slot f under free descriptor n. */
  ghost predicate Admitted(s: State, s': State, f: nat, n: nat) {
    && f < |s.b.slots| == |s'.b.slots| && s.b.slots[f].sd < 0 && s'.b.slots[f].sd == n
    && (forall k :: 0 <= k < |s.b.slots| && k != f ==> s'.b.slots[k] == s.b.slots[k])
    && n < |s.table| && s.table[n].None? && s'.table == s.table[n := Some(Ctx(Some(s.admitted), Blocking))]
    && s'.admitted == s.admitted + 1 && s'.b.completed == s.b.completed
    && s'.completions == s.completions && s'.accepts == s.accepts
  }

  lemma {:induction false} AdmitSlots(s: State, s': State, f: nat, n: nat)
    requires Admitted(s, s', f, n) && SlotsLive(s) && CompletedOccupied(s.b)
    ensures SlotsLive(s')
    ensures Conn(s', f) == s.admitted
    ensures forall k :: 0 <= k < |s.b.slots| && s.b.slots[k].sd >= 0 ==> Conn(s', k) == Conn(s, k)
  {
  }

  lemma {:induction false} AdmitNumbered(s: State, s': State, f: nat, n: nat)
    requires Admitted(s, s', f, n) && Numbered(s)
    ensures Numbered(s')
  {
  }

  lemma {:induction false} AdmitUnlisted(s: State, s': State, f: nat, n: nat)
    requires Admitted(s, s', f, n) && UnlistedQueued(s)
    requires forall c :: c in s.completions ==> c < s.admitted
    ensures UnlistedQueued(s')
  {
  }

  lemma {:induction false} AdmitHistory(s: State, s': State, f: nat, n: nat)
    requires Admitted(s, s', f, n) && SlotsLive(s) && CompletedOccupied(s.b)
    requires Ordered(s) && Conserved(s)
    ensures Ordered(s') && Conserved(s')
  {
  }

  lemma {:induction false} AdmitKeeps(s: State, op: Op)
    requires SystemInv(s) && op.Syn? && Enabled(s, op) && AssertsHold(s, op)
    requires Admits(s.b, op.len, op.syn, op.peer) && FreeDescriptor(s.table) >= 0
    ensures SystemInv(Move(s, op))
  {
    var s', n, f := Move(s, op), FreeDescriptor(s.table), FreeSlot(s.b.slots);
    SynKeeps(s.b, op.len, op.syn, op.peer, n);
    assert Admitted(s, s', f, n);
    AdmitSlots(s, s', f, n);
    AdmitNumbered(s, s', f, n);
    AdmitUnlisted(s, s', f, n);
    AdmitHistory(s, s', f, n);
  }

  /** Without a free slot or a free descriptor a SYN changes nothing. */
  lemma {:induction false} DropKeeps(s: State, op: Op)
    requires SystemInv(s) && op.Syn? && Enabled(s, op) && AssertsHold(s, op)
    requires !Admits(s.b, op.len, op.syn, op.peer) || FreeDescriptor(s.table) < 0
    ensures Move(s, op) == s
  {
  }

  /** s' is s with the connection in slot k completed. */
  ghost predicate Completed(s: State, s': State, k: nat, sd: nat) {
    && k < |s.b.slots| && s.b.slots[k].sd == sd && k !in s.b.completed
    && s'.b.slots == s.b.slots && s'.b.completed == s.b.completed + [k]
    && IsConnection(s, sd) && s'.table == s.table[sd := Some(s.table[sd].value.(phase := Listed))]
    && s'.completions == s.completions + [s.table[sd].value.conn.value]
    && s'.admitted == s.admitted && s'.accepts == s.accepts
  }

  lemma {:induction false} CompletionSlots(s: State, s': State, k: nat, sd: nat)
    requires Completed(s, s', k, sd) && SlotsLive(s) && Distinct(s.b)
    ensures SlotsLive(s')
    ensures forall i: nat :: Conn(s', i) == Conn(s, i)
  {
  }

  lemma {:induction false} CompletionNumbered(s: State, s': State, k: nat, sd: nat)
    requires Completed(s, s', k, sd) && Numbered(s) && UnlistedQueued(s)
    ensures Numbered(s') && UnlistedQueued(s')
  {
  }

  lemma {:induction false} CompletionHistory(s: State, s': State, k: nat, sd: nat)
    requires Completed(s, s', k, sd) && SlotsLive(s) && Distinct(s.b) && Numbered(s)
    requires Ordered(s) && Conserved(s) && s.table[sd].value.conn.value !in s.completions
    ensures Ordered(s') && Conserved(s')
  {
    CompletionSlots(s, s', k, sd);
    assert Waiting(s') == Waiting(s) + [Conn(s, k)];
    forall c: nat | c < s'.admitted && c !in s'.completions
      ensures Incomplete(s', c)
    {
      var i :| 0 <= i < |s.b.slots| && s.b.slots[i].sd >= 0 && i !in s.b.completed && Conn(s, i) == c;
      assert Conn(s', i) == c && i != k;
    }
  }

  lemma {:induction false} CompletionKeeps(s: State, sd: nat)
    requires SystemInv(s) && Enabled(s, Complete(sd)) && AssertsHold(s, Complete(sd))
    ensures SystemInv(Move(s, Complete(sd)))
  {
    var s', k := Move(s, Complete(sd)), SlotOf(s.b.slots, sd);
    assert Completed(s, s', k, sd);
    CompleteKeeps(s.b, sd);
    CompletionSlots(s, s', k, sd);
    CompletionNumbered(s, s', k, sd);
    CompletionHistory(s, s', k, sd);
  }

  /** s' is s with the first completed connection, in slot a, accepted. */
  ghost predicate Accepted(s: State, s': State, a: nat) {
    && s.b.completed != [] && a == s.b.completed[0] < |s.b.slots|
    && s'.b.slots == s.b.slots[a := FREE] && s'.b.completed == s.b.completed[1..]
    && s'.accepts == s.accepts + [Conn(s, a)]
    && s'.table == s.table && s'.completions == s.completions && s'.admitted == s.admitted
  }

  lemma {:induction false} AcceptSlots(s: State, s': State, a: nat)
    requires Accepted(s, s', a) && SlotsLive(s) && UnlistedQueued(s) && CompletedOccupied(s.b)
    ensures SlotsLive(s') && UnlistedQueued(s')
  {
    forall k | 0 <= k < |s.b.slots| && k != a
      ensures k in s'.b.completed <==> k in s.b.completed
    {
      assert s.b.completed == [a] + s'.b.completed;
    }
    forall sd | IsConnection(s', sd) && s'.table[sd].value.phase != Listed
      ensures Queued(s', sd)
    {
      QueuedIff(s'.b.slots, sd);
      assert IsConnection(s, sd);
      var k := SlotOf(s.b.slots, sd);
      assert k != a && s'.b.slots[k].sd == sd;
    }
  }

  lemma {:induction false} AcceptHistory(s: State, s': State, a: nat)
    requires Accepted(s, s', a) && CompletedOnce(s.b) && Ordered(s) && Conserved(s)
    ensures Ordered(s') && Conserved(s')
  {
    assert forall k: nat :: k != a ==> Conn(s', k) == Conn(s, k);
    assert Waiting(s) == [Conn(s, a)] + Waiting(s');
    assert s'.accepts + Waiting(s') == s.accepts + Waiting(s);
    forall c: nat | c < s'.admitted && c !in s'.completions
      ensures Incomplete(s', c)
    {
      var k :| 0 <= k < |s.b.slots| && s.b.slots[k].sd >= 0 && k !in s.b.completed && Conn(s, k) == c;
      assert k != a && Conn(s', k) == c;
    }
  }

  lemma {:induction false} AcceptanceKeeps(s: State)
    requires SystemInv(s) && Enabled(s, Accept) && AssertsHold(s, Accept)
    ensures SystemInv(Move(s, Accept))
  {
    var s', a := Move(s, Accept), s.b.completed[0];
    ListenQueue.AcceptKeeps(s.b);
    assert Accepted(s, s', a);
    AcceptSlots(s, s', a);
    AcceptHistory(s, s', a);
  }

  lemma {:induction false} StepKeeps(s: State, op: Op)
    requires SystemInv(s)
    ensures SystemInv(Step(s, op))
  {
    if Enabled(s, op) {
      AssertsFollow(s, op);
      match op
      case Syn(len, syn, peer) =>
        if Admits(s.b, len, syn, peer) && FreeDescriptor(s.table) >= 0 {
          AdmitKeeps(s, op);
        } else {
          DropKeeps(s, op);
        }
      case Unblock(sd) => UnblockKeeps(s, sd);
      case Complete(sd) => CompletionKeeps(s, sd);
      case Accept => AcceptanceKeeps(s);
      case Create => CreateKeeps(s);
      case Close(sd) => CloseKeeps(s, sd);
    }
  }

  lemma {:induction false} InvHolds(backlog: nat, descriptors: nat, ops: seq<Op>)
    ensures SystemInv(Run(backlog, descriptors, ops))
  {
    if ops == [] {
      var s := Init(backlog, descriptors);
      NoneOccupied(s.b.slots);
      assert Waiting(s) == [];
    } else {
      InvHolds(backlog, descriptors, ops[..|ops| - 1]);
      StepKeeps(Run(backlog, descriptors, ops[..|ops| - 1]), ops[|ops| - 1]);
    }
  }

  // ---------- The main results ----------

  lemma {:induction false} SlotCount(backlog: nat, descriptors: nat, ops: seq<Op>)
    ensures |Run(backlog, descriptors, ops).b.slots| == backlog + 1
  {
    if ops != [] {
      SlotCount(backlog, descriptors, ops[..|ops| - 1]);
    }
  }

  /** In every reachable state no assert has failed; cur_len counts the occupied slots and is at
      most the backlog; occupied slots have distinct descriptors and distinct peers, free ones
      the zero address; and the completed entries name distinct occupied slots. */
  lemma {:induction false} BacklogIsConsistent(backlog: nat, descriptors: nat, ops: seq<Op>)
    ensures var s := Run(backlog, descriptors, ops);
            && !s.failed
            && s.b.curLen == Occupied(s.b.slots) <= |s.b.slots| == backlog + 1
            && Distinct(s.b) && CompletedOccupied(s.b) && CompletedOnce(s.b)
            && forall k :: 0 <= k <= backlog && s.b.slots[k].sd < 0 ==> s.b.slots[k].peer == ZERO_SOCKADDR
  {
    InvHolds(backlog, descriptors, ops);
    SlotCount(backlog, descriptors, ops);
    OccupiedBound(Run(backlog, descriptors, ops).b.slots);
  }

  /** The search for a retransmission compares free slots too, but an AF_INET peer is found only
      in an occupied one; the zero address would be found whenever a slot is free. */
  lemma {:induction false} RetransmissionTest(backlog: nat, descriptors: nat, ops: seq<Op>, peer: SockAddr)
    ensures var s := Run(backlog, descriptors, ops);
            && (peer.family == AF_INET ==>
                  (Known(s.b.slots, peer) <==>
                   exists k :: 0 <= k < |s.b.slots| && s.b.slots[k].sd >= 0 && s.b.slots[k].peer == peer))
            && (Known(s.b.slots, ZERO_SOCKADDR) <==> s.b.curLen < |s.b.slots|)
  {
    InvHolds(backlog, descriptors, ops);
    var slots := Run(backlog, descriptors, ops).b.slots;
    OccupiedBound(slots);
    if FreeSlot(slots) < |slots| {
      assert slots[FreeSlot(slots)].peer == ZERO_SOCKADDR;
    }
  }

  // ---------- What a run did ----------

  /** A new SYN, complete, from an AF_INET peer that no slot holds, with a free slot and a free
      descriptor. */
  predicate Admissible(s: State, op: Op) {
    && op.Syn? && op.len >= 20 && op.syn && op.peer.family == AF_INET
    && (forall k :: 0 <= k < |s.b.slots| ==> s.b.slots[k].peer != op.peer)
    && (exists k :: 0 <= k < |s.b.slots| && s.b.slots[k].sd < 0)
    && (exists d :: 0 <= d < |s.table| && s.table[d].None?)
  }

  /** The connection that the operation completes, and the one it accepts. */
  function CompletedBy(s: State, op: Op): seq<nat> {
    if op.Complete? && IsConnection(s, op.sd) && s.table[op.sd].value.phase == Unblocked
    then [s.table[op.sd].value.conn.value] else []
  }

  function AcceptedBy(s: State, op: Op): seq<nat> {
    if op.Accept? && Waiting(s) != [] then [Waiting(s)[0]] else []
  }

  lemma {:induction false} AdmitsIff(s: State, op: Op)
    requires SystemInv(s) && op.Syn? && op.peer.family == AF_INET
    ensures Admissible(s, op) <==> Admits(s.b, op.len, op.syn, op.peer) && FreeDescriptor(s.table) >= 0
  {
    OccupiedBound(s.b.slots);
    var d := FreeDescriptor(s.table);
    if d >= 0 {
      assert s.table[d].None?;
    }
    if FreeSlot(s.b.slots) < |s.b.slots| {
      assert s.b.slots[FreeSlot(s.b.slots)].sd < 0;
    }
  }

  /** s' is s after the SYN: an admissible one gets the next number and a slot with its peer;
      anything else changes nothing. */
  ghost predicate SynDone(s: State, op: Op, s': State)
    requires op.Syn?
  {
    if Admissible(s, op) then
      && s'.admitted == s.admitted + 1 && Incomplete(s', s.admitted)
      && s'.completions == s.completions && s'.accepts == s.accepts
      && exists k :: 0 <= k < |s'.b.slots| && s'.b.slots[k].peer == op.peer && Conn(s', k) == s.admitted
    else s' == s
  }

  lemma {:induction false} AdmittedDone(s: State, op: Op, s': State, f: nat, n: nat)
    requires op.Syn? && Admitted(s, s', f, n) && SlotsLive(s) && CompletedOccupied(s.b)
    requires Admissible(s, op) && s'.b.slots[f].peer == op.peer
    ensures SynDone(s, op, s')
  {
    AdmitSlots(s, s', f, n);
    assert s'.b.slots[f].sd >= 0 && f !in s'.b.completed && Conn(s', f) == s.admitted;
  }

  lemma {:induction false} SynStep(s: State, op: Op)
    requires SystemInv(s) && op.Syn?
    ensures SynDone(s, op, Step(s, op))
  {
    if op.peer.family == AF_INET {
      AssertsFollow(s, op);
      AdmitsIff(s, op);
      if Admissible(s, op) {
        AdmittedDone(s, op, Move(s, op), FreeSlot(s.b.slots), FreeDescriptor(s.table));
      } else {
        DropKeeps(s, op);
      }
    }
  }

  lemma {:induction false} SynLaw(backlog: nat, descriptors: nat, ops: seq<Op>, op: Op)
    requires op.Syn?
    ensures SynDone(Run(backlog, descriptors, ops), op, Run(backlog, descriptors, ops + [op]))
  {
    InvHolds(backlog, descriptors, ops);
    RunThen(backlog, descriptors, ops, op);
    SynStep(Run(backlog, descriptors, ops), op);
  }

  lemma {:induction false} RunThen(backlog: nat, descriptors: nat, ops: seq<Op>, op: Op)
    ensures Run(backlog, descriptors, ops + [op]) == Step(Run(backlog, descriptors, ops), op)
  {
    assert (ops + [op])[..|ops|] == ops;
  }

  function Admissions(backlog: nat, descriptors: nat, ops: seq<Op>): nat {
    if ops == [] then 0
    else
      var pre := ops[..|ops| - 1];
      Admissions(backlog, descriptors, pre) +
      if Admissible(Run(backlog, descriptors, pre), ops[|ops| - 1]) then 1 else 0
  }

  function Completions(backlog: nat, descriptors: nat, ops: seq<Op>): seq<nat> {
    if ops == [] then []
    else
      var pre := ops[..|ops| - 1];
      Completions(backlog, descriptors, pre) + CompletedBy(Run(backlog, descriptors, pre), ops[|ops| - 1])
  }

  function Accepts(backlog: nat, descriptors: nat, ops: seq<Op>): seq<nat> {
    if ops == [] then []
    else
      var pre := ops[..|ops| - 1];
      Accepts(backlog, descriptors, pre) + AcceptedBy(Run(backlog, descriptors, pre), ops[|ops| - 1])
  }

  lemma {:induction false} StepAccounts(s: State, op: Op)
    requires SystemInv(s)
    ensures var s' := Step(s, op);
            && s'.admitted == s.admitted + (if Admissible(s, op) then 1 else 0)
            && s'.completions == s.completions + CompletedBy(s, op)
            && s'.accepts == s.accepts + AcceptedBy(s, op)
  {
    if Enabled(s, op) {
      AssertsFollow(s, op);
      if op.Syn? {
        AdmitsIff(s, op);
      }
    }
  }

  /** A connection that blocks goes through: unblocked and then completed, it waits last. */
  lemma {:induction false} ConnectionCompletes(backlog: nat, descriptors: nat, ops: seq<Op>, sd: nat)
    requires var s := Run(backlog, descriptors, ops); IsConnection(s, sd) && s.table[sd].value.phase == Blocking
    ensures var s, s' := Run(backlog, descriptors, ops), Run(backlog, descriptors, ops + [Unblock(sd)] + [Complete(sd)]);
            s'.completions == s.completions + [s.table[sd].value.conn.value] && s'.accepts == s.accepts
  {
    var s := Run(backlog, descriptors, ops);
    InvHolds(backlog, descriptors, ops);
    InvHolds(backlog, descriptors, ops + [Unblock(sd)]);
    RunThen(backlog, descriptors, ops, Unblock(sd));
    RunThen(backlog, descriptors, ops + [Unblock(sd)], Complete(sd));
    var mid := Step(s, Unblock(sd));
    assert mid.table[sd].value == s.table[sd].value.(phase := Unblocked);
    AssertsFollow(mid, Complete(sd));
  }

  /** A mysocket call takes the lowest free descriptor. */
  lemma {:induction false} CreateTakesLowest(backlog: nat, descriptors: nat, ops: seq<Op>, d: nat)
    requires var s := Run(backlog, descriptors, ops);
             d < |s.table| && s.table[d].None? && forall i :: 0 <= i < d ==> s.table[i].Some?
    ensures var s := Run(backlog, descriptors, ops);
            Run(backlog, descriptors, ops + [Create]) == s.(table := s.table[d := Some(Ctx(None, Blocking))])
  {
    NeverFails(backlog, descriptors, ops);
    RunThen(backlog, descriptors, ops, Create);
  }

  /** Closing a descriptor that no slot holds frees it. */
  lemma {:induction false} CloseFrees(backlog: nat, descriptors: nat, ops: seq<Op>, d: nat)
    requires var s := Run(backlog, descriptors, ops);
             d < |s.table| && s.table[d].Some? && forall k :: 0 <= k < |s.b.slots| ==> s.b.slots[k].sd != d
    ensures var s := Run(backlog, descriptors, ops);
            Run(backlog, descriptors, ops + [Close(d)]) == s.(table := s.table[d := None])
  {
    NeverFails(backlog, descriptors, ops);
    RunThen(backlog, descriptors, ops, Close(d));
    QueuedIff(Run(backlog, descriptors, ops).b.slots, d);
  }

  lemma {:induction false} NeverFails(backlog: nat, descriptors: nat, ops: seq<Op>)
    ensures !Run(backlog, descriptors, ops).failed
  {
    InvHolds(backlog, descriptors, ops);
  }

  /** The histories are what the operations did. */
  lemma {:induction false} HistoryIsRun(backlog: nat, descriptors: nat, ops: seq<Op>)
    ensures var s := Run(backlog, descriptors, ops);
            && s.admitted == Admissions(backlog, descriptors, ops)
            && s.completions == Completions(backlog, descriptors, ops)
            && s.accepts == Accepts(backlog, descriptors, ops)
  {
    if ops != [] {
      var pre := ops[..|ops| - 1];
      HistoryIsRun(backlog, descriptors, pre);
      InvHolds(backlog, descriptors, pre);
      StepAccounts(Run(backlog, descriptors, pre), ops[|ops| - 1]);
    }
  }

  /** Every connection admitted by a SYN of the run is in exactly one of incomplete, completed and
      waiting, or accepted; accepts occur in completion order; and none is accepted twice. */
  lemma {:induction false} ConservationAndFifo(backlog: nat, descriptors: nat, ops: seq<Op>, c: nat)
    ensures var s := Run(backlog, descriptors, ops);
            var accepts, completions := Accepts(backlog, descriptors, ops), Completions(backlog, descriptors, ops);
            && accepts + Waiting(s) == completions && Unique(completions)
            && (c < Admissions(backlog, descriptors, ops) <==>
                Incomplete(s, c) || c in Waiting(s) || c in accepts)
            && !(Incomplete(s, c) && c in Waiting(s))
            && !(Incomplete(s, c) && c in accepts)
            && !(c in Waiting(s) && c in accepts)
  {
    HistoryIsRun(backlog, descriptors, ops);
    InvHolds(backlog, descriptors, ops);
    var s := Run(backlog, descriptors, ops);
    assert c in s.completions <==> c in Waiting(s) || c in s.accepts;
    if Incomplete(s, c) {
      var k :| 0 <= k < |s.b.slots| && s.b.slots[k].sd >= 0 && k !in s.b.completed && Conn(s, k) == c;
      assert IsConnection(s, s.b.slots[k].sd);
    }
    DisjointHalves(s.accepts, Waiting(s), c);
  }

  lemma {:induction false} DisjointHalves(a: seq<nat>, b: seq<nat>, c: nat)
    requires Unique(a + b)
    ensures !(c in a && c in b)
  {
    forall i, j | 0 <= i < |a| && 0 <= j < |b|
      ensures a[i] != b[j]
    {
      assert (a + b)[i] == a[i] && (a + b)[|a| + j] == b[j];
    }
  }
}
