/** Whole runs of the threads around one socket: what went into the queues and came out of them,
    and when the close event is reported. What the application and the transport did is read off
    the run, action by action. */
module CloseOrder {
  import opened Common
  import opened PacketQueue
  import opened Wakeup

  // ---------- What a run did ----------

  /** The job whose critical section the action goes through. */
  function Doing(s: State, a: Action): Option<Job> {
    if a.Act? && a.t < |s.pcs| && s.pcs[a.t].Locked? then Some(s.pcs[a.t].job) else None
  }

  /** What the action puts on the queue: mywrite on app_recv_queue, the receive thread on
      network_recv_queue, stcp_app_send on app_send_queue. */
  function PutOn(s: State, a: Action, q: QueueId): seq<Bytes> {
    match Doing(s, a)
    case Some(Enqueue(queue, data)) => if queue == q then [data] else []
    case _ => []
  }

  /** What the action takes from the queue: the whole head, if it is short enough or a datagram,
      under the lock; or as much as was asked for, after the unlock. */
  function TakenOff(s: State, a: Action, q: QueueId): seq<Bytes> {
    if a.Copy? && a.t < |s.pcs| && s.pcs[a.t].Copying? then
      var pc := s.pcs[a.t];
      if pc.queue == q then [pc.head[..Min(pc.max, |pc.head|)]] else []
    else
      match Doing(s, a)
      case Some(Dequeue(queue, max)) =>
        var c := Contents(s, q);
        if queue == q && c != [] && (q == NetRecv || |c[0]| <= max) then [c[0]] else []
      case _ => []
  }

  predicate Closes(s: State, a: Action) {
    Doing(s, a) == Some(Close)
  }

  /** The events that a wait which goes through its critical section now must report. */
  function Due(s: State, flags: Events): Events {
    Events(flags.appData && s.appRecv != [], flags.networkData && s.netRecv != [],
           s.closeRequested && s.appRecv == [])
  }

  /** The result with which the action ends a wait, if it does. */
  function Ends(s: State, a: Action, written: Bytes, taken: Bytes): seq<Outcome> {
    if a.Act? && a.t < |s.pcs| && s.pcs[a.t].Expired? then
      [Outcome(Events(false, false, false), true, written, taken)]
    else
      match Doing(s, a)
      case Some(WaitEvent(flags, _)) =>
        if Due(s, flags) != Events(false, false, false) then [Outcome(Due(s, flags), false, written, taken)]
        else []
      case _ => []
  }

  function AllPutOn(threads: nat, actions: seq<Action>, q: QueueId): seq<Bytes> {
    if actions == [] then []
    else
      var pre := actions[..|actions| - 1];
      AllPutOn(threads, pre, q) + PutOn(Run(threads, pre), actions[|actions| - 1], q)
  }

  function AllTakenOff(threads: nat, actions: seq<Action>, q: QueueId): seq<Bytes> {
    if actions == [] then []
    else
      var pre := actions[..|actions| - 1];
      AllTakenOff(threads, pre, q) + TakenOff(Run(threads, pre), actions[|actions| - 1], q)
  }

  /** The bytes of all mywrites, and the bytes that stcp_app_recv has taken. */
  function Written(threads: nat, actions: seq<Action>): Bytes {
    Flatten(AllPutOn(threads, actions, AppRecv))
  }

  function Taken(threads: nat, actions: seq<Action>): Bytes {
    Flatten(AllTakenOff(threads, actions, AppRecv))
  }

  function CloseCalls(threads: nat, actions: seq<Action>): nat {
    if actions == [] then 0
    else
      var pre := actions[..|actions| - 1];
      CloseCalls(threads, pre) + if Closes(Run(threads, pre), actions[|actions| - 1]) then 1 else 0
  }

  /** Some mywrite came after a myclose. */
  predicate LateWrite(threads: nat, actions: seq<Action>) {
    actions != [] &&
    var pre := actions[..|actions| - 1];
    || LateWrite(threads, pre)
    || (PutOn(Run(threads, pre), actions[|actions| - 1], AppRecv) != [] && CloseCalls(threads, pre) > 0)
  }

  /** The results of all waits for events, in order. */
  function Outcomes(threads: nat, actions: seq<Action>): seq<Outcome> {
    if actions == [] then []
    else
      var pre := actions[..|actions| - 1];
      Outcomes(threads, pre) +
      Ends(Run(threads, pre), actions[|actions| - 1], Written(threads, pre), Taken(threads, pre))
  }

  // ---------- The machine records it ----------

  /** The record after one more action. */
  ghost predicate Recorded(s: State, a: Action, s': State) {
    && s'.written == s.written + Flatten(PutOn(s, a, AppRecv))
    && s'.taken == s.taken + Flatten(TakenOff(s, a, AppRecv))
    && s'.closeCalls == s.closeCalls + (if Closes(s, a) then 1 else 0)
    && s'.lateWrite == (s.lateWrite || (PutOn(s, a, AppRecv) != [] && s.closeCalls > 0))
    && s'.outcomes == s.outcomes + Ends(s, a, s.written, s.taken)
  }

  /** The queue before and what was put on it are what was taken off and the queue after: packet
      by packet for datagrams, byte by byte for a stream. */
  ghost predicate Balanced(s: State, a: Action, s': State, q: QueueId) {
    if q == NetRecv then Contents(s, q) + PutOn(s, a, q) == TakenOff(s, a, q) + Contents(s', q)
    else Flatten(Contents(s, q) + PutOn(s, a, q)) == Flatten(TakenOff(s, a, q) + Contents(s', q))
  }

  lemma {:induction false} FlattenOne(x: Bytes)
    ensures Flatten([x]) == x
  {
    assert Flatten([x]) == x + Flatten([][..]);
  }

  lemma {:induction false} EnqueueRecorded(s: State, t: nat, q: QueueId, data: Bytes)
    requires t < |s.pcs| && s.pcs[t] == Locked(Enqueue(q, data))
    ensures Recorded(s, Act(t), DoEnqueue(s, t, q, data))
    ensures forall r :: Balanced(s, Act(t), DoEnqueue(s, t, q, data), r)
  {
    FlattenOne(data);
    forall r: QueueId
      ensures Balanced(s, Act(t), DoEnqueue(s, t, q, data), r)
    {
      var s' := DoEnqueue(s, t, q, data);
      assert TakenOff(s, Act(t), r) + Contents(s', r) == Contents(s', r);
      assert Contents(s', r) == Contents(s, r) + PutOn(s, Act(t), r);
    }
  }

  lemma {:induction false} NothingMoved(s: State, a: Action, s': State, q: QueueId)
    requires PutOn(s, a, q) == [] && TakenOff(s, a, q) == [] && Contents(s', q) == Contents(s, q)
    ensures Balanced(s, a, s', q)
  {
    assert Contents(s, q) + PutOn(s, a, q) == TakenOff(s, a, q) + Contents(s', q);
  }

  lemma {:induction false} DequeueBalanced(s: State, t: nat, q: QueueId, max: nat, r: QueueId)
    requires t < |s.pcs| && s.pcs[t] == Locked(Dequeue(q, max))
    ensures Balanced(s, Act(t), DoDequeue(s, t, q, max), r)
  {
    var s', c := DoDequeue(s, t, q, max), Contents(s, q);
    if r != q || c == [] || (|c[0]| > max && q != NetRecv) {
      NothingMoved(s, Act(t), s', r);
    } else {
      assert c + [] == [c[0]] + c[1..];
    }
  }

  lemma {:induction false} DequeueRecorded(s: State, t: nat, q: QueueId, max: nat)
    requires t < |s.pcs| && s.pcs[t] == Locked(Dequeue(q, max))
    ensures Recorded(s, Act(t), DoDequeue(s, t, q, max))
    ensures forall r :: Balanced(s, Act(t), DoDequeue(s, t, q, max), r)
  {
    forall r: QueueId
      ensures Balanced(s, Act(t), DoDequeue(s, t, q, max), r)
    {
      DequeueBalanced(s, t, q, max, r);
    }
    var c := Contents(s, q);
    if c != [] {
      FlattenOne(c[0]);
      assert c[0][..|c[0]|] == c[0];
    }
  }

  lemma {:induction false} CopyRecorded(s: State, t: nat)
    requires CanMove(s, Copy(t)) && HeadStays(s, t, s.pcs[t])
    ensures Recorded(s, Copy(t), Move(s, Copy(t)))
    ensures forall r :: Balanced(s, Copy(t), Move(s, Copy(t)), r)
  {
    var s', q, max, c := Move(s, Copy(t)), s.pcs[t].queue, s.pcs[t].max, Contents(s, s.pcs[t].queue);
    FlattenOne(c[0][..max]);
    forall r: QueueId
      ensures Balanced(s, Copy(t), s', r)
    {
      if r != q {
        NothingMoved(s, Copy(t), s', r);
      } else {
        TakeStream(c, max);
        FlattenAppend([c[0][..max]], Contents(s', q));
        assert c + PutOn(s, Copy(t), q) == c;
      }
    }
  }

  lemma {:induction false} PollRecorded(s: State, t: nat, flags: Events, timed: bool)
    requires t < |s.pcs| && s.pcs[t] == Locked(WaitEvent(flags, timed))
    ensures Recorded(s, Act(t), DoPoll(s, t, flags, timed))
    ensures forall r :: Balanced(s, Act(t), DoPoll(s, t, flags, timed), r)
  {
    assert Due(s, flags) == EventsOf(s, flags);
    forall r: QueueId
      ensures Balanced(s, Act(t), DoPoll(s, t, flags, timed), r)
    {
      NothingMoved(s, Act(t), DoPoll(s, t, flags, timed), r);
    }
  }

  /** No critical section and no copy: nothing moves. */
  lemma {:induction false} OtherRecorded(s: State, a: Action, s': State)
    requires s' == s.(pcs := s'.pcs, holder := s'.holder)
    requires Doing(s, a) == None && !(a.Copy? && a.t < |s.pcs| && s.pcs[a.t].Copying?)
    requires !(a.Act? && a.t < |s.pcs| && s.pcs[a.t].Expired?)
    ensures Recorded(s, a, s') && forall r :: Balanced(s, a, s', r)
  {
    forall r: QueueId
      ensures Balanced(s, a, s', r)
    {
      NothingMoved(s, a, s', r);
    }
  }

  lemma {:induction false} CloseRecorded(s: State, t: nat)
    requires t < |s.pcs| && s.pcs[t] == Locked(Close)
    ensures Recorded(s, Act(t), DoClose(s, t)) && forall r :: Balanced(s, Act(t), DoClose(s, t), r)
  {
    forall r: QueueId
      ensures Balanced(s, Act(t), DoClose(s, t), r)
    {
      NothingMoved(s, Act(t), DoClose(s, t), r);
    }
  }

  lemma {:induction false} ExpiryRecorded(s: State, t: nat)
    requires t < |s.pcs| && s.pcs[t].Expired?
    ensures Recorded(s, Act(t), Move(s, Act(t))) && forall r :: Balanced(s, Act(t), Move(s, Act(t)), r)
  {
    forall r: QueueId
      ensures Balanced(s, Act(t), Move(s, Act(t)), r)
    {
      NothingMoved(s, Act(t), Move(s, Act(t)), r);
    }
  }

  lemma {:induction false} StepRecorded(s: State, a: Action)
    requires Inv(s)
    ensures Recorded(s, a, Step(s, a)) && forall r :: Balanced(s, a, Step(s, a), r)
  {
    if a.Act? && Enabled(s, a) {
      if s.pcs[a.t].Expired? {
        ExpiryRecorded(s, a.t);
      } else {
        match s.pcs[a.t].job
        case Enqueue(q, data) => EnqueueRecorded(s, a.t, q, data);
        case Close => CloseRecorded(s, a.t);
        case Dequeue(q, max) => DequeueRecorded(s, a.t, q, max);
        case WaitEvent(flags, timed) => PollRecorded(s, a.t, flags, timed);
      }
    } else if a.Copy? && Enabled(s, a) {
      assert ThreadInv(s, a.t);
      CopyRecorded(s, a.t);
    } else {
      OtherRecorded(s, a, Step(s, a));
    }
  }

  /** The histories of the machine are what the run did. */
  lemma {:induction false} HistoryIsRun(threads: nat, actions: seq<Action>)
    ensures var s := Run(threads, actions);
            && s.written == Written(threads, actions) && s.taken == Taken(threads, actions)
            && s.closeCalls == CloseCalls(threads, actions) && s.lateWrite == LateWrite(threads, actions)
            && s.outcomes == Outcomes(threads, actions)
  {
    if actions != [] {
      var pre, a := actions[..|actions| - 1], actions[|actions| - 1];
      var s := Run(threads, pre);
      HistoryIsRun(threads, pre);
      InvHolds(threads, pre);
      StepRecorded(s, a);
      FlattenAppend(AllPutOn(threads, pre, AppRecv), PutOn(s, a, AppRecv));
      FlattenAppend(AllTakenOff(threads, pre, AppRecv), TakenOff(s, a, AppRecv));
    }
  }

  lemma {:induction false} BalanceAdds<T>(put: seq<T>, taken: seq<T>, c: seq<T>, p: seq<T>, o: seq<T>, c': seq<T>)
    requires put == taken + c && c + p == o + c'
    ensures put + p == (taken + o) + c'
  {
    assert put + p == taken + (c + p);
    assert (taken + o) + c' == taken + (o + c');
  }

  lemma {:induction false} FlattenAdds(put: seq<Bytes>, taken: seq<Bytes>, c: seq<Bytes>, p: seq<Bytes>, o: seq<Bytes>, c': seq<Bytes>)
    requires Flatten(put) == Flatten(taken) + Flatten(c) && Flatten(c + p) == Flatten(o + c')
    ensures Flatten(put + p) == Flatten(taken + o) + Flatten(c')
  {
    FlattenAppend(put, p);
    FlattenAppend(taken, o);
    FlattenAppend(c, p);
    FlattenAppend(o, c');
    BalanceAdds(Flatten(put), Flatten(taken), Flatten(c), Flatten(p), Flatten(o), Flatten(c'));
  }

  /** What the last action does to a queue. */
  lemma {:induction false} LastBalanced(threads: nat, actions: seq<Action>, q: QueueId)
    requires actions != []
    ensures var s, a := Run(threads, actions[..|actions| - 1]), actions[|actions| - 1];
            var before, after := Contents(s, q) + PutOn(s, a, q), TakenOff(s, a, q) + Contents(Run(threads, actions), q);
            Flatten(before) == Flatten(after) && (q == NetRecv ==> before == after)
  {
    var s, a := Run(threads, actions[..|actions| - 1]), actions[|actions| - 1];
    InvHolds(threads, actions[..|actions| - 1]);
    StepRecorded(s, a);
    assert Balanced(s, a, Step(s, a), q);
  }

  /** No queue loses, invents or reorders anything, in any run: what was put on it is what was
      taken off it, followed by what it holds. This is so for the bytes of every queue, and for
      network_recv_queue packet by packet. */
  lemma {:induction false} QueuesConserve(threads: nat, actions: seq<Action>, q: QueueId)
    ensures Flatten(AllPutOn(threads, actions, q)) ==
            Flatten(AllTakenOff(threads, actions, q)) + Flatten(Contents(Run(threads, actions), q))
    ensures q == NetRecv ==>
              AllPutOn(threads, actions, q) == AllTakenOff(threads, actions, q) + Run(threads, actions).netRecv
  {
    if actions != [] {
      var pre, a := actions[..|actions| - 1], actions[|actions| - 1];
      var s, s' := Run(threads, pre), Run(threads, actions);
      QueuesConserve(threads, pre, q);
      LastBalanced(threads, actions, q);
      FlattenAdds(AllPutOn(threads, pre, q), AllTakenOff(threads, pre, q), Contents(s, q),
                  PutOn(s, a, q), TakenOff(s, a, q), Contents(s', q));
      if q == NetRecv {
        BalanceAdds(AllPutOn(threads, pre, q), AllTakenOff(threads, pre, q), s.netRecv,
                    PutOn(s, a, q), TakenOff(s, a, q), s'.netRecv);
      }
    }
  }

  // ---------- What every step keeps ----------

  function CloseEvents(os: seq<Outcome>): nat {
    if os == [] then 0
    else CloseEvents(os[..|os| - 1]) + if os[|os| - 1].events.close then 1 else 0
  }

  /** A result is empty exactly on timeout; the close event comes without APP_DATA and when
      every byte written so far has been taken. */
  predicate GoodOutcome(o: Outcome) {
    && (o.events == NO_EVENT <==> o.timedOut)
    && (o.events.close ==> !o.events.appData && o.written == o.taken)
  }

  ghost predicate CloseInv(s: State) {
    && s.written == s.taken + Flatten(s.appRecv)
    && CloseBalance(s)
    && (forall o :: o in s.outcomes ==> GoodOutcome(o))
    && (forall o :: o in s.outcomes && o.events.close && !s.lateWrite ==> o.written == s.written)
  }

  predicate CloseBalance(s: State) {
    var reported := CloseEvents(s.outcomes) + if s.closeRequested then 1 else 0;
    reported <= s.closeCalls && (s.closeCalls == 1 ==> reported == 1)
  }

  lemma {:induction false} CloseCounted(os: seq<Outcome>, o: Outcome)
    requires o in os && o.events.close
    ensures CloseEvents(os) > 0
  {
    if os[|os| - 1] != o {
      assert o in os[..|os| - 1];
      CloseCounted(os[..|os| - 1], o);
    }
  }

  lemma {:induction false} OutcomeAdded(s: State, s': State, o: Outcome)
    requires CloseInv(s) && GoodOutcome(o) && o.written == s.written
    requires s'.outcomes == s.outcomes + [o]
    requires s'.written == s.written && s'.taken == s.taken && s'.appRecv == s.appRecv
    requires s'.closeCalls == s.closeCalls && s'.lateWrite == s.lateWrite
    requires o.events.close ==> s.closeRequested
    requires s'.closeRequested == (s.closeRequested && !o.events.close)
    ensures CloseInv(s')
  {
  }

  lemma {:induction false} EnqueueKeepsClose(s: State, t: nat, q: QueueId, data: Bytes)
    requires CloseInv(s) && t < |s.pcs|
    ensures CloseInv(DoEnqueue(s, t, q, data))
  {
    FlattenSnoc(s.appRecv, data);
    forall o | o in s.outcomes && o.events.close
      ensures s.closeCalls > 0
    {
      CloseCounted(s.outcomes, o);
    }
  }

  lemma {:induction false} ConsumeKeepsClose(s: State, t: nat, q: QueueId, max: nat)
    requires CloseInv(s) && t < |s.pcs| && Contents(s, q) != []
    ensures CloseInv(Consumed(s, t, q, max))
  {
    if q == AppRecv {
      TakeStream(s.appRecv, max);
    }
  }

  lemma {:induction false} PollKeepsClose(s: State, t: nat, flags: Events, timed: bool)
    requires CloseInv(s) && t < |s.pcs|
    ensures CloseInv(DoPoll(s, t, flags, timed))
  {
    var e := EventsOf(s, flags);
    if e != NO_EVENT {
      OutcomeAdded(s, DoPoll(s, t, flags, timed), Outcome(e, false, s.written, s.taken));
    }
  }

  lemma {:induction false} CriticalKeepsClose(s: State, t: nat, job: Job)
    requires CloseInv(s) && t < |s.pcs|
    ensures CloseInv(Critical(s, t, job))
  {
    match job
    case Enqueue(q, data) => EnqueueKeepsClose(s, t, q, data);
    case Close =>
    case Dequeue(q, max) =>
      if Contents(s, q) != [] {
        ConsumeKeepsClose(s, t, q, max);
      }
    case WaitEvent(flags, timed) => PollKeepsClose(s, t, flags, timed);
  }

  lemma {:induction false} MoveKeepsClose(s: State, a: Action)
    requires CloseInv(s) && CanMove(s, a)
    ensures CloseInv(Move(s, a))
  {
    var pc := s.pcs[a.t];
    if a.Act? && pc.Locked? {
      CriticalKeepsClose(s, a.t, pc.job);
    } else if a.Act? {
      OutcomeAdded(s, Move(s, a), Outcome(NO_EVENT, true, s.written, s.taken));
    } else if a.Copy? && Contents(s, pc.queue) != [] {
      ConsumeKeepsClose(s, a.t, pc.queue, pc.max);
    }
  }

  lemma {:induction false} CloseInvHolds(threads: nat, actions: seq<Action>)
    ensures CloseInv(Run(threads, actions))
  {
    if actions != [] {
      var s, a := Run(threads, actions[..|actions| - 1]), actions[|actions| - 1];
      CloseInvHolds(threads, actions[..|actions| - 1]);
      if Enabled(s, a) {
        MoveKeepsClose(s, a);
      }
    }
  }

  /** Close ordering, in every run: the bytes written are the bytes taken and the bytes queued;
      stcp_wait_for_event has returned what was due each time, and nothing only on timeout; it
      reports the close event no more often than myclose was called, exactly once or still pending
      after a single call, never with APP_DATA, and only when every byte written so far has been
      taken, which without a later mywrite is every byte of the run. */
  lemma {:induction false} CloseOrdering(threads: nat, actions: seq<Action>)
    ensures var s, os := Run(threads, actions), Outcomes(threads, actions);
            var written, taken, calls := Written(threads, actions), Taken(threads, actions), CloseCalls(threads, actions);
            && s.outcomes == os
            && written == taken + Flatten(s.appRecv)
            && CloseEvents(os) <= calls
            && (calls == 1 ==> (CloseEvents(os) == 1 <==> !s.closeRequested))
            && forall o :: o in os ==>
                 && (o.events == NO_EVENT <==> o.timedOut)
                 && (o.events.close ==> !o.events.appData && o.written == o.taken)
                 && (o.events.close && !LateWrite(threads, actions) ==> o.taken == written)
  {
    CloseInvHolds(threads, actions);
    HistoryIsRun(threads, actions);
  }
}
