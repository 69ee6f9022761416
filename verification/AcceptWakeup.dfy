/** Threads that accept and threads that complete connections (connection_demux.c:88-116,
    289-301). A completion signals one waiter, not all, and only after it has unlocked; any
    number of threads may be accepting. */
module AcceptWakeup {
  import opened Common

  datatype PC =
    | Idle
    | Entering     // in accept, wants connection_lock, for the first time or after a wake-up
    | Checking     // holds the lock, about to look at completed_queue
    | MustWait     // holds the lock, found nothing, about to call pthread_cond_wait
    | Asleep
    | Took         // holds the lock, has taken a connection
    | Completing(conn: nat)   // wants the lock to add a connection
    | Pushed       // holds the lock, has added a connection
    | Owing        // lock released, signal still to come

  /** completed is completed_queue; pushed and taken are the histories of what was added to it
      and taken from it. Connections are named by numbers. */
  datatype State = State(
    pcs: seq<PC>, holder: Option<nat>, completed: seq<nat>, pushed: seq<nat>, taken: seq<nat>)

  /** In Signal, w is the waiter that the system picks, if any thread waits. */
  datatype Action =
    | Accept(t: nat) | Complete(t: nat, conn: nat) | Acquire(t: nat) | Check(t: nat) | Sleep(t: nat)
    | Unlock(t: nat) | Signal(t: nat, w: nat) | Wake(t: nat)

  predicate SomeoneSleeps(pcs: seq<PC>) {
    exists u :: 0 <= u < |pcs| && pcs[u].Asleep?
  }

  predicate Enabled(s: State, a: Action) {
    && a.t < |s.pcs|
    && var pc := s.pcs[a.t];
       match a
       case Accept(_) => pc.Idle?
       case Complete(_, _) => pc.Idle?
       case Acquire(_) => (pc.Entering? || pc.Completing?) && s.holder == None
       case Check(_) => pc.Checking?
       case Sleep(_) => pc.MustWait?
       case Unlock(_) => pc.Took? || pc.Pushed?
       case Signal(_, w) => pc.Owing? && (SomeoneSleeps(s.pcs) ==> w < |s.pcs| && s.pcs[w].Asleep?)
       case Wake(_) => pc.Asleep?
  }

  function Goto(s: State, t: nat, pc: PC): State
    requires t < |s.pcs|
  {
    s.(pcs := s.pcs[t := pc])
  }

  function Move(s: State, a: Action): (r: State)
    requires Enabled(s, a)
    ensures |r.pcs| == |s.pcs|
  {
    var pc := s.pcs[a.t];
    match a
    case Accept(t) => Goto(s, t, Entering)
    case Complete(t, conn) => Goto(s, t, Completing(conn))
    case Acquire(t) =>
      if pc.Entering? then Goto(s, t, Checking).(holder := Some(t))
      else Goto(s, t, Pushed).(
             holder := Some(t), completed := s.completed + [pc.conn], pushed := s.pushed + [pc.conn])
    case Check(t) =>
      if s.completed == [] then Goto(s, t, MustWait)
      else Goto(s, t, Took).(completed := s.completed[1..], taken := s.taken + [s.completed[0]])
    case Sleep(t) => Goto(s, t, Asleep).(holder := None)
    case Unlock(t) => Goto(s, t, if pc.Took? then Idle else Owing).(holder := None)
    case Signal(t, w) =>
      if SomeoneSleeps(s.pcs) then Goto(Goto(s, t, Idle), w, Entering) else Goto(s, t, Idle)
    case Wake(t) => Goto(s, t, Entering)
  }

  function Step(s: State, a: Action): State {
    if Enabled(s, a) then Move(s, a) else s
  }

  function Run(threads: nat, actions: seq<Action>): State {
    if actions == [] then State(seq(threads, _ => Idle), None, [], [], [])
    else Step(Run(threads, actions[..|actions| - 1]), actions[|actions| - 1])
  }

  // ---------- What every step keeps ----------

  predicate HoldsLock(pc: PC) {
    pc.Checking? || pc.MustWait? || pc.Took? || pc.Pushed?
  }

  /** A thread that still owes a signal, or an accepting thread on its way to the queue. */
  predicate Helps(pc: PC) {
    pc.Pushed? || pc.Owing? || pc.Entering? || pc.Checking?
  }

  function Helpers(pcs: seq<PC>): nat {
    if pcs == [] then 0 else (if Helps(pcs[0]) then 1 else 0) + Helpers(pcs[1..])
  }

  lemma {:induction false} HelpersUpdate(pcs: seq<PC>, t: nat, pc: PC)
    requires t < |pcs|
    ensures Helpers(pcs[t := pc]) ==
            Helpers(pcs) - (if Helps(pcs[t]) then 1 else 0) + (if Helps(pc) then 1 else 0)
  {
    if t == 0 {
      assert pcs[t := pc][1..] == pcs[1..];
    } else {
      assert pcs[t := pc][1..] == pcs[1..][t - 1 := pc];
      HelpersUpdate(pcs[1..], t - 1, pc);
    }
  }

  lemma {:induction false} HelperExists(pcs: seq<PC>)
    requires Helpers(pcs) > 0
    ensures exists u :: 0 <= u < |pcs| && Helps(pcs[u])
  {
    if !Helps(pcs[0]) {
      HelperExists(pcs[1..]);
      var u :| 0 <= u < |pcs[1..]| && Helps(pcs[1..][u]);
      assert Helps(pcs[u + 1]);
    }
  }

  ghost predicate LockInv(s: State) {
    forall t :: 0 <= t < |s.pcs| ==>
      (HoldsLock(s.pcs[t]) <==> s.holder == Some(t)) && (s.pcs[t].MustWait? ==> s.completed == [])
  }

  /** While a thread sleeps, there is a helper for every completed connection. */
  ghost predicate Inv(s: State) {
    && LockInv(s)
    && s.pushed == s.taken + s.completed
    && (SomeoneSleeps(s.pcs) ==> |s.completed| <= Helpers(s.pcs))
  }

  lemma {:induction false} LockKept(s: State, a: Action)
    requires LockInv(s) && Enabled(s, a)
    ensures LockInv(Move(s, a))
  {
  }

  lemma {:induction false} OrderKept(s: State, a: Action)
    requires Enabled(s, a) && s.pushed == s.taken + s.completed
    ensures Move(s, a).pushed == Move(s, a).taken + Move(s, a).completed
  {
  }

  lemma {:induction false} SignalHelps(s: State, a: Action)
    requires Inv(s) && a.Signal? && Enabled(s, a) && SomeoneSleeps(s.pcs)
    ensures |Move(s, a).completed| <= Helpers(Move(s, a).pcs)
  {
    HelpersUpdate(s.pcs, a.t, Idle);
    HelpersUpdate(s.pcs[a.t := Idle], a.w, Entering);
  }

  lemma {:induction false} OthersHelp(s: State, a: Action)
    requires Inv(s) && !a.Signal? && Enabled(s, a) && SomeoneSleeps(Move(s, a).pcs)
    ensures |Move(s, a).completed| <= Helpers(Move(s, a).pcs)
  {
    var s' := Move(s, a);
    HelpersUpdate(s.pcs, a.t, s'.pcs[a.t]);
    if !a.Sleep? {
      var u :| 0 <= u < |s'.pcs| && s'.pcs[u].Asleep?;
      assert s.pcs[u].Asleep?;
    }
  }

  lemma {:induction false} StepKeeps(s: State, a: Action)
    requires Inv(s)
    ensures Inv(Step(s, a))
  {
    if Enabled(s, a) {
      LockKept(s, a);
      OrderKept(s, a);
      if a.Signal? && SomeoneSleeps(s.pcs) {
        SignalHelps(s, a);
      } else if !a.Signal? && SomeoneSleeps(Move(s, a).pcs) {
        OthersHelp(s, a);
      }
    }
  }

  lemma {:induction false} InvHolds(threads: nat, actions: seq<Action>)
    ensures Inv(Run(threads, actions)) && |Run(threads, actions).pcs| == threads
  {
    if actions != [] {
      InvHolds(threads, actions[..|actions| - 1]);
      StepKeeps(Run(threads, actions[..|actions| - 1]), actions[|actions| - 1]);
    }
  }

  // ---------- What a run did ----------

  /** The connections that the action starts to complete, adds to the queue, and takes from it. */
  function Started(s: State, a: Action): seq<nat> {
    if a.Complete? && a.t < |s.pcs| && s.pcs[a.t].Idle? then [a.conn] else []
  }

  function Added(s: State, a: Action): seq<nat> {
    if a.Acquire? && a.t < |s.pcs| && s.holder == None && s.pcs[a.t].Completing?
    then [s.pcs[a.t].conn] else []
  }

  function TakenBy(s: State, a: Action): seq<nat> {
    if a.Check? && a.t < |s.pcs| && s.pcs[a.t].Checking? && s.completed != [] then [s.completed[0]] else []
  }

  /** How often the connection's completion was started. */
  function TimesStarted(threads: nat, actions: seq<Action>, c: nat): nat {
    if actions == [] then 0
    else
      var pre := actions[..|actions| - 1];
      TimesStarted(threads, pre, c) + Times(Started(Run(threads, pre), actions[|actions| - 1]), c)
  }

  function Times(xs: seq<nat>, c: nat): nat {
    if xs == [] then 0 else Times(xs[..|xs| - 1], c) + if xs[|xs| - 1] == c then 1 else 0
  }

  lemma {:induction false} TimesMore(xs: seq<nat>, ys: seq<nat>, c: nat)
    requires |ys| <= 1
    ensures Times(xs + ys, c) == Times(xs, c) + Times(ys, c)
  {
    if ys == [] {
      assert xs + ys == xs;
    } else {
      assert (xs + ys)[..|xs|] == xs && ys[..0] == [];
    }
  }

  function AllAdded(threads: nat, actions: seq<Action>): seq<nat> {
    if actions == [] then []
    else
      var pre := actions[..|actions| - 1];
      AllAdded(threads, pre) + Added(Run(threads, pre), actions[|actions| - 1])
  }

  function AllTaken(threads: nat, actions: seq<Action>): seq<nat> {
    if actions == [] then []
    else
      var pre := actions[..|actions| - 1];
      AllTaken(threads, pre) + TakenBy(Run(threads, pre), actions[|actions| - 1])
  }

  /** How many threads still wait for the lock to add the connection. */
  function Underway(pcs: seq<PC>, c: nat): nat {
    if pcs == [] then 0 else (if pcs[0] == Completing(c) then 1 else 0) + Underway(pcs[1..], c)
  }

  lemma {:induction false} UnderwayUpdate(pcs: seq<PC>, t: nat, pc: PC, c: nat)
    requires t < |pcs|
    ensures Underway(pcs[t := pc], c) ==
            Underway(pcs, c) - (if pcs[t] == Completing(c) then 1 else 0) + (if pc == Completing(c) then 1 else 0)
  {
    if t == 0 {
      assert pcs[t := pc][1..] == pcs[1..];
    } else {
      assert pcs[t := pc][1..] == pcs[1..][t - 1 := pc];
      UnderwayUpdate(pcs[1..], t - 1, pc, c);
    }
  }

  lemma {:induction false} NoneUnderway(pcs: seq<PC>, c: nat)
    requires forall t :: 0 <= t < |pcs| ==> pcs[t] == Idle
    ensures Underway(pcs, c) == 0
  {
    if pcs != [] {
      NoneUnderway(pcs[1..], c);
    }
  }

  lemma {:induction false} StepRecords(s: State, a: Action)
    ensures var s' := Step(s, a);
            s'.pushed == s.pushed + Added(s, a) && s'.taken == s.taken + TakenBy(s, a)
  {
  }

  lemma {:induction false} StepUnderway(s: State, a: Action, c: nat)
    ensures Underway(s.pcs, c) + Times(Started(s, a), c) == Underway(Step(s, a).pcs, c) + Times(Added(s, a), c)
  {
    if Enabled(s, a) && a.Signal? {
      UnderwayUpdate(s.pcs, a.t, Idle, c);
      if SomeoneSleeps(s.pcs) {
        UnderwayUpdate(s.pcs[a.t := Idle], a.w, Entering, c);
      }
    } else if Enabled(s, a) {
      UnderwayUpdate(s.pcs, a.t, Move(s, a).pcs[a.t], c);
    }
  }

  /** The histories are what the run did. */
  lemma {:induction false} HistoryIsRun(threads: nat, actions: seq<Action>)
    ensures var s := Run(threads, actions);
            s.pushed == AllAdded(threads, actions) && s.taken == AllTaken(threads, actions)
  {
    if actions != [] {
      HistoryIsRun(threads, actions[..|actions| - 1]);
      StepRecords(Run(threads, actions[..|actions| - 1]), actions[|actions| - 1]);
    }
  }

  /** Every completion that was started has been added to the queue once, or its thread still
      waits for the lock. */
  lemma {:induction false} StartedIsAdded(threads: nat, actions: seq<Action>, c: nat)
    ensures TimesStarted(threads, actions, c) ==
            Times(AllAdded(threads, actions), c) + Underway(Run(threads, actions).pcs, c)
  {
    if actions == [] {
      NoneUnderway(Run(threads, actions).pcs, c);
    } else {
      var pre, a := actions[..|actions| - 1], actions[|actions| - 1];
      StartedIsAdded(threads, pre, c);
      StepUnderway(Run(threads, pre), a, c);
      TimesMore(AllAdded(threads, pre), Added(Run(threads, pre), a), c);
    }
  }

  lemma {:induction false} RunThen(threads: nat, actions: seq<Action>, a: Action)
    ensures Run(threads, actions + [a]) == Step(Run(threads, actions), a)
  {
    assert (actions + [a])[..|actions|] == actions;
  }

  /** Whoever owes a signal wakes the sleeper that the system picks; and an accepting thread that
      gets the lock takes the first completed connection, if there is one. */
  lemma {:induction false} HelpersHelp(threads: nat, actions: seq<Action>, t: nat, w: nat)
    requires t < threads && w < threads && |Run(threads, actions).pcs| == threads
    ensures var s := Run(threads, actions);
            s.pcs[t].Owing? && s.pcs[w].Asleep? ==>
              Run(threads, actions + [Signal(t, w)]).pcs == s.pcs[t := Idle][w := Entering]
    ensures var s, s' := Run(threads, actions), Run(threads, actions + [Acquire(t)] + [Check(t)]);
            s.pcs[t].Entering? && s.holder == None && s.completed != [] ==>
              && s'.taken == s.taken + [s.completed[0]] && s'.completed == s.completed[1..]
              && s'.pcs == s.pcs[t := Took]
  {
    var s := Run(threads, actions);
    RunThen(threads, actions, Signal(t, w));
    RunThen(threads, actions, Acquire(t));
    RunThen(threads, actions + [Acquire(t)], Check(t));
    assert s.pcs[t := Checking][t := Took] == s.pcs[t := Took];
  }

  /** A thread that is done gives up the lock, and owes a signal if it added a connection; one that
      found nothing gives it up and sleeps. Any idle thread may accept, and a sleeper may wake. */
  lemma {:induction false} LockIsReleased(threads: nat, actions: seq<Action>, t: nat)
    requires t < threads && |Run(threads, actions).pcs| == threads
    ensures var s, s' := Run(threads, actions), Run(threads, actions + [Unlock(t)]);
            && (s.pcs[t].Took? ==> s' == s.(pcs := s.pcs[t := Idle], holder := None))
            && (s.pcs[t].Pushed? ==> s' == s.(pcs := s.pcs[t := Owing], holder := None))
    ensures var s, s' := Run(threads, actions), Run(threads, actions + [Sleep(t)]);
            s.pcs[t].MustWait? ==> s' == s.(pcs := s.pcs[t := Asleep], holder := None)
    ensures var s, s' := Run(threads, actions), Run(threads, actions + [Accept(t)]);
            s.pcs[t].Idle? ==> s' == s.(pcs := s.pcs[t := Entering])
    ensures var s, s' := Run(threads, actions), Run(threads, actions + [Wake(t)]);
            s.pcs[t].Asleep? ==> s' == s.(pcs := s.pcs[t := Entering])
  {
    RunThen(threads, actions, Unlock(t));
    RunThen(threads, actions, Sleep(t));
    RunThen(threads, actions, Accept(t));
    RunThen(threads, actions, Wake(t));
  }

  /** One signal per completion is enough: in every interleaving, while some thread sleeps in
      accept, for every completed connection some thread still owes a signal or is on its way
      to take it. The connections taken and those waiting are, in order, the ones added; these
      and those whose threads still wait for the lock are all that were started; so if none
      completes twice, none is taken twice. */
  lemma {:induction false} NoLostAccept(threads: nat, actions: seq<Action>)
    ensures var s, added, taken := Run(threads, actions), AllAdded(threads, actions), AllTaken(threads, actions);
            && taken + s.completed == added
            && (forall c :: TimesStarted(threads, actions, c) == Times(added, c) + Underway(s.pcs, c))
            && (Unique(added) ==> Unique(taken) && forall c :: c in taken ==> c !in s.completed)
            && (SomeoneSleeps(s.pcs) ==> |s.completed| <= Helpers(s.pcs))
            && (SomeoneSleeps(s.pcs) && s.completed != [] ==>
                  exists u :: 0 <= u < |s.pcs| && Helps(s.pcs[u]))
  {
    InvHolds(threads, actions);
    HistoryIsRun(threads, actions);
    forall c
      ensures TimesStarted(threads, actions, c) ==
              Times(AllAdded(threads, actions), c) + Underway(Run(threads, actions).pcs, c)
    {
      StartedIsAdded(threads, actions, c);
    }
    var s := Run(threads, actions);
    if SomeoneSleeps(s.pcs) && s.completed != [] {
      HelperExists(s.pcs);
    }
    assert forall i :: 0 <= i < |s.taken| ==> s.taken[i] == s.pushed[i];
    assert forall i :: 0 <= i < |s.completed| ==> s.completed[i] == s.pushed[|s.taken| + i];
  }
}
