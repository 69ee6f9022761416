/** Threads, the lock and the condition variable around one socket's queues. Any number of
    threads interleave; taking the lock, the critical section, going to sleep, unlocking and
    broadcasting are separate steps, and so is the copy that follows the unlock of a partial
    dequeue. Thread 0 is the transport thread: it alone waits for events and drains
    app_recv_queue and network_recv_queue. Thread 1 is the one that reads app_send_queue. */
module Wakeup {
  import opened Common
  import opened PacketQueue

  datatype QueueId = AppRecv | NetRecv | AppSend

  /** A set of the stcp_event_type_t bits (stcp_api.h). */
  datatype Events = Events(appData: bool, networkData: bool, close: bool)

  const NO_EVENT := Events(false, false, false)

  // ---------- One pass over the events ----------

  /** The bits of stcp_api.c:72-87. The close bit is not masked by the flags. */
  function EventBits(flags: Events, app: seq<Bytes>, net: seq<Bytes>, close: bool): Events {
    Events(flags.appData && app != [], flags.networkData && net != [], close && app == [])
  }

  function Mask(e: Events): bv8 {
    (if e.appData then 1 else 0) | (if e.networkData then 2 else 0) | (if e.close then 4 else 0)
  }

  /** What other threads did while this one waited: packets they queued, a close they requested,
      and whether the wait ended by timeout. */
  datatype Wake = Wake(app: seq<Bytes>, net: seq<Bytes>, close: bool, timedOut: bool)

  datatype Source = Source(app: seq<Bytes>, net: seq<Bytes>, close: bool)

  function Arrived(s: Source, w: Wake): Source {
    Source(s.app + w.app, s.net + w.net, s.close || w.close)
  }

  /** The whole of stcp_wait_for_event, woken as env says: None while it still sleeps. */
  function Wait(flags: Events, s: Source, env: seq<Wake>): (Option<Events>, Source)
    decreases |env|
  {
    var e := EventBits(flags, s.app, s.net, s.close);
    if e != NO_EVENT then (Some(e), s.(close := s.close && !e.close))
    else if env == [] then (None, s)
    else if env[0].timedOut then (Some(NO_EVENT), Arrived(s, env[0]))
    else Wait(flags, Arrived(s, env[0]), env[1..])
  }

  /** The source after the first k waits, if nothing is taken from it. */
  function After(s: Source, env: seq<Wake>, k: nat): Source
    requires k <= |env|
  {
    if k == 0 then s else Arrived(After(s, env, k - 1), env[k - 1])
  }

  /** Data that was asked for is there, or a close request with app_recv_queue drained. */
  predicate Reportable(flags: Events, s: Source) {
    (flags.appData && s.app != []) || (flags.networkData && s.net != []) || (s.close && s.app == [])
  }

  lemma {:induction false} AfterShift(s: Source, env: seq<Wake>, k: nat)
    requires 0 < k <= |env|
    ensures After(Arrived(s, env[0]), env[1..], k - 1) == After(s, env, k)
  {
    if k > 1 {
      AfterShift(s, env, k - 1);
    }
  }

  /** The wait lasts exactly until something is reportable or a wait times out, after k waits. On
      a timeout the result is empty and everything stays. Otherwise each data bit is set exactly
      when it was asked for and its queue is not empty, and the close bit, whatever the flags say,
      exactly when a close was requested and app_recv_queue is empty; the request is withdrawn. */
  lemma {:induction false} WaitLaw(flags: Events, s: Source, env: seq<Wake>) returns (k: nat)
    ensures k <= |env|
    ensures forall j :: 0 <= j < k ==> !Reportable(flags, After(s, env, j))
    ensures forall j :: 0 <= j < k - 1 ==> !env[j].timedOut
    ensures var (r, s') := Wait(flags, s, env);
            var here := After(s, env, k);
            match r
            case None =>
              && k == |env| && (k > 0 ==> !env[k - 1].timedOut) && s' == here
              && !(flags.appData && here.app != []) && !(flags.networkData && here.net != [])
              && !(here.close && here.app == [])
            case Some(e) =>
              if k > 0 && env[k - 1].timedOut then
                !e.appData && !e.networkData && !e.close && s' == here
              else
                && (e.appData || e.networkData || e.close)
                && (e.appData <==> flags.appData && here.app != [])
                && (e.networkData <==> flags.networkData && here.net != [])
                && (e.close <==> here.close && here.app == [])
                && s' == here.(close := here.close && here.app != [])
    decreases |env|
  {
    if Reportable(flags, s) || env == [] {
      k := 0;
    } else if env[0].timedOut {
      k := 1;
    } else {
      k := WaitLaw(flags, Arrived(s, env[0]), env[1..]);
      k := k + 1;
      forall j | 0 < j <= k
        ensures After(Arrived(s, env[0]), env[1..], j - 1) == After(s, env, j)
      {
        AfterShift(s, env, j);
      }
    }
  }

  function Flags(mask: bv8): Events {
    Events(mask & 1 != 0, mask & 2 != 0, mask & 4 != 0)
  }

  /** APP_DATA, NETWORK_DATA and APP_CLOSE_REQUESTED are the bits 1, 2 and 4 (stcp_api.h:17-19). */
  lemma {:induction false} MaskRoundTrip(e: Events)
    ensures Flags(Mask(e)) == e && Mask(e) < 8
    ensures (Mask(e) & 1 != 0 <==> e.appData) && (Mask(e) & 2 != 0 <==> e.networkData) &&
            (Mask(e) & 4 != 0 <==> e.close)
  {
  }

  class EventSource {
    var appRecvQueue: seq<Bytes>
    var networkRecvQueue: seq<Bytes>
    var closeRequested: bool

    ghost function Abs(): Source
      reads this
    {
      Source(appRecvQueue, networkRecvQueue, closeRequested)
    }

    /** stcp_api.c:72-87: one pass of the wait loop, entered with rc == 0. */
    method Poll(flags: bv8) returns (rc: bv8)
      modifies this`closeRequested
      ensures var e := EventBits(Flags(flags), appRecvQueue, networkRecvQueue, old(closeRequested));
              && rc == Mask(e) && (rc == 0 <==> e == NO_EVENT)
              && closeRequested == (old(closeRequested) && !e.close)
      ensures rc & 1 != 0 <==> flags & 1 != 0 && appRecvQueue != []
      ensures rc & 2 != 0 <==> flags & 2 != 0 && networkRecvQueue != []
      ensures rc & 4 != 0 <==> old(closeRequested) && appRecvQueue == []
      ensures rc < 8 && closeRequested == (old(closeRequested) && appRecvQueue != [])
    {
      rc := 0;
      if flags & 1 != 0 && appRecvQueue != [] {
        rc := rc | 1;
      }
      if flags & 2 != 0 && networkRecvQueue != [] {
        rc := rc | 2;
      }
      if closeRequested && appRecvQueue == [] {
        closeRequested := false;
        rc := rc | 4;
      }
    }

    /** stcp_api.c:62-127. The lock is released during a wait, so each wait may bring changes. */
    method WaitForEvent(flags: bv8, env: seq<Wake>) returns (rc: Option<bv8>)
      modifies this
      ensures var (r, s) := Wait(Flags(flags), old(Abs()), env);
              Abs() == s && rc == if r.None? then None else Some(Mask(r.value))
    {
      for k := 0 to |env|
        invariant Wait(Flags(flags), Abs(), env[k..]) == Wait(Flags(flags), old(Abs()), env)
      {
        var bits := Poll(flags);
        if bits != 0 {
          return Some(bits);
        }
        var w := env[k];
        assert env[k..][0] == w && env[k..][1..] == env[k + 1..];
        appRecvQueue := appRecvQueue + w.app;
        networkRecvQueue := networkRecvQueue + w.net;
        closeRequested := closeRequested || w.close;
        if w.timedOut {
          return Some(0);
        }
      }
      var bits := Poll(flags);
      rc := if bits != 0 then Some(bits) else None;
    }
  }

  // ---------- Threads ----------

  datatype Job =
    | Enqueue(queue: QueueId, data: Bytes)     // mysock.c:152-167
    | Close                                    // mysock_api.c:169-172
    | Dequeue(queue: QueueId, max: nat)        // mysock.c:189-230
    | WaitEvent(flags: Events, timed: bool)    // stcp_api.c:69-124

  datatype PC =
    | Idle
    | WantLock(job: Job)
    | Locked(job: Job)      // holds the lock, about to check or change the state
    | MustWait(job: Job)    // holds the lock, found nothing, about to call pthread_cond_wait
    | Asleep(job: Job)      // waiting on the condition, lock released
    | Woken(job: Job, timedOut: bool)   // must take the lock again
    | Expired(job: Job)     // holds the lock after ETIMEDOUT
    | Leaving(owes: bool)   // holds the lock, done; owes: a broadcast follows the unlock
    | Owing                 // lock released, broadcast still to come
    | Partial(queue: QueueId, max: nat, head: Bytes)  // holds the lock, leaves a longer head queued
    | Copying(queue: QueueId, max: nat, head: Bytes)  // lock released, head still to be shortened

  /** A result of stcp_wait_for_event, with the bytes written and taken when it was decided. */
  datatype Outcome = Outcome(events: Events, timedOut: bool, written: Bytes, taken: Bytes)

  datatype State = State(
    pcs: seq<PC>,
    holder: Option<nat>,
    appRecv: seq<Bytes>, netRecv: seq<Bytes>, appSend: seq<Bytes>,
    closeRequested: bool,
    written: Bytes,         // every byte mywrite has queued
    taken: Bytes,           // every byte stcp_app_recv has taken
    closeCalls: nat,
    lateWrite: bool,        // some mywrite came after a myclose
    outcomes: seq<Outcome>)

  datatype Action =
    | Start(t: nat, job: Job) | Acquire(t: nat) | Act(t: nat) | Sleep(t: nat)
    | Unlock(t: nat) | Broadcast(t: nat) | Wake(t: nat) | Timeout(t: nat) | Copy(t: nat)

  function Contents(s: State, q: QueueId): seq<Bytes> {
    match q case AppRecv => s.appRecv case NetRecv => s.netRecv case AppSend => s.appSend
  }

  function SetContents(s: State, q: QueueId, c: seq<Bytes>): State {
    match q
    case AppRecv => s.(appRecv := c)
    case NetRecv => s.(netRecv := c)
    case AppSend => s.(appSend := c)
  }

  function EventsOf(s: State, flags: Events): Events {
    EventBits(flags, s.appRecv, s.netRecv, s.closeRequested)
  }

  /** The condition a waiting job is waiting for. */
  predicate Ready(s: State, job: Job) {
    match job
    case Dequeue(q, _) => Contents(s, q) != []
    case WaitEvent(flags, _) => EventsOf(s, flags) != NO_EVENT
    case _ => true
  }

  /** Every queue has one consumer. */
  function Consumer(q: QueueId): nat {
    if q == AppSend then 1 else 0
  }

  predicate Role(t: nat, job: Job) {
    (job.WaitEvent? ==> t == 0) && (job.Dequeue? ==> t == Consumer(job.queue))
  }

  predicate Enabled(s: State, a: Action) {
    CanMove(s, a) && (a.Start? ==> Role(a.t, a.job))
  }

  /** The thread is where the action starts, whether or not it may take the job. */
  predicate CanMove(s: State, a: Action) {
    && a.t < |s.pcs|
    && var pc := s.pcs[a.t];
       match a
       case Start(_, _) => pc.Idle?
       case Acquire(_) => (pc.WantLock? || pc.Woken?) && s.holder == None
       case Act(_) => pc.Locked? || pc.Expired?
       case Sleep(_) => pc.MustWait?
       case Unlock(_) => pc.Leaving? || pc.Partial?
       case Copy(_) => pc.Copying?
       case Broadcast(_) => pc.Owing?
       case Wake(_) => pc.Asleep?
       case Timeout(_) => pc.Asleep? && pc.job.WaitEvent? && pc.job.timed
  }

  function Goto(s: State, t: nat, pc: PC): State
    requires t < |s.pcs|
  {
    s.(pcs := s.pcs[t := pc])
  }

  function WakeAll(pcs: seq<PC>): seq<PC> {
    seq(|pcs|, i requires 0 <= i < |pcs| =>
      if pcs[i].Asleep? then Woken(pcs[i].job, false) else pcs[i])
  }

  function DoEnqueue(s: State, t: nat, q: QueueId, data: Bytes): State
    requires t < |s.pcs|
  {
    var s' := Goto(SetContents(s, q, Contents(s, q) + [data]), t, Leaving(true));
    if q == AppRecv then
      s'.(written := s.written + data, lateWrite := s.lateWrite || s.closeCalls > 0)
    else s'
  }

  function DoClose(s: State, t: nat): State
    requires t < |s.pcs|
  {
    Goto(s, t, Leaving(true)).(closeRequested := true, closeCalls := s.closeCalls + 1)
  }

  /** The part of a dequeue under the lock (mysock.c:190-204, 214-219): a stream read shorter
      than the head leaves the queue as it is for now. */
  function DoDequeue(s: State, t: nat, q: QueueId, max: nat): State
    requires t < |s.pcs|
  {
    var c := Contents(s, q);
    if c == [] then Goto(s, t, MustWait(Dequeue(q, max)))
    else if |c[0]| > max && q != NetRecv then Goto(s, t, Partial(q, max, c[0]))
    else Consumed(s, t, q, max)
  }

  /** The part after the unlock (mysock.c:206-208): copy the front of the head and shorten it. */
  function DoCopy(s: State, t: nat, q: QueueId, max: nat): State
    requires t < |s.pcs|
  {
    if Contents(s, q) == [] then Goto(s, t, Leaving(false)) else Consumed(s, t, q, max)
  }

  function Consumed(s: State, t: nat, q: QueueId, max: nat): State
    requires t < |s.pcs| && Contents(s, q) != []
  {
    var k := Take(Contents(s, q), max, q != NetRecv);
    var s' := Goto(SetContents(s, q, k.rest), t, Leaving(false));
    if q == AppRecv then s'.(taken := s.taken + k.copied) else s'
  }

  function DoPoll(s: State, t: nat, flags: Events, timed: bool): State
    requires t < |s.pcs|
  {
    var e := EventsOf(s, flags);
    if e == NO_EVENT then Goto(s, t, MustWait(WaitEvent(flags, timed))) else
    Report(s, t, e, false).(closeRequested := s.closeRequested && !e.close)
  }

  function Report(s: State, t: nat, e: Events, timedOut: bool): State
    requires t < |s.pcs|
  {
    Goto(s, t, Leaving(false)).(
      outcomes := s.outcomes + [Outcome(e, timedOut, s.written, s.taken)])
  }

  /** The critical section of a job whose thread t holds the lock. */
  function Critical(s: State, t: nat, job: Job): (r: State)
    requires t < |s.pcs|
    ensures |r.pcs| == |s.pcs| && r.holder == s.holder
  {
    match job
    case Enqueue(q, data) => DoEnqueue(s, t, q, data)
    case Close => DoClose(s, t)
    case Dequeue(q, max) => DoDequeue(s, t, q, max)
    case WaitEvent(flags, timed) => DoPoll(s, t, flags, timed)
  }

  function Move(s: State, a: Action): (r: State)
    requires CanMove(s, a)
    ensures |r.pcs| == |s.pcs|
  {
    var pc := s.pcs[a.t];
    match a
    case Start(t, job) => Goto(s, t, WantLock(job))
    case Acquire(t) =>
      Goto(s, t, if pc.Woken? && pc.timedOut then Expired(pc.job) else Locked(pc.job))
        .(holder := Some(t))
    case Act(t) =>
      if pc.Locked? then Critical(s, t, pc.job) else Report(s, t, NO_EVENT, true)
    case Sleep(t) => Goto(s, t, Asleep(pc.job)).(holder := None)
    case Unlock(t) =>
      Goto(s, t, if pc.Partial? then Copying(pc.queue, pc.max, pc.head) else if pc.owes then Owing else Idle)
        .(holder := None)
    case Copy(t) => Goto(DoCopy(s, t, pc.queue, pc.max), t, Idle)
    case Broadcast(t) => s.(pcs := WakeAll(s.pcs[t := Idle]))
    case Wake(t) => Goto(s, t, Woken(pc.job, false))
    case Timeout(t) => Goto(s, t, Woken(pc.job, true))
  }

  function Init(threads: nat): State {
    State(seq(threads, _ => Idle), None, [], [], [], false, [], [], 0, false, [])
  }

  /** An action whose thread cannot take it leaves everything as it is, so that every sequence
      of actions is a run, and the runs are all the interleavings. */
  function Step(s: State, a: Action): State {
    if Enabled(s, a) then Move(s, a) else s
  }

  function Run(threads: nat, actions: seq<Action>): State {
    if actions == [] then Init(threads)
    else Step(Run(threads, actions[..|actions| - 1]), actions[|actions| - 1])
  }

  // ---------- What every step keeps ----------

  predicate HoldsLock(pc: PC) {
    pc.Locked? || pc.MustWait? || pc.Expired? || pc.Leaving? || pc.Partial?
  }

  predicate OwesBroadcast(pc: PC) {
    pc.Owing? || (pc.Leaving? && pc.owes)
  }

  predicate HasJob(pc: PC) {
    pc.WantLock? || pc.Locked? || pc.MustWait? || pc.Asleep? || pc.Woken? || pc.Expired?
  }

  ghost predicate SomeoneOwes(s: State) {
    exists u :: 0 <= u < |s.pcs| && OwesBroadcast(s.pcs[u])
  }

  /** A partial dequeue under way: its thread is the queue's consumer, and the head is still the
      one it saw under the lock, longer than what it takes. */
  predicate HeadStays(s: State, t: nat, pc: PC) {
    pc.Partial? || pc.Copying? ==>
      && t == Consumer(pc.queue) && pc.queue != NetRecv && |pc.head| > pc.max
      && Contents(s, pc.queue) != [] && Contents(s, pc.queue)[0] == pc.head
  }

  /** What holds of each thread by itself: the lock has one holder, jobs run on the thread
      that may run them, whoever is about to sleep has nothing to do, and a partial dequeue
      finds its head unchanged. */
  predicate ThreadInv(s: State, t: nat)
    requires t < |s.pcs|
  {
    var pc := s.pcs[t];
    && (HoldsLock(pc) <==> s.holder == Some(t))
    && (HasJob(pc) ==> Role(t, pc.job))
    && (pc.MustWait? ==> !Ready(s, pc.job))
    && HeadStays(s, t, pc)
  }

  ghost predicate Inv(s: State) {
    forall t {:trigger s.pcs[t]} :: 0 <= t < |s.pcs| ==>
      ThreadInv(s, t) && (s.pcs[t].Asleep? && Ready(s, s.pcs[t].job) ==> SomeoneOwes(s))
  }

  /** The same jobs are ready in both states. */
  predicate SameReady(s: State, s': State) {
    && (s.appRecv == [] <==> s'.appRecv == []) && (s.netRecv == [] <==> s'.netRecv == [])
    && (s.appSend == [] <==> s'.appSend == []) && s.closeRequested == s'.closeRequested
  }

  /** Thread t alone moves. If it makes some job ready or not, it holds the lock, and a sleeper
      that becomes ready is owed a broadcast by it. It leaves the heads of other consumers. */
  lemma {:induction false} OneThreadMoves(s: State, s': State, t: nat)
    requires Inv(s) && t < |s.pcs| == |s'.pcs|
    requires forall u :: 0 <= u < |s.pcs| && u != t ==> s'.pcs[u] == s.pcs[u] && HeadStays(s', u, s.pcs[u])
    requires forall u: nat :: u != t ==> (s'.holder == Some(u) <==> s.holder == Some(u))
    requires ThreadInv(s', t)
    requires OwesBroadcast(s.pcs[t]) ==> OwesBroadcast(s'.pcs[t])
    requires s'.pcs[t].Asleep? ==> !Ready(s', s'.pcs[t].job)
    requires SameReady(s, s') || HoldsLock(s.pcs[t])
    requires forall u :: 0 <= u < |s.pcs| && u != t && s.pcs[u].Asleep? && Ready(s', s.pcs[u].job)
               ==> Ready(s, s.pcs[u].job) || OwesBroadcast(s'.pcs[t])
    ensures Inv(s')
  {
    if SomeoneOwes(s) {
      var w :| 0 <= w < |s.pcs| && OwesBroadcast(s.pcs[w]);
      assert OwesBroadcast(s'.pcs[w]);
    }
    forall u | 0 <= u < |s'.pcs| && u != t
      ensures ThreadInv(s', u)
    {
      assert ThreadInv(s, u) && ThreadInv(s, t);
    }
  }

  lemma {:induction false} BroadcastKeeps(s: State, t: nat)
    requires Inv(s) && Enabled(s, Broadcast(t))
    ensures Inv(Move(s, Broadcast(t)))
  {
    var s' := Move(s, Broadcast(t));
    forall u | 0 <= u < |s'.pcs|
      ensures ThreadInv(s', u) && !s'.pcs[u].Asleep?
    {
      assert ThreadInv(s, u);
    }
  }

  /** s' is s after a step of thread t under the lock that moves only t. */
  predicate Local(s: State, s': State, t: nat)
    requires t < |s.pcs|
  {
    && s'.holder == s.holder && |s'.pcs| == |s.pcs| && s'.pcs == s.pcs[t := s'.pcs[t]]
    && ThreadInv(s', t) && !s'.pcs[t].Asleep?
  }

  lemma {:induction false} DequeueIsLocal(s: State, t: nat, q: QueueId, max: nat)
    requires t < |s.pcs| && s.holder == Some(t) && t == Consumer(q)
    ensures Local(s, DoDequeue(s, t, q, max), t)
  {
  }

  lemma {:induction false} PollIsLocal(s: State, t: nat, flags: Events, timed: bool)
    requires t < |s.pcs| && s.holder == Some(t) && t == 0
    ensures Local(s, DoPoll(s, t, flags, timed), t)
  {
  }

  /** A critical section moves its own thread only, keeps the lock, and leaves the thread with
      nothing to do if it is about to sleep. */
  lemma {:induction false} CriticalIsLocal(s: State, t: nat, job: Job)
    requires t < |s.pcs| && s.holder == Some(t) && Role(t, job)
    ensures Local(s, Critical(s, t, job), t)
  {
    match job
    case Enqueue(_, _) =>
    case Close =>
    case Dequeue(q, max) => DequeueIsLocal(s, t, q, max);
    case WaitEvent(flags, timed) => PollIsLocal(s, t, flags, timed);
  }

  /** No critical section but the transport thread's own can empty app_recv_queue, so none makes
      another thread's job ready without owing a broadcast. */
  lemma {:induction false} ReadyIsOwed(s: State, t: nat, job: Job, u: nat, other: Job)
    requires t < |s.pcs| && u != t && Role(t, job) && Role(u, other)
    requires Ready(Critical(s, t, job), other)
    ensures Ready(s, other) || OwesBroadcast(Critical(s, t, job).pcs[t])
  {
  }

  /** A critical section leaves the head that another thread's partial dequeue works on. */
  lemma {:induction false} OtherHeadStays(s: State, t: nat, job: Job, u: nat, pc: PC)
    requires t < |s.pcs| && u != t && Role(t, job) && HeadStays(s, u, pc)
    ensures HeadStays(Critical(s, t, job), u, pc)
  {
    match job
    case Enqueue(q, data) => HeadStaysOnEnqueue(s, t, q, data, u, pc);
    case Close =>
    case Dequeue(q, max) => HeadStaysOnDequeue(s, t, q, max, u, pc);
    case WaitEvent(_, _) =>
  }

  lemma {:induction false} HeadStaysOnEnqueue(s: State, t: nat, q: QueueId, data: Bytes, u: nat, pc: PC)
    requires t < |s.pcs| && HeadStays(s, u, pc)
    ensures HeadStays(DoEnqueue(s, t, q, data), u, pc)
  {
  }

  lemma {:induction false} HeadStaysOnDequeue(s: State, t: nat, q: QueueId, max: nat, u: nat, pc: PC)
    requires t < |s.pcs| && u != t && t == Consumer(q) && HeadStays(s, u, pc)
    ensures HeadStays(DoDequeue(s, t, q, max), u, pc)
  {
  }

  lemma {:induction false} ActKeeps(s: State, t: nat)
    requires Inv(s) && Enabled(s, Act(t))
    ensures Inv(Move(s, Act(t)))
  {
    var s', pc := Move(s, Act(t)), s.pcs[t];
    assert ThreadInv(s, t);
    if pc.Locked? {
      CriticalIsLocal(s, t, pc.job);
      forall u | 0 <= u < |s.pcs| && u != t
        ensures HeadStays(s', u, s.pcs[u])
        ensures s.pcs[u].Asleep? && Ready(s', s.pcs[u].job) ==>
                  Ready(s, s.pcs[u].job) || OwesBroadcast(s'.pcs[t])
      {
        assert ThreadInv(s, u);
        OtherHeadStays(s, t, pc.job, u, s.pcs[u]);
        if s.pcs[u].Asleep? && Ready(s', s.pcs[u].job) {
          ReadyIsOwed(s, t, pc.job, u, s.pcs[u].job);
        }
      }
    } else {
      OthersKeepHeads(s, s', t);
    }
    OneThreadMoves(s, s', t);
  }

  lemma {:induction false} OthersKeepHeads(s: State, s': State, t: nat)
    requires Inv(s) && s'.appRecv == s.appRecv && s'.netRecv == s.netRecv && s'.appSend == s.appSend
    ensures forall u :: 0 <= u < |s.pcs| && u != t ==> HeadStays(s', u, s.pcs[u])
  {
    forall u | 0 <= u < |s.pcs| && u != t
      ensures HeadStays(s', u, s.pcs[u])
    {
      assert ThreadInv(s, u);
    }
  }

  /** The copy after the unlock shortens the head and never empties the queue, so that no job
      becomes ready or stops being so, although the lock is not held. */
  lemma {:induction false} CopyKeeps(s: State, t: nat)
    requires Inv(s) && Enabled(s, Copy(t))
    ensures Inv(Move(s, Copy(t)))
    ensures var q := s.pcs[t].queue;
            Contents(Move(s, Copy(t)), q) == [s.pcs[t].head[s.pcs[t].max..]] + Contents(s, q)[1..]
  {
    var s' := Move(s, Copy(t));
    assert ThreadInv(s, t);
    forall u | 0 <= u < |s.pcs| && u != t
      ensures HeadStays(s', u, s.pcs[u])
    {
      assert ThreadInv(s, u);
    }
    OneThreadMoves(s, s', t);
  }

  lemma {:induction false} MoveKeeps(s: State, a: Action)
    requires Inv(s) && Enabled(s, a) && !a.Act? && !a.Broadcast? && !a.Copy?
    ensures Inv(Move(s, a))
  {
    var s' := Move(s, a);
    assert ThreadInv(s, a.t);
    OthersKeepHeads(s, s', a.t);
    OneThreadMoves(s, s', a.t);
  }

  lemma {:induction false} StepKeeps(s: State, a: Action)
    requires Inv(s)
    ensures Inv(Step(s, a))
  {
    if Enabled(s, a) {
      match a
      case Act(t) => ActKeeps(s, t);
      case Broadcast(t) => BroadcastKeeps(s, t);
      case Copy(t) => CopyKeeps(s, t);
      case _ => MoveKeeps(s, a);
    }
  }

  lemma {:induction false} InvHolds(threads: nat, actions: seq<Action>)
    ensures Inv(Run(threads, actions))
  {
    if actions == [] {
      forall t | 0 <= t < threads
        ensures ThreadInv(Init(threads), t) && Init(threads).pcs[t].Idle?
      {
      }
    } else {
      InvHolds(threads, actions[..|actions| - 1]);
      StepKeeps(Run(threads, actions[..|actions| - 1]), actions[|actions| - 1]);
    }
  }

  /** What the job waits for has come true: its queue is not empty, or there is data that it
      asked for, or a close request with app_recv_queue drained. */
  predicate HasCome(s: State, job: Job) {
    match job
    case Dequeue(AppRecv, _) => s.appRecv != []
    case Dequeue(NetRecv, _) => s.netRecv != []
    case Dequeue(AppSend, _) => s.appSend != []
    case WaitEvent(flags, _) =>
      || (flags.appData && s.appRecv != []) || (flags.networkData && s.netRecv != [])
      || (s.closeRequested && s.appRecv == [])
    case _ => true
  }

  lemma {:induction false} HasComeIsReady(s: State, job: Job)
    ensures HasCome(s, job) <==> Ready(s, job)
  {
  }

  lemma {:induction false} RunThen(threads: nat, actions: seq<Action>, a: Action)
    ensures Run(threads, actions + [a]) == Step(Run(threads, actions), a)
  {
    assert (actions + [a])[..|actions|] == actions;
  }

  lemma {:induction false} BroadcastReaches(s: State, u: nat, t: nat)
    requires u < |s.pcs| && t < |s.pcs| && OwesBroadcast(s.pcs[u]) && s.pcs[t].Asleep?
    ensures Step(Step(s, Unlock(u)), Broadcast(u)).pcs == WakeAll(s.pcs[u := Idle])
    ensures WakeAll(s.pcs[u := Idle])[t] == Woken(s.pcs[t].job, false)
  {
    assert Step(s, Unlock(u)).pcs == s.pcs[u := Owing];
    assert s.pcs[u := Owing][u := Idle] == s.pcs[u := Idle];
  }

  /** No wake-up is lost: in every reachable state, when a thread sleeps although what it waits
      for has come true, some thread still owes a broadcast, and by unlocking, if it holds the
      lock, and broadcasting wakes it. The lock has at most one holder. */
  lemma {:induction false} NoLostWakeup(threads: nat, actions: seq<Action>, t: nat)
    requires t < threads
    ensures var s := Run(threads, actions);
            && |s.pcs| == threads
            && (s.pcs[t].Asleep? && HasCome(s, s.pcs[t].job) ==>
                  exists u :: 0 <= u < threads && OwesBroadcast(s.pcs[u]) &&
                              t < |Run(threads, actions + [Unlock(u)] + [Broadcast(u)]).pcs| &&
                              Run(threads, actions + [Unlock(u)] + [Broadcast(u)]).pcs[t] ==
                                Woken(s.pcs[t].job, false))
            && (forall u :: 0 <= u < threads && HoldsLock(s.pcs[t]) && HoldsLock(s.pcs[u]) ==> u == t)
  {
    ThreadCount(threads, actions);
    InvHolds(threads, actions);
    var s := Run(threads, actions);
    assert ThreadInv(s, t);
    if s.pcs[t].Asleep? && HasCome(s, s.pcs[t].job) {
      HasComeIsReady(s, s.pcs[t].job);
      var u :| 0 <= u < |s.pcs| && OwesBroadcast(s.pcs[u]);
      BroadcastReaches(s, u, t);
      RunThen(threads, actions, Unlock(u));
      RunThen(threads, actions + [Unlock(u)], Broadcast(u));
      ThreadCount(threads, actions + [Unlock(u)] + [Broadcast(u)]);
    }
    forall u | 0 <= u < threads && HoldsLock(s.pcs[t]) && HoldsLock(s.pcs[u])
      ensures u == t
    {
      assert ThreadInv(s, u);
    }
  }

  /** What the critical section of a job must have done for thread t: the whole list of effects,
      each read off the source and not off the functions above. */
  predicate JobDone(s: State, s': State, t: nat, job: Job)
    requires t < |s.pcs| == |s'.pcs|
  {
    match job
    case Enqueue(q, data) =>
      && s'.pcs[t] == Leaving(true) && s'.closeRequested == s.closeRequested
      && s'.appRecv == (if q == AppRecv then s.appRecv + [data] else s.appRecv)
      && s'.netRecv == (if q == NetRecv then s.netRecv + [data] else s.netRecv)
      && s'.appSend == (if q == AppSend then s.appSend + [data] else s.appSend)
    case Close =>
      s'.pcs[t] == Leaving(true) && s'.closeRequested && SameQueues(s, s')
    case Dequeue(q, max) =>
      && s'.closeRequested == s.closeRequested
      && var c := if q == AppRecv then s.appRecv else if q == NetRecv then s.netRecv else s.appSend;
         if c == [] then s'.pcs[t] == MustWait(job) && SameQueues(s, s')
         else if |c[0]| > max && q != NetRecv then s'.pcs[t] == Partial(q, max, c[0]) && SameQueues(s, s')
         else
           && s'.pcs[t] == Leaving(false)
           && s'.appRecv == (if q == AppRecv then c[1..] else s.appRecv)
           && s'.netRecv == (if q == NetRecv then c[1..] else s.netRecv)
           && s'.appSend == (if q == AppSend then c[1..] else s.appSend)
    case WaitEvent(flags, timed) =>
      && SameQueues(s, s') && s'.closeRequested == (s.closeRequested && s.appRecv != [])
      && s'.pcs[t] == if HasCome(s, job) then Leaving(false) else MustWait(job)
  }

  predicate SameQueues(s: State, s': State) {
    s'.appRecv == s.appRecv && s'.netRecv == s.netRecv && s'.appSend == s.appSend
  }

  lemma {:induction false} CriticalDoesJob(s: State, t: nat, job: Job)
    requires t < |s.pcs|
    ensures JobDone(s, Critical(s, t, job), t, job)
  {
    match job
    case Enqueue(_, _) =>
    case Close =>
    case Dequeue(q, max) => DequeueDoesJob(s, t, q, max);
    case WaitEvent(flags, timed) => HasComeIsReady(s, job);
  }

  lemma {:induction false} DequeueDoesJob(s: State, t: nat, q: QueueId, max: nat)
    requires t < |s.pcs|
    ensures JobDone(s, DoDequeue(s, t, q, max), t, Dequeue(q, max))
  {
  }

  /** A thread that wants the lock, or was woken, and gets it does its job: with the lock free, it
      takes it and goes through its critical section with exactly the effects of the job; in
      particular it does not go back to sleep if what it waits for has come true. */
  lemma {:induction false} FreeLockIsUsed(threads: nat, actions: seq<Action>, t: nat)
    requires t < threads && |Run(threads, actions).pcs| == threads
    requires Run(threads, actions).holder == None
    requires var pc := Run(threads, actions).pcs[t]; pc.WantLock? || (pc.Woken? && !pc.timedOut)
    ensures var s, s' := Run(threads, actions), Run(threads, actions + [Acquire(t)] + [Act(t)]);
            |s'.pcs| == threads && s'.holder == Some(t) && JobDone(s, s', t, s.pcs[t].job)
  {
    var s, job := Run(threads, actions), Run(threads, actions).pcs[t].job;
    RunThen(threads, actions, Acquire(t));
    RunThen(threads, actions + [Acquire(t)], Act(t));
    CriticalDoesJob(Step(s, Acquire(t)), t, job);
  }

  /** A sleeper may wake at any time, and one with a deadline may time out; if it then gets the
      lock, its wait ends with an empty result and nothing else changed. */
  lemma {:induction false} WaitCanEnd(threads: nat, actions: seq<Action>, t: nat)
    requires t < threads && |Run(threads, actions).pcs| == threads
    ensures var s, s' := Run(threads, actions), Run(threads, actions + [Action.Wake(t)]);
            s.pcs[t].Asleep? ==> s' == s.(pcs := s.pcs[t := Woken(s.pcs[t].job, false)])
    ensures var s, s' := Run(threads, actions), Run(threads, actions + [Timeout(t)]);
            s.pcs[t].Asleep? && s.pcs[t].job.WaitEvent? && s.pcs[t].job.timed ==>
              s' == s.(pcs := s.pcs[t := Woken(s.pcs[t].job, true)])
    ensures var s, s' := Run(threads, actions), Run(threads, actions + [Acquire(t)] + [Act(t)]);
            s.pcs[t].Woken? && s.pcs[t].timedOut && s.holder == None ==>
              s' == s.(pcs := s.pcs[t := Leaving(false)], holder := Some(t),
                       outcomes := s.outcomes + [Outcome(Events(false, false, false), true, s.written, s.taken)])
  {
    var s := Run(threads, actions);
    RunThen(threads, actions, Action.Wake(t));
    RunThen(threads, actions, Timeout(t));
    RunThen(threads, actions, Acquire(t));
    RunThen(threads, actions + [Acquire(t)], Act(t));
    if s.pcs[t].Woken? {
      assert s.pcs[t := Expired(s.pcs[t].job)][t := Leaving(false)] == s.pcs[t := Leaving(false)];
    }
  }

  /** Any thread may write and close; the transport thread waits for events and takes from its two
      queues; thread 1 takes from app_send_queue. */
  predicate MayDo(t: nat, job: Job) {
    match job
    case WaitEvent(_, _) => t == 0
    case Dequeue(queue, _) => if queue == AppSend then t == 1 else t == 0
    case _ => true
  }

  /** A thread that is done gives up the lock and then broadcasts if it owes that; a partial dequeue
      gives it up before its copy; one with nothing to do gives it up and sleeps; and an idle one
      may take any job that is open to it. */
  lemma {:induction false} LockIsReleased(threads: nat, actions: seq<Action>, t: nat, job: Job)
    requires t < threads && |Run(threads, actions).pcs| == threads
    ensures var s, s' := Run(threads, actions), Run(threads, actions + [Unlock(t)]);
            && (s.pcs[t] == Leaving(true) ==> s' == s.(pcs := s.pcs[t := Owing], holder := None))
            && (s.pcs[t] == Leaving(false) ==> s' == s.(pcs := s.pcs[t := Idle], holder := None))
            && (s.pcs[t].Partial? ==>
                  var pc := s.pcs[t];
                  s' == s.(pcs := s.pcs[t := Copying(pc.queue, pc.max, pc.head)], holder := None))
    ensures var s, s' := Run(threads, actions), Run(threads, actions + [Sleep(t)]);
            s.pcs[t].MustWait? ==> s' == s.(pcs := s.pcs[t := Asleep(s.pcs[t].job)], holder := None)
    ensures var s, s' := Run(threads, actions), Run(threads, actions + [Start(t, job)]);
            s.pcs[t].Idle? && MayDo(t, job) ==> s' == s.(pcs := s.pcs[t := WantLock(job)])
  {
    RunThen(threads, actions, Unlock(t));
    RunThen(threads, actions, Sleep(t));
    RunThen(threads, actions, Start(t, job));
  }

  lemma {:induction false} ThreadCount(threads: nat, actions: seq<Action>)
    ensures |Run(threads, actions).pcs| == threads
  {
    if actions != [] {
      ThreadCount(threads, actions[..|actions| - 1]);
    }
  }

  /** The copy outside the lock is safe: in every reachable state a thread between the unlock and
      the copy of a partial dequeue is the queue's only consumer, finds the very head it saw
      under the lock, and by shortening it leaves exactly what an atomic dequeue would have
      left, followed by what was appended meanwhile. */
  lemma {:induction false} UnlockedCopyIsSafe(threads: nat, actions: seq<Action>, t: nat)
    requires t < threads
    ensures var s := Run(threads, actions);
            && |s.pcs| == threads
            && (s.pcs[t].Copying? ==>
                  var q, max, head := s.pcs[t].queue, s.pcs[t].max, s.pcs[t].head;
                  && t == Consumer(q) && Contents(s, q) != [] && Contents(s, q)[0] == head
                  && max < |head|
                  && Contents(Step(s, Copy(t)), q) == [head[max..]] + Contents(s, q)[1..])
  {
    ThreadCount(threads, actions);
    InvHolds(threads, actions);
    var s := Run(threads, actions);
    assert ThreadInv(s, t);
    if s.pcs[t].Copying? {
      CopyKeeps(s, t);
      assert Step(s, Copy(t)) == Move(s, Copy(t));
    }
  }

  // ---------- Why app_recv_queue needs one consumer ----------

  function FreeStep(s: State, a: Action): State {
    if CanMove(s, a) then Move(s, a) else s
  }

  /** Runs in which any thread may take any job. A copy works on whatever head it then finds. */
  function FreeRun(threads: nat, actions: seq<Action>): State {
    if actions == [] then Init(threads)
    else FreeStep(FreeRun(threads, actions[..|actions| - 1]), actions[|actions| - 1])
  }

  lemma {:induction false} Then(threads: nat, run: seq<Action>, a: Action, s: State)
    requires FreeRun(threads, run) == s
    ensures FreeRun(threads, run + [a]) == FreeStep(s, a)
  {
    assert (run + [a])[..|run + [a]| - 1] == run;
  }

  /** Thread 1 runs a job that ends in a broadcast, with nobody asleep. */
  function Turn(job: Job): seq<Action> {
    [Start(1, job), Acquire(1), Act(1), Unlock(1), Broadcast(1)]
  }

  lemma {:induction false} LockTaken(run: seq<Action>, s: State, t: nat, job: Job)
    requires FreeRun(2, run) == s && t < |s.pcs| && s.pcs[t].Idle? && s.holder == None
    ensures FreeRun(2, run + [Start(t, job), Acquire(t)]) ==
            s.(pcs := s.pcs[t := Locked(job)], holder := Some(t))
  {
    Then(2, run, Start(t, job), s);
    Then(2, run + [Start(t, job)], Acquire(t), Goto(s, t, WantLock(job)));
    assert run + [Start(t, job)] + [Acquire(t)] == run + [Start(t, job), Acquire(t)];
  }

  lemma {:induction false} LeaveAndBroadcast(run: seq<Action>, s: State)
    requires FreeRun(2, run) == s && s.pcs == [Idle, Leaving(true)]
    ensures FreeRun(2, run + [Unlock(1), Broadcast(1)]) == s.(pcs := [Idle, Idle], holder := None)
  {
    Then(2, run, Unlock(1), s);
    var owing := s.(pcs := [Idle, Owing], holder := None);
    Then(2, run + [Unlock(1)], Broadcast(1), owing);
    assert WakeAll(owing.pcs[1 := Idle]) == [Idle, Idle];
    assert run + [Unlock(1)] + [Broadcast(1)] == run + [Unlock(1), Broadcast(1)];
  }

  lemma {:induction false} TurnOf(run: seq<Action>, job: Job, s: State, done: State)
    requires FreeRun(2, run) == s && s.pcs == [Idle, Idle] && s.holder == None
    requires Critical(s.(pcs := [Idle, Locked(job)], holder := Some(1)), 1, job) == done
    requires done.pcs == [Idle, Leaving(true)]
    ensures FreeRun(2, run + Turn(job)) == done.(pcs := [Idle, Idle], holder := None)
  {
    var run2 := run + [Start(1, job), Acquire(1)];
    LockTaken(run, s, 1, job);
    assert s.pcs[1 := Locked(job)] == [Idle, Locked(job)];
    Then(2, run2, Act(1), s.(pcs := [Idle, Locked(job)], holder := Some(1)));
    LeaveAndBroadcast(run2 + [Act(1)], done);
    assert run2 + [Act(1)] + [Unlock(1), Broadcast(1)] == run + Turn(job);
  }

  /** A write and a close by thread 1; the transport thread, not interested in data, goes to
      sleep; then thread 1, which is not the consumer, drains the queue. */
  function LosingRun(data: Bytes, max: nat): seq<Action> {
    Turn(Enqueue(AppRecv, data)) + Turn(Close)
    + [Start(0, NET_ONLY), Acquire(0), Act(0), Sleep(0)]
    + [Start(1, Dequeue(AppRecv, max)), Acquire(1), Act(1), Unlock(1)]
  }

  const NET_ONLY := WaitEvent(Events(false, true, true), false)

  lemma {:induction false} AfterWriteAndClose(data: Bytes)
    ensures FreeRun(2, Turn(Enqueue(AppRecv, data)) + Turn(Close)) ==
            State([Idle, Idle], None, [data], [], [], true, data, [], 1, false, [])
  {
    var job := Enqueue(AppRecv, data);
    var s0 := State([Idle, Idle], None, [], [], [], false, [], [], 0, false, []);
    assert FreeRun(2, []) == s0;
    var l0 := s0.(pcs := [Idle, Locked(job)], holder := Some(1));
    var d0 := l0.(pcs := [Idle, Leaving(true)], appRecv := [data], written := data);
    assert Critical(l0, 1, job) == d0;
    TurnOf([], job, s0, d0);
    assert [] + Turn(job) == Turn(job);
    var s1 := s0.(appRecv := [data], written := data);
    var l1 := s1.(pcs := [Idle, Locked(Close)], holder := Some(1));
    var d1 := l1.(pcs := [Idle, Leaving(true)], closeRequested := true, closeCalls := 1);
    TurnOf(Turn(job), Close, s1, d1);
  }

  lemma {:induction false} NothingToReport(s: State)
    requires s.pcs == [Locked(NET_ONLY), Idle] && !Ready(s, NET_ONLY)
    ensures Critical(s, 0, NET_ONLY) == s.(pcs := [MustWait(NET_ONLY), Idle])
  {
  }

  lemma {:induction false} AfterPoll(run: seq<Action>, s: State)
    requires FreeRun(2, run) == s && s.pcs == [Locked(NET_ONLY), Idle] && !Ready(s, NET_ONLY)
    ensures FreeRun(2, run + [Act(0)]) == s.(pcs := [MustWait(NET_ONLY), Idle])
  {
    Then(2, run, Act(0), s);
    NothingToReport(s);
  }

  lemma {:induction false} AfterWait(run: seq<Action>, s: State)
    requires FreeRun(2, run) == s && s.pcs == [MustWait(NET_ONLY), Idle]
    ensures FreeRun(2, run + [Sleep(0)]) == s.(pcs := [Asleep(NET_ONLY), Idle], holder := None)
  {
    Then(2, run, Sleep(0), s);
  }

  lemma {:induction false} AfterSleep(run: seq<Action>, s: State)
    requires FreeRun(2, run) == s && s.pcs == [Idle, Idle] && s.holder == None
    requires !Ready(s, NET_ONLY)
    ensures FreeRun(2, run + [Start(0, NET_ONLY), Acquire(0), Act(0), Sleep(0)]) ==
            s.(pcs := [Asleep(NET_ONLY), Idle])
  {
    var run2 := run + [Start(0, NET_ONLY), Acquire(0)];
    var locked := s.(pcs := [Locked(NET_ONLY), Idle], holder := Some(0));
    LockTaken(run, s, 0, NET_ONLY);
    assert s.pcs[0 := Locked(NET_ONLY)] == locked.pcs;
    AfterPoll(run2, locked);
    AfterWait(run2 + [Act(0)], locked.(pcs := [MustWait(NET_ONLY), Idle]));
    assert run2 + [Act(0)] + [Sleep(0)] == run + [Start(0, NET_ONLY), Acquire(0), Act(0), Sleep(0)];
  }

  lemma {:induction false} AfterDrain(run: seq<Action>, s: State, data: Bytes, max: nat)
    requires FreeRun(2, run) == s && s.pcs == [Asleep(NET_ONLY), Idle] && s.holder == None
    requires s.appRecv == [data] && |data| <= max
    ensures FreeRun(2, run + [Start(1, Dequeue(AppRecv, max)), Acquire(1), Act(1), Unlock(1)]) ==
            s.(pcs := [Asleep(NET_ONLY), Idle], appRecv := [], taken := s.taken + data)
  {
    var job := Dequeue(AppRecv, max);
    var run2 := run + [Start(1, job), Acquire(1)];
    var locked := s.(pcs := [Asleep(NET_ONLY), Locked(job)], holder := Some(1));
    LockTaken(run, s, 1, job);
    assert s.pcs[1 := Locked(job)] == locked.pcs;
    AfterTake(run2, locked, data, max);
    AfterUnlock(run2 + [Act(1)],
                locked.(pcs := [Asleep(NET_ONLY), Leaving(false)], appRecv := [], taken := s.taken + data));
    assert run2 + [Act(1)] + [Unlock(1)] == run + [Start(1, job), Acquire(1), Act(1), Unlock(1)];
  }

  lemma {:induction false} AfterTake(run: seq<Action>, s: State, data: Bytes, max: nat)
    requires FreeRun(2, run) == s && s.pcs == [Asleep(NET_ONLY), Locked(Dequeue(AppRecv, max))]
    requires s.appRecv == [data] && |data| <= max
    ensures FreeRun(2, run + [Act(1)]) ==
            s.(pcs := [Asleep(NET_ONLY), Leaving(false)], appRecv := [], taken := s.taken + data)
  {
    Then(2, run, Act(1), s);
    DrainStep(s, data, max);
  }

  lemma {:induction false} AfterUnlock(run: seq<Action>, s: State)
    requires FreeRun(2, run) == s && s.pcs == [Asleep(NET_ONLY), Leaving(false)]
    ensures FreeRun(2, run + [Unlock(1)]) == s.(pcs := [Asleep(NET_ONLY), Idle], holder := None)
  {
    Then(2, run, Unlock(1), s);
  }

  lemma {:induction false} DrainStep(s: State, data: Bytes, max: nat)
    requires s.pcs == [Asleep(NET_ONLY), Locked(Dequeue(AppRecv, max))]
    requires s.appRecv == [data] && |data| <= max
    ensures DoDequeue(s, 1, AppRecv, max) ==
            s.(pcs := [Asleep(NET_ONLY), Leaving(false)], appRecv := [], taken := s.taken + data)
  {
    assert data[..|data|] == data;
  }

  /** The restriction to one consumer is needed: this run, in which only the last job is on the
      wrong thread, ends with the transport thread asleep on a pending close event, every other
      thread idle, and no broadcast owed. */
  lemma {:induction false} SecondConsumerLosesWakeup(data: Bytes, max: nat)
    requires |data| <= max
    ensures var s := FreeRun(2, LosingRun(data, max));
            && s.pcs == [Asleep(NET_ONLY), Idle] && s.closeRequested && s.appRecv == [] && !SomeoneOwes(s)
    ensures forall a :: a in LosingRun(data, max) && a.Start? && !Role(a.t, a.job) ==>
              a == Start(1, Dequeue(AppRecv, max))
  {
    var run := Turn(Enqueue(AppRecv, data)) + Turn(Close);
    var s := State([Idle, Idle], None, [data], [], [], true, data, [], 1, false, []);
    AfterWriteAndClose(data);
    AfterSleep(run, s);
    AfterDrain(run + [Start(0, NET_ONLY), Acquire(0), Act(0), Sleep(0)],
               s.(pcs := [Asleep(NET_ONLY), Idle]), data, max);
    OnlyDrainOutOfRole(data, max);
  }

  lemma {:induction false} OnlyDrainOutOfRole(data: Bytes, max: nat)
    ensures forall a :: a in LosingRun(data, max) && a.Start? && !Role(a.t, a.job) ==>
              a == Start(1, Dequeue(AppRecv, max))
  {
  }

  // ---------- Only a drain by another thread loses a wake-up ----------

  /** The action empties app_recv_queue, by a thread other than t, while a close is pending. */
  predicate DrainsUnder(s: State, a: Action, t: nat) {
    a.t != t && s.appRecv != [] && s.closeRequested && FreeStep(s, a).appRecv == []
  }

  /** What holds in free runs as well: the lock has one holder. */
  ghost predicate LockInv(s: State) {
    forall u :: 0 <= u < |s.pcs| ==> (HoldsLock(s.pcs[u]) <==> s.holder == Some(u))
  }

  /** s' is s after a step of thread t alone, which takes the lock, keeps it or gives it up, and
      forgets no broadcast it owes. */
  ghost predicate MovedAlone(s: State, s': State, t: nat) {
    && t < |s.pcs| == |s'.pcs|
    && (forall u :: 0 <= u < |s.pcs| && u != t ==> s'.pcs[u] == s.pcs[u])
    && (s'.holder == s.holder || s.holder == None || HoldsLock(s.pcs[t]))
    && (if HoldsLock(s'.pcs[t]) then s'.holder == Some(t) || (HoldsLock(s.pcs[t]) && s'.holder == s.holder)
        else if HoldsLock(s.pcs[t]) then s'.holder == None else s'.holder == s.holder)
    && (OwesBroadcast(s.pcs[t]) ==> OwesBroadcast(s'.pcs[t]))
  }

  /** A critical section keeps the lock; its thread goes to sleep only with nothing to do. */
  lemma {:induction false} CriticalMovesAlone(s: State, t: nat, job: Job)
    requires t < |s.pcs| && s.pcs[t] == Locked(job)
    ensures var s' := Critical(s, t, job);
            MovedAlone(s, s', t) && SleepsIdle(s', s'.pcs[t])
  {
    match job
    case Enqueue(_, _) =>
    case Close =>
    case Dequeue(q, max) => DequeueMovesAlone(s, t, q, max);
    case WaitEvent(flags, timed) => PollMovesAlone(s, t, flags, timed);
  }

  predicate SleepsIdle(s: State, pc: PC) {
    !pc.Asleep? && (pc.MustWait? ==> !Ready(s, pc.job))
  }

  lemma {:induction false} DequeueMovesAlone(s: State, t: nat, q: QueueId, max: nat)
    requires t < |s.pcs| && s.pcs[t].Locked?
    ensures var s' := DoDequeue(s, t, q, max); MovedAlone(s, s', t) && SleepsIdle(s', s'.pcs[t])
  {
  }

  lemma {:induction false} PollMovesAlone(s: State, t: nat, flags: Events, timed: bool)
    requires t < |s.pcs| && s.pcs[t].Locked?
    ensures var s' := DoPoll(s, t, flags, timed); MovedAlone(s, s', t) && SleepsIdle(s', s'.pcs[t])
  {
  }

  lemma {:induction false} CopyMovesAlone(s: State, t: nat)
    requires CanMove(s, Copy(t))
    ensures var s' := Move(s, Copy(t)); MovedAlone(s, s', t) && s'.pcs[t].Idle?
  {
  }

  lemma {:induction false} MovesAlone(s: State, a: Action)
    requires CanMove(s, a) && !a.Broadcast?
    ensures MovedAlone(s, Move(s, a), a.t)
  {
    if a.Act? && s.pcs[a.t].Locked? {
      CriticalMovesAlone(s, a.t, s.pcs[a.t].job);
    } else if a.Copy? {
      CopyMovesAlone(s, a.t);
    }
  }

  lemma {:induction false} AloneKeepsLock(s: State, s': State, t: nat)
    requires LockInv(s) && MovedAlone(s, s', t)
    ensures LockInv(s')
  {
    assert HoldsLock(s.pcs[t]) <==> s.holder == Some(t);
  }

  lemma {:induction false} BroadcastKeepsLock(s: State, t: nat)
    requires LockInv(s) && CanMove(s, Broadcast(t))
    ensures LockInv(Move(s, Broadcast(t)))
  {
    var s' := Move(s, Broadcast(t));
    forall u | 0 <= u < |s'.pcs|
      ensures HoldsLock(s'.pcs[u]) <==> HoldsLock(s.pcs[u])
    {
    }
  }

  lemma {:induction false} LockKept(s: State, a: Action)
    requires LockInv(s) && CanMove(s, a)
    ensures LockInv(Move(s, a))
  {
    if a.Broadcast? {
      BroadcastKeepsLock(s, a.t);
    } else {
      MovesAlone(s, a);
      AloneKeepsLock(s, Move(s, a), a.t);
    }
  }

  /** Thread t has not been overlooked. */
  ghost predicate Attended(s: State, t: nat)
    requires t < |s.pcs|
  {
    var pc := s.pcs[t];
    && (pc.MustWait? ==> !Ready(s, pc.job))
    && (pc.Asleep? && Ready(s, pc.job) ==> SomeoneOwes(s))
  }

  /** A critical section makes a job ready only by a drain, or else it owes a broadcast. */
  lemma {:induction false} CriticalReadies(s: State, u: nat, job: Job, other: Job)
    requires u < |s.pcs| && !Ready(s, other) && Ready(Critical(s, u, job), other)
    ensures OwesBroadcast(Critical(s, u, job).pcs[u]) ||
            (s.appRecv != [] && s.closeRequested && Critical(s, u, job).appRecv == [])
  {
    match job
    case Enqueue(q, data) => EnqueueOwes(s, u, q, data);
    case Close =>
    case Dequeue(q, max) =>
      DequeueConsumes(s, u, q, max);
      ConsumerReadies(s, DoDequeue(s, u, q, max), other);
    case WaitEvent(flags, timed) =>
      PollConsumes(s, u, flags, timed);
      ConsumerReadies(s, DoPoll(s, u, flags, timed), other);
  }

  /** No queue gets its first entry, and no close is requested. */
  predicate Consumes(s: State, s': State) {
    && (s.appRecv == [] ==> s'.appRecv == []) && (s.netRecv == [] ==> s'.netRecv == [])
    && (s.appSend == [] ==> s'.appSend == []) && (s'.closeRequested ==> s.closeRequested)
  }

  lemma {:induction false} EnqueueOwes(s: State, u: nat, q: QueueId, data: Bytes)
    requires u < |s.pcs|
    ensures OwesBroadcast(DoEnqueue(s, u, q, data).pcs[u])
  {
  }

  lemma {:induction false} DequeueConsumes(s: State, u: nat, q: QueueId, max: nat)
    requires u < |s.pcs|
    ensures Consumes(s, DoDequeue(s, u, q, max))
  {
  }

  lemma {:induction false} PollConsumes(s: State, u: nat, flags: Events, timed: bool)
    requires u < |s.pcs|
    ensures Consumes(s, DoPoll(s, u, flags, timed))
  {
  }

  lemma {:induction false} ConsumerReadies(s: State, s': State, other: Job)
    requires Consumes(s, s') && !Ready(s, other) && Ready(s', other)
    ensures s.appRecv != [] && s.closeRequested && s'.appRecv == []
  {
  }

  lemma {:induction false} CopyReadies(s: State, u: nat, q: QueueId, max: nat, other: Job)
    requires u < |s.pcs| && !Ready(s, other) && Ready(DoCopy(s, u, q, max), other)
    ensures s.appRecv != [] && s.closeRequested && DoCopy(s, u, q, max).appRecv == []
  {
    ConsumerReadies(s, DoCopy(s, u, q, max), other);
  }

  /** The same for every action. */
  lemma {:induction false} ActionReadies(s: State, a: Action, other: Job)
    requires CanMove(s, a) && !Ready(s, other) && Ready(Move(s, a), other)
    ensures OwesBroadcast(Move(s, a).pcs[a.t]) ||
            (s.appRecv != [] && s.closeRequested && Move(s, a).appRecv == [])
    ensures HoldsLock(s.pcs[a.t]) || (s.appRecv != [] && s.closeRequested && Move(s, a).appRecv == [])
  {
    var pc := s.pcs[a.t];
    if a.Act? && pc.Locked? {
      CriticalReadies(s, a.t, pc.job, other);
    } else if a.Copy? {
      CopyReadies(s, a.t, pc.queue, pc.max, other);
    }
  }

  lemma {:induction false} BroadcastWakes(s: State, a: Action, t: nat)
    requires CanMove(s, a) && a.Broadcast? && t < |s.pcs|
    ensures !Move(s, a).pcs[t].Asleep? && (Move(s, a).pcs[t].MustWait? ==> Move(s, a).pcs[t] == s.pcs[t])
    ensures forall job :: Ready(Move(s, a), job) <==> Ready(s, job)
  {
  }

  /** A broadcast owed stays owed until it is given, which wakes every sleeper. */
  lemma {:induction false} DebtStays(s: State, s': State, t: nat)
    requires MovedAlone(s, s', t) && SomeoneOwes(s)
    ensures SomeoneOwes(s')
  {
    var w :| 0 <= w < |s.pcs| && OwesBroadcast(s.pcs[w]);
    assert OwesBroadcast(s'.pcs[w]);
  }

  lemma {:induction false} OwnStepAttended(s: State, a: Action)
    requires CanMove(s, a) && Attended(s, a.t)
    ensures Attended(Move(s, a), a.t)
  {
    var pc := s.pcs[a.t];
    if a.Act? && pc.Locked? {
      CriticalMovesAlone(s, a.t, pc.job);
    } else if a.Copy? {
      CopyMovesAlone(s, a.t);
    } else if a.Broadcast? {
      BroadcastWakes(s, a, a.t);
    } else if a.Sleep? {
      SleepAttended(s, a.t);
    } else {
      assert !Move(s, a).pcs[a.t].MustWait? && !Move(s, a).pcs[a.t].Asleep?;
    }
  }

  lemma {:induction false} SleepAttended(s: State, t: nat)
    requires CanMove(s, Sleep(t)) && Attended(s, t)
    ensures Attended(Move(s, Sleep(t)), t)
  {
  }

  lemma {:induction false} OtherStepAttended(s: State, a: Action, t: nat)
    requires CanMove(s, a) && LockInv(s) && t < |s.pcs| && a.t != t
    requires Attended(s, t) && !DrainsUnder(s, a, t)
    ensures Attended(Move(s, a), t)
  {
    if a.Broadcast? {
      BroadcastWakes(s, a, t);
    } else {
      MovesAlone(s, a);
      StillAttended(s, a, t);
    }
  }

  lemma {:induction false} StillAttended(s: State, a: Action, t: nat)
    requires CanMove(s, a) && LockInv(s) && t < |s.pcs| && a.t != t && MovedAlone(s, Move(s, a), a.t)
    requires Attended(s, t) && !DrainsUnder(s, a, t)
    ensures Attended(Move(s, a), t)
  {
    var s', pc := Move(s, a), s.pcs[t];
    assert s'.pcs[t] == pc;
    if (pc.MustWait? || pc.Asleep?) && Ready(s', pc.job) {
      if Ready(s, pc.job) {
        DebtStays(s, s', a.t);
      } else {
        ActionReadies(s, a, pc.job);
        assert HoldsLock(s.pcs[a.t]) && OwesBroadcast(s'.pcs[a.t]);
      }
    }
  }

  lemma {:induction false} FreeLock(threads: nat, actions: seq<Action>)
    ensures var s := FreeRun(threads, actions); |s.pcs| == threads && LockInv(s)
  {
    if actions != [] {
      FreeLock(threads, actions[..|actions| - 1]);
      var s, a := FreeRun(threads, actions[..|actions| - 1]), actions[|actions| - 1];
      if CanMove(s, a) {
        LockKept(s, a);
      }
    }
  }

  /** The action of another thread that drains app_recv_queue under a pending close, and by it
      overlooks thread t, which nobody had overlooked before. */
  ghost predicate Overlooks(s: State, a: Action, t: nat) {
    && t < |s.pcs| && CanMove(s, a) && DrainsUnder(s, a, t)
    && Attended(s, t) && !Attended(Move(s, a), t)
  }

  ghost predicate Overlooked(threads: nat, actions: seq<Action>, t: nat) {
    exists i :: 0 <= i < |actions| && Overlooks(FreeRun(threads, actions[..i]), actions[i], t)
  }

  /** With any number of consumers: if a thread sleeps although what it waits for has come true,
      and no broadcast is owed, then the step that overlooked it was one in which another thread
      emptied app_recv_queue while a close was pending. Nothing else loses a wake-up. */
  lemma {:induction false} OnlyDrainsLoseWakeups(threads: nat, actions: seq<Action>, t: nat)
    requires t < threads
    ensures var s := FreeRun(threads, actions);
            && |s.pcs| == threads
            && (s.pcs[t].Asleep? && HasCome(s, s.pcs[t].job) && !SomeoneOwes(s) ==>
                  Overlooked(threads, actions, t))
  {
    var s := FreeRun(threads, actions);
    FreeLock(threads, actions);
    if s.pcs[t].Asleep? {
      HasComeIsReady(s, s.pcs[t].job);
    }
    AttendedOrOverlooked(threads, actions, t);
  }

  lemma {:induction false} StepOverlooks(s: State, a: Action, t: nat)
    requires LockInv(s) && t < |s.pcs| && CanMove(s, a) && Attended(s, t)
    ensures Attended(Move(s, a), t) || Overlooks(s, a, t)
  {
    if a.t == t {
      OwnStepAttended(s, a);
    } else if !DrainsUnder(s, a, t) {
      OtherStepAttended(s, a, t);
    }
  }

  lemma {:induction false} AttendedOrOverlooked(threads: nat, actions: seq<Action>, t: nat)
    requires t < threads
    ensures var s := FreeRun(threads, actions);
            |s.pcs| == threads && (Attended(s, t) || Overlooked(threads, actions, t))
  {
    FreeLock(threads, actions);
    if actions != [] {
      var last := |actions| - 1;
      var s, a := FreeRun(threads, actions[..last]), actions[last];
      AttendedOrOverlooked(threads, actions[..last], t);
      FreeLock(threads, actions[..last]);
      if Overlooked(threads, actions[..last], t) {
        OverlookedBefore(threads, actions, t);
      } else if CanMove(s, a) {
        StepOverlooks(s, a, t);
      }
    }
  }

  lemma {:induction false} OverlookedBefore(threads: nat, actions: seq<Action>, t: nat)
    requires actions != [] && Overlooked(threads, actions[..|actions| - 1], t)
    ensures Overlooked(threads, actions, t)
  {
    var pre := actions[..|actions| - 1];
    var i :| 0 <= i < |pre| && Overlooks(FreeRun(threads, pre[..i]), pre[i], t);
    assert pre[..i] == actions[..i];
  }
}
