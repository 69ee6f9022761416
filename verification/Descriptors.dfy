/** The mysocket descriptor table and the life of one context (mysock.c, stcp_api.c). */
module Descriptors {
  import opened Common

  /** MAX_NUM_CONNECTIONS (mysock.h) */
  const MAX_CONNECTIONS := 64

  const EINTR := 4
  const ECONNABORTED := 103
  const ECONNREFUSED := 111

  /** The lowest free index of a table, or -1 when it is full. */
  function FreeDescriptor<T>(table: seq<Option<T>>): (k: int)
    ensures -1 <= k < |table|
    ensures k >= 0 ==> table[k].None? && forall i :: 0 <= i < k ==> table[i].Some?
    ensures k == -1 ==> forall i :: 0 <= i < |table| ==> table[i].Some?
  {
    FreeFrom(table, 0)
  }

  function FreeFrom<T>(table: seq<Option<T>>, from: nat): (k: int)
    requires from <= |table|
    ensures -1 <= k < |table|
    ensures k >= 0 ==> k >= from && table[k].None? && forall i :: from <= i < k ==> table[i].Some?
    ensures k == -1 ==> forall i :: from <= i < |table| ==> table[i].Some?
    decreases |table| - from
  {
    if from == |table| then -1 else if table[from].None? then from else FreeFrom(table, from + 1)
  }

  // ---------- Two allocations at once ----------

  /** The table after two allocations, and the descriptors they returned. */
  datatype Created<T> = Created(table: seq<Option<T>>, first: int, second: int)

  function Stored<T>(table: seq<Option<T>>, k: int, ctx: T): seq<Option<T>>
    requires k < |table|
  {
    if k < 0 then table else table[k := Some(ctx)]
  }

  function OneAfterTheOther<T>(table: seq<Option<T>>, a: T, b: T): Created<T> {
    var k := FreeDescriptor(table);
    var after := Stored(table, k, a);
    var j := FreeDescriptor(after);
    Created(Stored(after, j, b), k, j)
  }

  /** _mysock_new_mysocket takes no lock: both search (mysock.c:54-56) before either stores
      (mysock.c:58-59). */
  function BothSearchFirst<T>(table: seq<Option<T>>, a: T, b: T): Created<T> {
    var k := FreeDescriptor(table);
    Created(Stored(Stored(table, k, a), k, b), k, k)
  }

  /** One after the other, two allocations that succeed get descriptors of their own, and the
      table holds both contexts. When both search first, they share a descriptor whenever there is
      one, and the first context is in the table no more. */
  lemma {:induction false} OverlapSharesDescriptor<T>(table: seq<Option<T>>, a: T, b: T)
    requires a != b && Some(a) !in table && Some(b) !in table
    ensures var r := OneAfterTheOther(table, a, b);
            && (r.first >= 0 ==> r.table[r.first] == Some(a) && r.first != r.second)
            && (r.second >= 0 ==> r.first >= 0 && r.table[r.second] == Some(b))
    ensures var r := BothSearchFirst(table, a, b);
            && r.first == r.second && Some(a) !in r.table
            && (r.first >= 0 <==> None in table) && (r.first >= 0 ==> r.table[r.first] == Some(b))
  {
    var k := FreeDescriptor(table);
    if k >= 0 {
      assert table[k] in table;
      assert Stored(table, k, a)[k] == Some(a);
      assert Stored(Stored(table, k, a), k, b) == table[k := Some(b)];
    }
  }

  // ---------- One context ----------

  /** What transport_init did: the error with which it unblocked the application, if it did,
      and errno when it returned. */
  datatype InitOutcome = InitOutcome(unblockedWith: Option<nat>, errno: nat)

  /** The error the application finds: an EINTR counts as success (stcp_api.c:38-39), and a
      connection never announced gets the transport's error or else a default. */
  function FinalError(o: InitOutcome, isActive: bool): nat {
    match o.unblockedWith
    case Some(e) => if e == EINTR then 0 else e
    case None =>
      if o.errno != 0 && o.errno != EINTR then o.errno
      else if isActive then ECONNREFUSED else ECONNABORTED
  }

  /** mysock_context_t, as calloc leaves it: my_sd is 0 before a descriptor is assigned. */
  class Context {
    var mySd: int
    var isActive: bool
    var blocking: bool
    var stcpErrno: nat
    var eofMarkers: nat
    var completions: nat    // calls of _mysock_passive_connection_complete
    ghost var unblocked: nat

    constructor ()
      ensures mySd == 0 && blocking && stcpErrno == 0 && eofMarkers == completions == unblocked == 0
    {
      mySd, isActive, blocking, stcpErrno := 0, false, true, 0;
      eofMarkers, completions, unblocked := 0, 0, 0;
    }

    /** stcp_api.c:28-48. */
    method UnblockApplication(errno: nat)
      requires blocking
      modifies this`blocking, this`stcpErrno, this`unblocked, this`completions
      ensures !blocking && unblocked == old(unblocked) + 1
      ensures stcpErrno == if errno == EINTR then 0 else errno
      ensures completions == old(completions) + if isActive then 0 else 1
    {
      blocking := false;
      stcpErrno := errno;
      if stcpErrno == EINTR {
        stcpErrno := 0;
      }
      unblocked := unblocked + 1;
      if !isActive {
        completions := completions + 1;
      }
    }

    /** transport_thread_func (mysock.c:343-393), for a transport_init that unblocks the
        application at most once. */
    method TransportThread(o: InitOutcome)
      requires blocking
      modifies this`blocking, this`stcpErrno, this`unblocked, this`completions, this`eofMarkers
      ensures !blocking && unblocked == old(unblocked) + 1
      ensures stcpErrno == FinalError(o, isActive) != EINTR
      ensures o.unblockedWith.Some? ==>
                stcpErrno == if o.unblockedWith.value == EINTR then 0 else o.unblockedWith.value
      ensures o.unblockedWith == None && o.errno != 0 && o.errno != EINTR ==> stcpErrno == o.errno
      ensures o.unblockedWith == None && (o.errno == 0 || o.errno == EINTR) ==>
                stcpErrno == if isActive then ECONNREFUSED else ECONNABORTED
      ensures o.unblockedWith == None ==> stcpErrno != 0
      ensures completions == old(completions) + if isActive then 0 else 1
      ensures eofMarkers == old(eofMarkers) + 1
    {
      match o.unblockedWith {
        case Some(e) => UnblockApplication(e);
        case None =>
      }
      if blocking {
        var errno := o.errno;
        if errno == 0 || errno == EINTR {
          errno := if isActive then ECONNREFUSED else ECONNABORTED;
        }
        UnblockApplication(errno);
      }
      eofMarkers := eofMarkers + 1;
    }
  }

  class DescriptorTable {
    const entries: array<Context?>

    /** Every live context sits at its own index. */
    ghost predicate Valid()
      reads this, entries, set c | c in entries[..]
    {
      && entries.Length == MAX_CONNECTIONS
      && forall k :: 0 <= k < entries.Length && entries[k] != null ==> entries[k].mySd == k
    }

    constructor ()
      ensures Valid() && fresh(entries)
      ensures forall k :: 0 <= k < MAX_CONNECTIONS ==> entries[k] == null
    {
      entries := new Context?[MAX_CONNECTIONS](_ => null);
    }

    /** mysock.c:39-67. */
    method NewMysocket() returns (sd: int)
      requires Valid()
      modifies entries
      ensures Valid() && -1 <= sd < MAX_CONNECTIONS
      ensures sd >= 0 ==>
                && old(entries[sd]) == null && (forall k :: 0 <= k < sd ==> old(entries[k]) != null)
                && entries[sd] != null && fresh(entries[sd]) && entries[sd].blocking
                && entries[..] == old(entries[..])[sd := entries[sd]]
      ensures sd == -1 ==> entries[..] == old(entries[..])
      ensures sd == -1 <==> forall k :: 0 <= k < MAX_CONNECTIONS ==> old(entries[k]) != null
    {
      var ctx := new Context();
      for k := 0 to MAX_CONNECTIONS
        invariant forall i :: 0 <= i < k ==> entries[i] != null
        invariant entries[..] == old(entries[..]) && Valid()
      {
        if entries[k] == null {
          entries[k] := ctx;
          ctx.mySd := k;
          return k;
        }
      }
      FreeContext(ctx);
      return -1;
    }

    /** mysock.c:308-338. The guard keeps a context that never got a descriptor, whose my_sd is
        still 0, from clearing the entry of another. */
    method FreeContext(ctx: Context)
      requires Valid() && 0 <= ctx.mySd < MAX_CONNECTIONS
      modifies entries, ctx
      ensures Valid() && ctx !in entries[..]
      ensures entries[..] == if old(entries[ctx.mySd]) == ctx then old(entries[..])[old(ctx.mySd) := null]
                             else old(entries[..])
    {
      var sd := ctx.mySd;
      if entries[sd] == ctx {
        entries[sd] := null;
      }
      ctx.mySd := 0;
    }

    /** _mysock_get_context (mysock.c:72-77) with its checks (mysock.c:400-411). */
    method GetContext(sd: int) returns (ctx: Context?)
      requires Valid()
      ensures ctx != null <==> 0 <= sd < MAX_CONNECTIONS && entries[sd] != null
      ensures ctx != null ==> entries[sd] == ctx && ctx.mySd == sd
    {
      ctx := if 0 <= sd < MAX_CONNECTIONS then entries[sd] else null;
    }
  }
}
