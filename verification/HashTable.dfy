/** The chained hash table of mysock_hash.h, generic in the hash function. Insertion does not
    look for duplicates, so the table maps each key to a stack of values. */
module HashTable {
  import opened Common

  // ---------- One chain as a sequence of pairs ----------

  /** The values stored under a key, most recent first. */
  function Values<K(==), V>(chain: seq<(K, V)>, key: K): seq<V> {
    if chain == [] then []
    else (if chain[0].0 == key then [chain[0].1] else []) + Values(chain[1..], key)
  }

  /** The position of the first entry with the key, or the length of the chain. */
  function Find<K(==), V>(chain: seq<(K, V)>, key: K): (i: nat)
    ensures i <= |chain| && forall j :: 0 <= j < i ==> chain[j].0 != key
    ensures i < |chain| ==> chain[i].0 == key
  {
    if chain == [] || chain[0].0 == key then 0 else 1 + Find(chain[1..], key)
  }

  function RemoveAt<T>(s: seq<T>, i: nat): seq<T> {
    if i < |s| then s[..i] + s[i + 1..] else s
  }

  lemma {:induction false} FindIsTop<K, V>(chain: seq<(K, V)>, key: K)
    ensures Find(chain, key) == |chain| <==> Values(chain, key) == []
    ensures Find(chain, key) < |chain| ==> Values(chain, key)[..1] == [chain[Find(chain, key)].1]
  {
    if chain != [] && chain[0].0 != key {
      FindIsTop(chain[1..], key);
    }
  }

  /** Unlinking the first entry of a key pops its stack and leaves every other stack alone. */
  lemma {:induction false} RemovePops<K, V>(chain: seq<(K, V)>, key: K, other: K)
    requires Find(chain, key) < |chain|
    ensures Values(chain, key) != []
    ensures Values(RemoveAt(chain, Find(chain, key)), other) ==
            if other == key then Values(chain, key)[1..] else Values(chain, other)
  {
    var i := Find(chain, key);
    if i == 0 {
      assert RemoveAt(chain, 0) == chain[1..];
    } else {
      RemovePops(chain[1..], key, other);
      RemoveBehind(chain, i);
      ValuesOf(chain[0], RemoveAt(chain[1..], i - 1), other);
      ValuesOf(chain[0], chain[1..], other);
      assert chain == [chain[0]] + chain[1..];
    }
  }

  lemma {:induction false} ValuesOf<K, V>(pair: (K, V), chain: seq<(K, V)>, key: K)
    ensures Values([pair] + chain, key) == (if pair.0 == key then [pair.1] else []) + Values(chain, key)
  {
    assert ([pair] + chain)[1..] == chain;
  }

  lemma {:induction false} RemoveBehind<T>(s: seq<T>, i: nat)
    requires 0 < i < |s|
    ensures RemoveAt(s, i) == [s[0]] + RemoveAt(s[1..], i - 1)
  {
  }

  lemma {:induction false} ReplaceTop<K, V>(chain: seq<(K, V)>, key: K, v: V, other: K)
    requires Find(chain, key) < |chain|
    ensures Values(chain, key) != []
    ensures Values(chain[Find(chain, key) := (key, v)], other) ==
            if other == key then [v] + Values(chain, key)[1..] else Values(chain, other)
  {
    var i := Find(chain, key);
    if i == 0 {
      assert chain[0 := (key, v)][1..] == chain[1..];
    } else {
      ReplaceTop(chain[1..], key, v, other);
      assert chain[i := (key, v)][1..] == chain[1..][i - 1 := (key, v)];
      assert Values(chain, key) == Values(chain[1..], key);
      var head := if chain[0].0 == other then [chain[0].1] else [];
      assert Values(chain[i := (key, v)], other) == head + Values(chain[1..][i - 1 := (key, v)], other);
      assert Values(chain, other) == head + Values(chain[1..], other);
    }
  }

  // ---------- The whole table ----------

  type Chains<K, V> = seq<seq<(K, V)>>

  function Stack<K(==), V>(hash: K -> nat, m: Chains<K, V>, key: K): seq<V>
    requires hash(key) < |m|
  {
    Values(m[hash(key)], key)
  }

  function Pushed<K(==), V>(hash: K -> nat, m: Chains<K, V>, key: K, v: V): (r: Chains<K, V>)
    requires hash(key) < |m|
    ensures |r| == |m|
  {
    m[hash(key) := [(key, v)] + m[hash(key)]]
  }

  function Popped<K(==), V>(hash: K -> nat, m: Chains<K, V>, key: K): (r: Chains<K, V>)
    requires hash(key) < |m|
    ensures |r| == |m|
  {
    m[hash(key) := RemoveAt(m[hash(key)], Find(m[hash(key)], key))]
  }

  function Replaced<K(==), V>(hash: K -> nat, m: Chains<K, V>, key: K, v: V): (r: Chains<K, V>)
    requires hash(key) < |m|
    ensures |r| == |m|
  {
    var c := m[hash(key)];
    if Find(c, key) < |c| then m[hash(key) := c[Find(c, key) := (key, v)]] else Pushed(hash, m, key, v)
  }

  /** Insert pushes, delete pops and set replaces the top; other keys are untouched, whether or
      not they share the bucket. */
  lemma {:induction false} StackLaws<K, V>(hash: K -> nat, m: Chains<K, V>, key: K, v: V, k: K)
    requires hash(key) < |m| && hash(k) < |m|
    ensures Stack(hash, Pushed(hash, m, key, v), k) ==
            if k == key then [v] + Stack(hash, m, key) else Stack(hash, m, k)
    ensures Stack(hash, Popped(hash, m, key), k) ==
            if k == key && Stack(hash, m, k) != [] then Stack(hash, m, k)[1..] else Stack(hash, m, k)
    ensures Stack(hash, Replaced(hash, m, key, v), k) ==
            if k != key then Stack(hash, m, k)
            else if Stack(hash, m, k) == [] then [v] else [v] + Stack(hash, m, k)[1..]
  {
    var c := m[hash(key)];
    assert ([(key, v)] + c)[1..] == c;
    FindIsTop(c, key);
    if Find(c, key) < |c| {
      RemovePops(c, key, k);
      ReplaceTop(c, key, v, k);
    }
  }

  // ---------- The code ----------

  class Entry<K, V> {
    const key: K
    var data: V
    var next: Entry?<K, V>

    constructor (key: K, data: V, next: Entry?<K, V>)
      ensures this.key == key && this.data == data && this.next == next
    {
      this.key, this.data, this.next := key, data, next;
    }
  }

  /** The entries form the chain that starts at head, and hold the pairs. */
  ghost predicate Linked<K, V>(head: Entry?<K, V>, nodes: seq<Entry<K, V>>, pairs: seq<(K, V)>)
    reads nodes
  {
    && |nodes| == |pairs|
    && head == (if nodes == [] then null else nodes[0])
    && (forall i {:trigger nodes[i].next} :: 0 <= i < |nodes| ==>
          nodes[i].next == if i + 1 < |nodes| then nodes[i + 1] else null)
    && (forall i :: 0 <= i < |nodes| ==> nodes[i].key == pairs[i].0 && nodes[i].data == pairs[i].1)
    && (forall i, j :: 0 <= i < j < |nodes| ==> nodes[i] != nodes[j])
  }

  /** A chain whose i-th node is bypassed is linked without it. */
  lemma {:induction false} Bypassed<K, V>(head: Entry?<K, V>, nodes: seq<Entry<K, V>>, pairs: seq<(K, V)>, i: nat)
    requires |nodes| == |pairs| && 0 < i < |nodes| && head == nodes[0]
    requires forall j {:trigger nodes[j].next} :: 0 <= j < |nodes| ==>
               var k := if j == i - 1 then i + 1 else j + 1;
               nodes[j].next == if k < |nodes| then nodes[k] else null
    requires forall j :: 0 <= j < |nodes| ==> nodes[j].key == pairs[j].0 && nodes[j].data == pairs[j].1
    requires forall j, k :: 0 <= j < k < |nodes| ==> nodes[j] != nodes[k]
    ensures Linked(head, RemoveAt(nodes, i), RemoveAt(pairs, i))
  {
  }

  /** A new node in front of a chain. */
  lemma {:induction false} Prepended<K, V>(e: Entry<K, V>, head: Entry?<K, V>, nodes: seq<Entry<K, V>>, pairs: seq<(K, V)>)
    requires Linked(head, nodes, pairs) && e !in nodes && e.next == head
    ensures Linked(e, [e] + nodes, [(e.key, e.data)] + pairs)
  {
  }

  class Table<K(!new, ==), V> {
    const hash: K -> nat
    const buckets: array<Entry?<K, V>>
    ghost var nodes: seq<seq<Entry<K, V>>>
    ghost var model: Chains<K, V>
    ghost var Repr: set<Entry<K, V>>

    ghost predicate Valid()
      reads this, buckets, Repr
    {
      && |nodes| == |model| == buckets.Length
      && (forall k :: hash(k) < buckets.Length)
      && (forall b :: 0 <= b < buckets.Length ==> BucketOk(b))
    }

    /** One bucket: its chain, whose keys all hash to it. */
    ghost predicate BucketOk(b: nat)
      requires b < |nodes| == |model| == buckets.Length
      reads this, buckets, Repr
    {
      && (forall e :: e in nodes[b] ==> e in Repr && hash(e.key) == b)
      && Linked(buckets[b], nodes[b], model[b])
    }

    constructor (hash: K -> nat, size: nat)
      requires forall k :: hash(k) < size
      ensures Valid() && fresh(buckets) && fresh(Repr) && this.hash == hash
      ensures |model| == size && forall k :: Stack(hash, model, k) == []
    {
      this.hash := hash;
      buckets := new Entry?<K, V>[size](_ => null);
      nodes, model, Repr := seq(size, _ => []), seq(size, _ => []), {};
    }

    /** mysock_hash.h:65-75. */
    method GetEntry(key: K) returns (e: Entry?<K, V>)
      requires Valid()
      ensures var b := hash(key);
              var i := Find(model[b], key);
              e == if i < |nodes[b]| then nodes[b][i] else null
    {
      var b := hash(key);
      assert BucketOk(b);
      e := buckets[b];
      ghost var i := 0;
      while e != null && e.key != key
        invariant i <= Find(model[b], key)
        invariant e == if i < |nodes[b]| then nodes[b][i] else null
        decreases |nodes[b]| - i
      {
        e := e.next;
        i := i + 1;
      }
    }

    /** mysock_hash.h:103-113: the top of the stack, if any. */
    method Lookup(key: K) returns (r: Option<V>)
      requires Valid()
      ensures var st := Stack(hash, model, key);
              r == if st == [] then None else Some(st[0])
    {
      var e := GetEntry(key);
      FindIsTop(model[hash(key)], key);
      assert BucketOk(hash(key));
      r := if e == null then None else Some(e.data);
    }

    /** mysock_hash.h:77-94: push, without a look for duplicates. The result is whether the assert
        at its end holds, that a lookup finds the new head of the bucket. */
    method Insert(key: K, data: V) returns (found: bool)
      requires Valid()
      modifies this`nodes, this`model, this`Repr, buckets
      ensures Valid() && fresh(Repr - old(Repr))
      ensures model == Pushed(hash, old(model), key, data)
      ensures found && buckets[hash(key)] != null && fresh(buckets[hash(key)])
    {
      LinkNew(key, data);
      var e := GetEntry(key);
      assert BucketOk(hash(key));
      found := e == buckets[hash(key)];
    }

    /** mysock_hash.h:84-91. */
    method LinkNew(key: K, data: V)
      requires Valid()
      modifies this`nodes, this`model, this`Repr, buckets
      ensures Valid() && fresh(Repr - old(Repr))
      ensures model == Pushed(hash, old(model), key, data)
      ensures buckets[hash(key)] != null && fresh(buckets[hash(key)])
    {
      var b := hash(key);
      assert BucketOk(b);
      var e := new Entry(key, data, buckets[b]);
      Prepended(e, buckets[b], nodes[b], model[b]);
      buckets[b] := e;
      nodes := nodes[b := [e] + nodes[b]];
      model := Pushed(hash, model, key, data);
      Repr := Repr + {e};
      forall c | 0 <= c < buckets.Length && c != b
        ensures BucketOk(c)
      {
        assert old(BucketOk(c));
      }
      assert Linked(buckets[b], nodes[b], model[b]);
    }

    /** mysock_hash.h:115-122. */
    method SetEntry(key: K, data: V)
      requires Valid()
      modifies this`nodes, this`model, this`Repr, buckets, Repr
      ensures Valid() && fresh(Repr - old(Repr))
      ensures model == Replaced(hash, old(model), key, data)
    {
      var e := GetEntry(key);
      assert BucketOk(hash(key));
      if e != null {
        Overwrite(hash(key), Find(model[hash(key)], key), e, data);
      } else {
        var _ := Insert(key, data);
      }
    }

    /** mysock_hash.h:119. */
    method Overwrite(ghost b: nat, ghost i: nat, e: Entry<K, V>, data: V)
      requires Valid() && b < buckets.Length && i < |nodes[b]| && e == nodes[b][i] && |nodes[b]| == |model[b]|
      modifies this`model, e`data
      ensures Valid()
      ensures model == old(model)[b := old(model)[b][i := (old(model)[b][i].0, data)]]
    {
      assert BucketOk(b);
      e.data := data;
      model := model[b := model[b][i := (model[b][i].0, data)]];
      forall c | 0 <= c < buckets.Length
        ensures BucketOk(c)
      {
        assert old(BucketOk(c));
      }
    }

    /** mysock_hash.h:136, for the first entry of a chain. */
    method UnlinkHead(b: nat, e: Entry<K, V>)
      requires Valid() && b < buckets.Length && nodes[b] != [] && e == nodes[b][0]
      modifies this`nodes, this`model, buckets
      ensures Valid()
      ensures model == old(model)[b := RemoveAt(old(model)[b], 0)]
    {
      assert BucketOk(b);
      buckets[b] := e.next;
      nodes := nodes[b := nodes[b][1..]];
      model := model[b := model[b][1..]];
      forall c | 0 <= c < buckets.Length
        ensures BucketOk(c)
      {
        assert old(BucketOk(c));
      }
      assert RemoveAt(old(model)[b], 0) == old(model)[b][1..];
    }

    /** mysock_hash.h:136, for an entry behind another. */
    method UnlinkAfter(b: nat, ghost i: nat, prev: Entry<K, V>, e: Entry<K, V>)
      requires Valid() && b < buckets.Length && 0 < i < |nodes[b]|
      requires e == nodes[b][i] && prev == nodes[b][i - 1]
      modifies this`nodes, this`model, prev`next
      ensures Valid()
      ensures model == old(model)[b := RemoveAt(old(model)[b], i)]
    {
      assert BucketOk(b);
      prev.next := e.next;
      Bypassed(buckets[b], nodes[b], model[b], i);
      nodes := nodes[b := RemoveAt(nodes[b], i)];
      model := model[b := RemoveAt(model[b], i)];
      forall c | 0 <= c < buckets.Length && c != b
        ensures BucketOk(c)
      {
        assert old(BucketOk(c));
        assert prev !in nodes[c];
      }
      assert Linked(buckets[b], nodes[b], model[b]);
    }

    /** mysock_hash.h:132-140: the first entry of the key and the one before it. */
    method FindWithPrev(key: K) returns (prev: Entry?<K, V>, e: Entry?<K, V>)
      requires Valid()
      ensures var b := hash(key);
              var i := Find(model[b], key);
              && e == (if i < |nodes[b]| then nodes[b][i] else null)
              && prev == (if 0 < i <= |nodes[b]| then nodes[b][i - 1] else null)
    {
      var b := hash(key);
      prev, e := null, buckets[b];
      assert BucketOk(b);
      ghost var i := 0;
      while e != null && e.key != key
        invariant i <= Find(model[b], key) && i <= |nodes[b]|
        invariant e == if i < |nodes[b]| then nodes[b][i] else null
        invariant prev == if i == 0 then null else nodes[b][i - 1]
        decreases |nodes[b]| - i
      {
        prev := e;
        e := e.next;
        i := i + 1;
      }
    }

    /** mysock_hash.h:131-141. */
    method UnlinkFirst(key: K)
      requires Valid()
      modifies this`nodes, this`model, buckets, Repr
      ensures Valid()
      ensures model == Popped(hash, old(model), key)
    {
      var b := hash(key);
      ghost var i := Find(model[b], key);
      var prev, e := FindWithPrev(key);
      assert BucketOk(b);
      if e == null {
        return;
      }
      if e == buckets[b] {
        UnlinkHead(b, e);
      } else {
        UnlinkAfter(b, i, prev, e);
      }
    }

    /** mysock_hash.h:124-144: unlink the first entry of the key. The result is whether the
        assert at its end holds, which is exactly when the key had at most one entry. */
    method Delete(key: K) returns (gone: bool)
      requires Valid()
      modifies this`nodes, this`model, buckets, Repr
      ensures Valid()
      ensures model == Popped(hash, old(model), key)
      ensures gone <==> |Stack(hash, old(model), key)| <= 1
    {
      var b := hash(key);
      FindIsTop(model[b], key);
      if Find(model[b], key) < |model[b]| {
        RemovePops(model[b], key, key);
      }
      UnlinkFirst(key);
      var left := Lookup(key);
      gone := left == None;
    }
  }

  // ---------- Lookup-guarded use ----------

  /** The listen table inserts only when a lookup found nothing (connection_demux.c:322-335) and
      deletes when the listener closes (connection_demux.c:393). */
  datatype Op<K, V> = GuardedInsert(key: K, data: V) | Remove(key: K)

  function Step<K(==), V>(hash: K -> nat, m: Chains<K, V>, op: Op<K, V>): (r: Chains<K, V>)
    requires hash(op.key) < |m|
    ensures |r| == |m|
  {
    match op
    case GuardedInsert(key, v) =>
      if Stack(hash, m, key) == [] then Pushed(hash, m, key, v) else m
    case Remove(key) => Popped(hash, m, key)
  }

  function MapStep<K, V>(m: map<K, V>, op: Op<K, V>): map<K, V> {
    match op
    case GuardedInsert(key, v) => if key in m then m else m[key := v]
    case Remove(key) => m - {key}
  }

  ghost function Run<K(!new), V>(hash: K -> nat, size: nat, ops: seq<Op<K, V>>): (r: Chains<K, V>)
    requires forall k :: hash(k) < size
    ensures |r| == size
  {
    if ops == [] then seq(size, _ => [])
    else Step(hash, Run(hash, size, ops[..|ops| - 1]), ops[|ops| - 1])
  }

  function MapRun<K, V>(ops: seq<Op<K, V>>): map<K, V> {
    if ops == [] then map[] else MapStep(MapRun(ops[..|ops| - 1]), ops[|ops| - 1])
  }

  /** Used this way, with any hash function, the table is an ordinary map: no key ever has two
      entries, so the assert after every delete holds. */
  lemma {:induction false} GuardedTableIsMap<K(!new), V>(hash: K -> nat, size: nat, ops: seq<Op<K, V>>, k: K)
    requires forall k' :: hash(k') < size
    ensures Stack(hash, Run(hash, size, ops), k) == if k in MapRun(ops) then [MapRun(ops)[k]] else []
  {
    if ops != [] {
      var pre, op := ops[..|ops| - 1], ops[|ops| - 1];
      var m := Run(hash, size, pre);
      GuardedTableIsMap(hash, size, pre, k);
      GuardedTableIsMap(hash, size, pre, op.key);
      match op
      case GuardedInsert(key, v) => StackLaws(hash, m, key, v, k);
      case Remove(key) =>
        if key in MapRun(pre) {
          StackLaws(hash, m, key, MapRun(pre)[key], k);
        } else {
          FindIsTop(m[hash(key)], key);
          assert Popped(hash, m, key) == m;
        }
    }
  }
}
