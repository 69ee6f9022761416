/** The packet queues of mysock.c: a singly linked list with head and tail pointers. It serves
    as a byte stream (partial dequeue) and as a datagram queue (whole dequeue), and refines a
    sequence of byte strings. */
module PacketQueue {
  import opened Common

  // ---------- The abstract queue ----------

  /** What one dequeue leaves in the queue, copies out, and returns. */
  datatype Taken = Taken(rest: seq<Bytes>, copied: Bytes, len: nat)

  /** mysock.c:196-230 on a non-empty queue. A datagram too long for the buffer is cut but its
      full length is returned; a stream read leaves the remainder at the head. */
  function Take(q: seq<Bytes>, maxLen: nat, partial: bool): Taken
    requires q != []
  {
    var h := q[0];
    if |h| > maxLen && partial then
      Taken([h[maxLen..]] + q[1..], h[..maxLen], maxLen)
    else
      Taken(q[1..], h[..Min(maxLen, |h|)], |h|)
  }

  /** A stream read moves bytes from the front of the queue to the reader and loses none. */
  lemma {:induction false} TakeStream(q: seq<Bytes>, maxLen: nat)
    requires q != []
    ensures var t := Take(q, maxLen, true);
            Flatten(q) == t.copied + Flatten(t.rest) && t.len == |t.copied| <= maxLen
  {
  }

  // ---------- The linked list ----------

  class Node {
    const data: array<byte>
    var dataLen: nat
    var next: Node?

    constructor (packet: Bytes)
      ensures fresh(data) && data[..] == packet && dataLen == |packet| && next == null
    {
      data := new byte[|packet|](i requires 0 <= i < |packet| => packet[i]);
      dataLen := |packet|;
      next := null;
    }

    ghost predicate Filled()
      reads this
    {
      dataLen <= data.Length
    }

    ghost function Packet(): Bytes
      requires Filled()
      reads this, data
    {
      data[..dataLen]
    }

    /** mysock.c:207-208: the overlapping copy within the buffer, as a move. */
    method Shift(n: nat)
      requires Filled() && n <= dataLen
      modifies this`dataLen, data
      ensures Filled() && Packet() == old(Packet()[n..])
    {
      var left := dataLen - n;
      forall i | 0 <= i < left {
        data[i] := data[n + i];
      }
      dataLen := left;
    }
  }

  class Queue {
    var head: Node?
    var tail: Node?
    ghost var nodes: seq<Node>
    ghost var contents: seq<Bytes>
    ghost var Repr: set<object>

    /** The nodes are reached from head one by one without a cycle, and tail is the last. */
    ghost predicate Linked()
      reads this, Repr
    {
      && (forall i :: 0 <= i < |nodes| ==> nodes[i] in Repr)
      && (head == null <==> tail == null)
      && (head == null <==> nodes == [])
      && (nodes != [] ==> head == nodes[0] && tail == nodes[|nodes| - 1])
      && (forall i {:trigger nodes[i].next} :: 0 <= i < |nodes| - 1 ==> nodes[i].next == nodes[i + 1])
      && (nodes != [] ==> nodes[|nodes| - 1].next == null)
      && (forall i, j :: 0 <= i < j < |nodes| ==>
            nodes[i] != nodes[j] && nodes[i].data != nodes[j].data)
    }

    ghost predicate Valid()
      reads this, Repr
      ensures Valid() ==> this in Repr
    {
      && this in Repr
      && Linked()
      && |contents| == |nodes|
      && (forall i :: 0 <= i < |nodes| ==>
            nodes[i].data in Repr && nodes[i].Filled() && nodes[i].Packet() == contents[i])
    }

    constructor ()
      ensures Valid() && fresh(Repr) && contents == []
    {
      head, tail, nodes, contents, Repr := null, null, [], [], {this};
    }

    /** mysock.c:133-168, up to the unlock: the broadcast is a step of the Wakeup module. */
    method Enqueue(packet: Bytes)
      requires Valid()
      modifies this, tail
      ensures Valid() && fresh(Repr - old(Repr))
      ensures contents == old(contents) + [packet]
    {
      var node := new Node(packet);
      Link(node);
      contents := contents + [packet];
      Repr := Repr + {node.data};
      assert nodes == old(nodes) + [node];
    }

    /** mysock.c:154-165. */
    method Link(node: Node)
      requires Linked() && node !in Repr && node.next == null
      requires forall i :: 0 <= i < |nodes| ==> nodes[i].data != node.data
      modifies this`head, this`tail, this`nodes, this`Repr, tail
      ensures Linked() && nodes == old(nodes) + [node] && Repr == old(Repr) + {node}
      ensures old(tail) != null ==> old(tail).dataLen == old(tail.dataLen)
    {
      if head == null {
        assert tail == null;
        head, tail := node, node;
      } else {
        assert tail != null && tail.next == null && node.next == null;
        tail.next := node;
        tail := node;
      }
      nodes := nodes + [node];
      Repr := Repr + {node};
    }

    /** mysock.c:196-230: the step taken once the queue is known not to be empty. */
    method Dequeue(dst: array<byte>, maxLen: nat, partial: bool) returns (len: nat)
      requires Valid() && head != null
      requires maxLen <= dst.Length && dst !in Repr
      modifies this`head, this`tail, this`nodes, this`contents, head`dataLen, head.data, dst
      ensures Valid() && Repr == old(Repr)
      ensures var t := Take(old(contents), maxLen, partial);
              && contents == t.rest && len == t.len
              && |t.copied| <= dst.Length && dst[..] == t.copied + old(dst[|t.copied|..])
      ensures var h := old(contents)[0];
              if partial && |h| > maxLen then
                && contents == [h[maxLen..]] + old(contents)[1..]
                && len == maxLen && dst[..maxLen] == h[..maxLen]
              else
                && contents == old(contents)[1..]
                && len == |h| && dst[..Min(maxLen, |h|)] == h[..Min(maxLen, |h|)]
    {
      var node := head;
      assert node == nodes[0] && node.Packet() == contents[0];
      if node.dataLen > maxLen && partial {
        Copy(node, dst, maxLen);
        len := maxLen;
        DropFront(maxLen);
      } else {
        Copy(node, dst, Min(maxLen, node.dataLen));
        len := node.dataLen;
        Unlink();
      }
    }

    /** mysock.c:207-208. */
    method DropFront(n: nat)
      requires Valid() && head != null && n <= head.dataLen
      modifies this`contents, head`dataLen, head.data
      ensures Valid()
      ensures contents == [old(contents)[0][n..]] + old(contents)[1..]
    {
      assert head == nodes[0] && head.Packet() == contents[0];
      head.Shift(n);
      assert Linked();
      forall i | 0 < i < |nodes|
        ensures nodes[i].Filled() && nodes[i].Packet() == contents[i]
      {
        assert nodes[0] != nodes[i] && nodes[0].data != nodes[i].data;
      }
      contents := [contents[0][n..]] + contents[1..];
    }

    /** mysock.c:214-218. */
    method Unlink()
      requires Valid() && head != null
      modifies this`head, this`tail, this`nodes, this`contents
      ensures Valid()
      ensures contents == old(contents)[1..]
    {
      assert head == nodes[0];
      head := head.next;
      if head == null {
        assert tail == old(head);
        tail := null;
      }
      nodes := nodes[1..];
      contents := contents[1..];
    }
  }

  /** memcpy from the front of a node's buffer. */
  method Copy(node: Node, dst: array<byte>, n: nat)
    requires node.Filled() && n <= node.dataLen && n <= dst.Length && dst != node.data
    modifies dst
    ensures dst[..] == node.Packet()[..n] + old(dst[n..])
  {
    forall i | 0 <= i < n {
      dst[i] := node.data[i];
    }
  }
}
