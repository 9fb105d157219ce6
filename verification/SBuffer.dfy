/** The shared queue of `sbuffer.c`. */
module SBuffers {
  import opened Readings

  datatype Status = Failure | Success | NoData

  class SNode {
    var next: SNode?
    var data: Reading
    ghost var frees: nat

    constructor (data: Reading)
      ensures this.data == data && next == null && frees == 0
    {
      this.data, next, frees := data, null, 0;
    }
  }

  function At(nodes: seq<SNode>, i: int): SNode? {
    if 0 <= i < |nodes| then nodes[i] else null
  }

  class SBuffer {
    var head: SNode?
    var tail: SNode?
    ghost var nodes: seq<SNode>
    ghost var contents: seq<Reading>
    ghost var frees: nat

    ghost predicate Valid()
      reads this, nodes
    {
      && frees == 0 && |nodes| == |contents|
      && head == At(nodes, 0) && tail == At(nodes, |nodes| - 1)
      && (forall i, j :: 0 <= i < j < |nodes| ==> nodes[i] != nodes[j])
      && (forall i {:trigger nodes[i].data} :: 0 <= i < |nodes| ==> nodes[i].data == contents[i])
      && (forall i {:trigger nodes[i].frees} :: 0 <= i < |nodes| ==> nodes[i].frees == 0)
      && (forall i {:trigger nodes[i].next} :: 0 <= i < |nodes| ==> nodes[i].next == At(nodes, i + 1))
    }

    /** Lines 24-25. */
    constructor ()
      ensures Valid() && contents == [] && nodes == []
    {
      head, tail, nodes, contents, frees := null, null, [], [], 0;
    }

    /** Lines 63-73. */
    method Append(data: Reading)
      requires Valid()
      modifies this, nodes
      ensures Valid()
      ensures contents == old(contents) + [data]
      ensures |nodes| == |old(nodes)| + 1 && nodes[..|old(nodes)|] == old(nodes) && fresh(nodes[|old(nodes)|])
    {
      var dummy := new SNode(data);
      if tail == null {
        head := dummy;
        tail := dummy;
      } else {
        tail.next := dummy;
        tail := tail.next;
      }
      nodes, contents := nodes + [dummy], contents + [data];
    }

    /** Lines 48-56. */
    method TakeFirst() returns (data: Reading)
      requires Valid() && contents != []
      modifies this, nodes
      ensures Valid()
      ensures data == old(contents[0]) && contents == old(contents[1..])
      ensures nodes == old(nodes[1..]) && old(nodes[0]).frees == 1
    {
      data := head.data;
      var dummy := head;
      if head == tail {
        head, tail := null, null;
      } else {
        head := head.next;
      }
      dummy.frees := dummy.frees + 1;
      nodes, contents := nodes[1..], contents[1..];
    }

    /** Lines 34-39: every node and the buffer are released once. */
    method Release()
      requires Valid()
      modifies this, nodes
      ensures frees == 1 && head == null
      ensures forall n :: n in old(nodes) ==> n.frees == 1
    {
      ghost var ns := nodes;
      ghost var k := 0;
      while head != null
        invariant k <= |ns| && nodes == ns[k..] && head == At(ns, k)
        invariant forall i {:trigger ns[i].frees} :: 0 <= i < |ns| ==> ns[i].frees == if i < k then 1 else 0
        invariant forall i {:trigger ns[i].next} :: 0 <= i < |ns| ==> ns[i].next == At(ns, i + 1)
        decreases |ns| - k
      {
        var dummy := head;
        head := head.next;
        dummy.frees := dummy.frees + 1;
        k := k + 1;
        nodes := ns[k..];
      }
      frees := 1;
    }

    /** The queue is empty exactly if `head` is NULL, exactly if `tail` is NULL. */
    lemma EmptyWhenNull()
      requires Valid()
      ensures head == null <==> contents == []
      ensures tail == null <==> contents == []
      ensures tail != null ==> tail.next == null && head != null
    {
    }
  }

  /** The nodes of a buffer that may be missing. */
  ghost function Nodes(buffer: SBuffer?): seq<SNode>
    reads buffer
  {
    if buffer == null then [] else buffer.nodes
  }

  /** `sbuffer_insert`. */
  method Insert(buffer: SBuffer?, data: Reading) returns (status: Status)
    requires buffer != null ==> buffer.Valid()
    modifies buffer, Nodes(buffer)
    ensures status == if buffer == null then Failure else Success
    ensures buffer != null ==> buffer.Valid() && buffer.contents == old(buffer.contents) + [data]
    ensures buffer != null ==>
      var n := |old(buffer.nodes)|;
      |buffer.nodes| == n + 1 && buffer.nodes[..n] == old(buffer.nodes) && fresh(buffer.nodes[n])
  {
    if buffer == null {
      return Failure;
    }
    buffer.Append(data);
    status := Success;
  }

  /** `sbuffer_remove`.  `data` is the caller's record: it keeps its old content unless a reading is
      removed. */
  method Remove(buffer: SBuffer?, data: Reading) returns (status: Status, data': Reading)
    requires buffer != null ==> buffer.Valid()
    modifies buffer, Nodes(buffer)
    ensures status == if buffer == null then Failure else if old(buffer.contents) == [] then NoData else Success
    ensures status == Success ==> data' == old(buffer.contents[0]) && buffer.contents == old(buffer.contents[1..])
    ensures status == NoData ==> buffer.contents == []
    ensures status != Success ==> data' == data
    ensures buffer != null ==> buffer.Valid()
    ensures status == Success ==> old(Nodes(buffer)) != []
    ensures Nodes(buffer) == old(Nodes(buffer))[if status == Success then 1 else 0..]
  {
    data' := data;
    if buffer == null {
      return Failure, data;
    }
    if buffer.head == null {
      return NoData, data;
    }
    data' := buffer.TakeFirst();
    status := Success;
  }

  /** `sbuffer_free`; `buffer'` is the caller's pointer afterwards. */
  method Free(buffer: SBuffer?) returns (status: Status, buffer': SBuffer?)
    requires buffer != null ==> buffer.Valid()
    modifies buffer, Nodes(buffer)
    ensures status == if buffer == null then Failure else Success
    ensures buffer' == null
    ensures buffer != null ==> buffer.frees == 1 && forall n :: n in old(buffer.nodes) ==> n.frees == 1
  {
    buffer' := null;
    if buffer == null {
      return Failure, null;
    }
    buffer.Release();
    status := Success;
  }
}
