/** The doubly linked list of `lib/dplist.c`.

    `nodes` and `elems` are the ghost sequences that the heap structure stands for; every operation
    is specified as the sequence operation it performs on them. */
module DpLists {
  import opened Memory
  import opened ListSpec

  class Node<V> {
    var prev: Node?<V>
    var next: Node?<V>
    var element: Cell?<V>
    ghost var frees: nat

    constructor ()
      ensures frees == 0
    {
      prev, next, element, frees := null, null, null, 0;
    }
  }

  /** The node at position `i`, or NULL off either end. */
  function At<V>(nodes: seq<Node<V>>, i: int): Node?<V> {
    if 0 <= i < |nodes| then nodes[i] else null
  }

  /** The nodes are distinct and live, hold `elems` in order, and `next` and `prev` are each
      other's inverse, ending in NULL. */
  ghost predicate Chained<V>(nodes: seq<Node<V>>, elems: seq<Cell<V>>)
    reads nodes
  {
    && |nodes| == |elems|
    && Distinct(nodes)
    && (forall i {:trigger nodes[i].element} {:trigger elems[i]} :: 0 <= i < |nodes| ==> nodes[i].element == elems[i])
    && (forall i {:trigger nodes[i].frees} :: 0 <= i < |nodes| ==> nodes[i].frees == 0)
    && (forall i {:trigger nodes[i].next} :: 0 <= i < |nodes| ==> nodes[i].next == At(nodes, i + 1))
    && (forall i {:trigger nodes[i].prev} :: 0 <= i < |nodes| ==> nodes[i].prev == At(nodes, i - 1))
  }

  /** Like `Chained`, except that the links between positions `k - 1` and `k` run through `pt`. */
  ghost predicate ChainedVia<V>(nodes: seq<Node<V>>, elems: seq<Cell<V>>, k: nat, pt: Node<V>)
    requires k <= |nodes|
    reads nodes, pt
  {
    && |nodes| == |elems|
    && pt !in nodes && pt.frees == 0
    && pt.next == At(nodes, k) && pt.prev == At(nodes, k - 1)
    && Distinct(nodes)
    && (forall i {:trigger nodes[i].element} {:trigger elems[i]} :: 0 <= i < |nodes| ==> nodes[i].element == elems[i])
    && (forall i {:trigger nodes[i].frees} :: 0 <= i < |nodes| ==> nodes[i].frees == 0)
    && (forall i {:trigger nodes[i].next} :: 0 <= i < |nodes| ==>
          nodes[i].next == if i == k - 1 then pt else At(nodes, i + 1))
    && (forall i {:trigger nodes[i].prev} :: 0 <= i < |nodes| ==>
          nodes[i].prev == if i == k then pt else At(nodes, i - 1))
  }

  lemma SpliceIn<V>(nodes: seq<Node<V>>, elems: seq<Cell<V>>, k: nat, pt: Node<V>, stored: Cell<V>)
    requires k <= |nodes| && ChainedVia(nodes, elems, k, pt) && pt.element == stored
    ensures Chained(InsertAt(nodes, k, pt), InsertAt(elems, k, stored))
  {
    var ns, es := InsertAt(nodes, k, pt), InsertAt(elems, k, stored);
    InsertKeepsDistinct(nodes, k, pt);
    forall i | 0 <= i < |ns|
      ensures ns[i].element == es[i] && ns[i].frees == 0
      ensures ns[i].next == At(ns, i + 1) && ns[i].prev == At(ns, i - 1)
    {
      if i != k {
        var j := if i < k then i else i - 1;
        assert ns[i] == nodes[j] && es[i] == elems[j];
      }
    }
  }

  /** Like `Chained`, except that the links of the neighbours bypass position `k`. */
  ghost predicate ChainedPast<V>(nodes: seq<Node<V>>, elems: seq<Cell<V>>, k: nat)
    requires k < |nodes|
    reads nodes
  {
    && |nodes| == |elems|
    && Distinct(nodes)
    && (forall i {:trigger nodes[i].element} {:trigger elems[i]} :: 0 <= i < |nodes| && i != k ==>
          nodes[i].element == elems[i])
    && (forall i {:trigger nodes[i].frees} :: 0 <= i < |nodes| && i != k ==> nodes[i].frees == 0)
    && (forall i {:trigger nodes[i].next} :: 0 <= i < |nodes| && i != k ==>
          nodes[i].next == At(nodes, if i == k - 1 then k + 1 else i + 1))
    && (forall i {:trigger nodes[i].prev} :: 0 <= i < |nodes| && i != k ==>
          nodes[i].prev == At(nodes, if i == k + 1 then k - 1 else i - 1))
  }

  lemma SpliceOut<V>(nodes: seq<Node<V>>, elems: seq<Cell<V>>, k: nat)
    requires k < |nodes| && ChainedPast(nodes, elems, k)
    ensures Chained(RemoveAt(nodes, k), RemoveAt(elems, k))
  {
  }

  class DpList<V> {
    var head: Node?<V>
    const compare: (V, V) -> int
    ghost var nodes: seq<Node<V>>
    ghost var elems: seq<Cell<V>>
    ghost var frees: nat

    ghost predicate Valid()
      reads this, nodes
    {
      && frees == 0
      && head == At(nodes, 0)
      && Chained(nodes, elems)
    }

    constructor (compare: (V, V) -> int)
      ensures Valid() && nodes == [] && elems == [] && this.compare == compare
    {
      this.compare := compare;
      head, nodes, elems, frees := null, [], [], 0;
    }

    lemma SameLength()
      requires Valid()
      ensures |nodes| == |elems| && head == At(nodes, 0)
    {
    }

    method Size() returns (size: nat)
      requires Valid()
      ensures size == |elems|
    {
      var pt := head;
      size := 0;
      while pt != null
        invariant size <= |nodes|
        invariant pt == At(nodes, size)
        decreases |nodes| - size
      {
        pt := pt.next;
        size := size + 1;
      }
    }

    method GetReferenceAtIndex(index: int) returns (node: Node?<V>)
      requires Valid()
      ensures elems == [] <==> node == null
      ensures elems != [] ==> node == nodes[Clamp(index, |elems|)]
      ensures index <= 0 && elems != [] ==> node == nodes[0]
      ensures 0 < index < |elems| ==> node == nodes[index]
      ensures index >= |elems| > 0 ==> node == nodes[|elems| - 1]
    {
      if index <= 0 || head == null {
        return head;
      }
      node := head;
      var pos := 0;
      while node.next != null && pos < index
        invariant 0 <= pos < |nodes| && pos <= index
        invariant node == nodes[pos]
        decreases |nodes| - pos
      {
        node := node.next;
        pos := pos + 1;
      }
    }

    /** Puts an unlinked node in front of the list (lines 89-99, 253-254 and 267-270). */
    method LinkFirst(pt: Node<V>, ghost stored: Cell<V>)
      requires Valid() && pt !in nodes && pt.frees == 0 && pt.element == stored
      modifies this, nodes, pt
      ensures Valid()
      ensures nodes == InsertAt(old(nodes), 0, pt) && elems == InsertAt(old(elems), 0, stored)
    {
      if head == null {
        head := pt;
        pt.next := null;
      } else {
        head.prev := pt;
        pt.next := head;
        head := pt;
      }
      pt.prev := null;
      SpliceIn(nodes, elems, 0, pt, stored);
      nodes, elems := InsertAt(nodes, 0, pt), InsertAt(elems, 0, stored);
    }

    /** Puts an unlinked node behind the last node (lines 104-106 and 263-265). */
    method LinkLast(last: Node<V>, pt: Node<V>, ghost stored: Cell<V>)
      requires Valid() && pt !in nodes && pt.frees == 0 && pt.element == stored
      requires nodes != [] && last == nodes[|nodes| - 1]
      modifies this, nodes, pt
      ensures Valid()
      ensures nodes == InsertAt(old(nodes), |old(nodes)|, pt) && elems == InsertAt(old(elems), |old(nodes)|, stored)
    {
      last.next := pt;
      pt.prev := last;
      pt.next := null;
      SpliceIn(nodes, elems, |nodes|, pt, stored);
      nodes, elems := InsertAt(nodes, |nodes|, pt), InsertAt(elems, |elems|, stored);
    }

    /** Puts an unlinked node before an inner node (lines 108-111 and 272-275). */
    method LinkBefore(at: Node<V>, pt: Node<V>, ghost k: nat, ghost stored: Cell<V>)
      requires Valid() && pt !in nodes && pt.frees == 0 && pt.element == stored
      requires 0 < k < |nodes| && at == nodes[k]
      modifies this, nodes, pt
      ensures Valid()
      ensures nodes == InsertAt(old(nodes), k, pt) && elems == InsertAt(old(elems), k, stored)
    {
      pt.next := at;
      pt.prev := at.prev;
      at.prev.next := pt;
      at.prev := pt;
      SpliceIn(nodes, elems, k, pt, stored);
      nodes, elems := InsertAt(nodes, k, pt), InsertAt(elems, k, stored);
    }

    /** Lines 89-113, when line 102 does not abort. */
    method LinkAt(pt: Node<V>, index: int, pt1: Node?<V>, ghost stored: Cell<V>) returns (ghost k: nat)
      requires Valid() && pt !in nodes && pt.frees == 0 && pt.element == stored
      requires index > 0 ==> nodes != [] && pt1 == nodes[Clamp(index, |nodes|)]
      modifies this, nodes, pt
      ensures Valid()
      ensures k == InsertIndex(index, |old(elems)|)
      ensures elems == InsertAt(old(elems), k, stored) && nodes == InsertAt(old(nodes), k, pt)
    {
      k := 0;
      if index <= 0 {
        LinkFirst(pt, stored);
      } else {
        var size := Size();
        if index >= size {
          k := size;
          LinkLast(pt1, pt, stored);
        } else {
          k := index;
          LinkBefore(pt1, pt, index, stored);
        }
      }
    }

    /** `dpl_insert_at_index`.  Repairs: the assignment at line 92 and the comparison at line 114.
        Line 102 aborts when a positive index meets the empty list, although the header (line 55)
        promises an insertion at the end; the abort is kept and reported in `aborted`. */
    method InsertAtIndex(element: Cell<V>, index: int, insertCopy: bool)
      returns (aborted: bool, stored: Cell<V>, ghost node: Node<V>)
      requires Valid()
      modifies this, nodes
      ensures Valid()
      ensures aborted <==> Aborts(index, |old(elems)|)
      ensures fresh(node) && (aborted ==> elems == old(elems) && nodes == old(nodes))
      ensures !aborted ==>
        var k := InsertIndex(index, |old(elems)|);
        && elems == InsertAt(old(elems), k, stored) && nodes == InsertAt(old(nodes), k, node)
        && Load(elems) == InsertAt(old(Load(elems)), k, element.data)
      ensures index <= 0 ==> !aborted && elems == [stored] + old(elems)
      ensures 0 < index < |old(elems)| ==>
        !aborted && elems == old(elems)[..index] + [stored] + old(elems)[index..] && elems[index] == stored
      ensures index >= |old(elems)| > 0 ==> !aborted && elems == old(elems) + [stored]
      ensures index > 0 && old(elems) == [] ==> aborted && elems == []
      ensures !insertCopy ==> stored == element
      ensures insertCopy ==> fresh(stored) && stored.data == element.data && stored.frees == 0
      ensures Owned(elems) <==>
        old(Owned(elems)) && (aborted || insertCopy || (element !in old(elems) && element.frees == 0))
    {
      hide Chained, Valid, Owned, InsertAt;
      SameLength();
      ghost var es, values := elems, Load(elems);
      var pt;
      pt, stored := NewNode(element, insertCopy);
      node := pt;
      var pt1 := GetReferenceAtIndex(index);
      aborted := index > 0 && pt1 == null;
      if !aborted {
        ghost var k := LinkAt(pt, index, pt1, stored);
        assert Load(es) == values;
        Listing(es, k, stored);
        InsertAtExactly(es, k, stored);
      }
    }

    /** A node that is not linked yet.  It holds the element pointer itself, or on request a fresh
        block with the same contents (the `element_copy` callbacks). */
    static method NewNode(element: Cell<V>, insertCopy: bool) returns (pt: Node<V>, stored: Cell<V>)
      ensures fresh(pt) && pt.frees == 0 && pt.element == stored
      ensures !insertCopy ==> stored == element
      ensures insertCopy ==> fresh(stored) && stored.data == element.data && stored.frees == 0
    {
      pt := new Node<V>();
      stored := element;
      if insertCopy {
        stored := new Cell<V>(element.data);
      }
      pt.element := stored;
    }

    /** The search loop of lines 256-260. */
    method FindStop(v: V) returns (pt: Node<V>, ghost k: nat)
      requires Valid() && nodes != []
      ensures k == StopIndex(compare, Load(elems), v) && k < |nodes| && pt == nodes[k]
    {
      pt, k := head, 0;
      while pt.next != null && compare(v, pt.element.data) > 0
        invariant k < |nodes| && pt == nodes[k]
        invariant forall j :: 0 <= j < k ==> compare(v, elems[j].data) > 0
        decreases |nodes| - k
      {
        pt, k := pt.next, k + 1;
      }
      StopIndexIs(compare, Load(elems), v, k);
    }

    /** The three-way branch of lines 261-276.  Repair: the head test at line 266 is `<= 0`, because
        with `< 0` an element equal to the head of a longer list reaches line 274 with a NULL
        `prev`. */
    method LinkAtStop(pt: Node<V>, newNode: Node<V>, v: V, ghost k: nat, ghost stored: Cell<V>) returns (ghost pos: nat)
      requires Valid() && newNode !in nodes && newNode.frees == 0 && newNode.element == stored
      requires k < |nodes| && pt == nodes[k]
      requires k < |nodes| - 1 ==> compare(v, elems[k].data) <= 0
      modifies this, nodes, newNode
      ensures Valid()
      ensures pos == if k == |old(nodes)| - 1 && compare(v, old(elems[k].data)) >= 0 then |old(nodes)| else k
      ensures nodes == InsertAt(old(nodes), pos, newNode) && elems == InsertAt(old(elems), pos, stored)
    {
      pos := k;
      if pt.next == null && compare(v, pt.element.data) >= 0 {
        pos := |nodes|;
        LinkLast(pt, newNode, stored);
      } else if pt == head && compare(v, pt.element.data) <= 0 {
        LinkFirst(newNode, stored);
      } else {
        LinkBefore(pt, newNode, k, stored);
      }
    }

    /** Lines 251-277. */
    method LinkSorted(newNode: Node<V>, v: V, ghost values: seq<V>, ghost stored: Cell<V>)
      requires Valid() && newNode !in nodes && newNode.frees == 0 && newNode.element == stored
      requires values == Load(elems)
      modifies this, nodes, newNode
      ensures Valid()
      ensures elems == InsertAt(old(elems), InsertPos(compare, values, v), stored)
      ensures nodes == InsertAt(old(nodes), InsertPos(compare, values, v), newNode)
    {
      if head == null {
        LinkFirst(newNode, stored);
      } else {
        var pt, k := FindStop(v);
        ghost var pos := LinkAtStop(pt, newNode, v, k, stored);
      }
    }

    /** `dpl_insert_sorted`. */
    method InsertSorted(element: Cell<V>, insertCopy: bool) returns (stored: Cell<V>, ghost node: Node<V>)
      requires Valid()
      modifies this, nodes
      ensures Valid()
      ensures elems == InsertAt(old(elems), InsertPos(compare, old(Load(elems)), element.data), stored)
      ensures nodes == InsertAt(old(nodes), InsertPos(compare, old(Load(elems)), element.data), node) && fresh(node)
      ensures !insertCopy ==> stored == element
      ensures insertCopy ==> fresh(stored) && stored.data == element.data && stored.frees == 0
      ensures Load(elems) == SortedInsert(compare, old(Load(elems)), element.data)
      ensures Owned(elems) <==> old(Owned(elems)) && (insertCopy || (element !in old(elems) && element.frees == 0))
    {
      hide Chained, Valid, Owned, InsertPos, InsertAt;
      ghost var es, values := elems, Load(elems);
      var newNode;
      newNode, stored := NewNode(element, insertCopy);
      node := newNode;
      LinkSorted(newNode, element.data, values, stored);
      assert Load(es) == values;
      Listing(es, InsertPos(compare, values, element.data), stored);
    }

    /** Lines 129-135 and 144-156: the neighbours of a node are linked to each other. */
    method Bypass(pt: Node<V>, ghost k: nat)
      requires Valid()
      requires k < |nodes| && pt == nodes[k]
      modifies this`head, nodes
      ensures head == (if k == 0 then At(nodes, 1) else old(head))
      ensures ChainedPast(nodes, elems, k) && pt.frees == old(pt.frees)
    {
      if pt == head {
        head := pt.next;
        if pt.next != null {
          pt.next.prev := null;
        }
      } else if pt.next == null {
        pt.prev.next := null;
      } else {
        pt.prev.next := pt.next;
        pt.next.prev := pt.prev;
      }
    }

    /** The unlinking of lines 129-135 and 144-158; the node is released. */
    method Unlink(pt: Node<V>, ghost k: nat)
      requires Valid()
      requires k < |nodes| && pt == nodes[k]
      modifies this, nodes
      ensures Valid()
      ensures nodes == RemoveAt(old(nodes), k) && elems == RemoveAt(old(elems), k)
      ensures pt.frees == 1
    {
      Bypass(pt, k);
      pt.prev, pt.next, pt.element := null, null, null;
      pt.frees := pt.frees + 1;
      SpliceOut(nodes, elems, k);
      nodes, elems := RemoveAt(nodes, k), RemoveAt(elems, k);
    }

    /** `dpl_remove_node`, which the repository calls (connmgr.c line 150) but never defines: the
        unlinking of lines 149-158.  A head with successors hands the list over to its successor,
        as in lines 133-134. */
    method RemoveNode(pt: Node<V>, freeElement: bool, ghost k: nat)
      requires Valid()
      requires k < |nodes| && pt == nodes[k]
      requires freeElement ==> elems[k].frees == 0
      modifies this, nodes, (if freeElement then {elems[k]} else {})`frees
      ensures Valid()
      ensures nodes == RemoveAt(old(nodes), k) && elems == RemoveAt(old(elems), k)
      ensures pt.frees == 1
      ensures freeElement ==> old(elems[k]).frees == 1
      ensures Load(elems) == RemoveAt(old(Load(elems)), k)
      ensures old(Owned(elems)) ==> Owned(elems) && old(elems[k]) !in elems
    {
      Unlisting(elems, k);
      if freeElement {
        elems[k].Free();
      }
      Unlink(pt, k);
    }

    /** `dpl_remove_at_index`.  Repairs: the comparison at line 129; lines 127-135 free the node and
        return like lines 157-159; the loop at line 138 counts with `pos` and stops at the last
        node, as the header (line 68) promises. */
    method RemoveAtIndex(index: int, freeElement: bool)
      requires Valid()
      requires freeElement && elems != [] ==> elems[Clamp(index, |elems|)].frees == 0
      modifies this, nodes, (if freeElement && elems != [] then {elems[Clamp(index, |elems|)]} else {})`frees
      ensures Valid()
      ensures old(elems) == [] ==> elems == [] && nodes == []
      ensures old(elems) != [] ==>
        var k := Clamp(index, |old(elems)|);
        && nodes == RemoveAt(old(nodes), k) && elems == RemoveAt(old(elems), k)
        && old(nodes[k]).frees == 1
        && (freeElement ==> old(elems[k]).frees == 1)
        && Load(elems) == RemoveAt(old(Load(elems)), k)
        && (old(Owned(elems)) ==> Owned(elems) && old(elems[k]) !in elems)
      ensures old(elems) != [] ==>
        var n := |old(elems)|;
        && (index <= 0 ==> elems == old(elems)[1..])
        && (0 < index < n ==> elems == old(elems)[..index] + old(elems)[index + 1..])
        && (index >= n ==> elems == old(elems)[..n - 1])
    {
      hide Chained, Valid, Owned, Load;
      SameLength();
      var pt := head;
      if pt == null {
        return;
      }
      if index > 0 {
        pt := GetReferenceAtIndex(index);
      }
      RemoveNode(pt, freeElement, Clamp(index, |elems|));
    }

    /** One turn of the loop at line 75. */
    method RemoveHead(freeElement: bool)
      requires Valid() && nodes != []
      requires freeElement ==> elems[0].frees == 0
      modifies this, nodes, {elems[0]}`frees
      ensures Valid() && nodes == old(nodes[1..]) && elems == old(elems[1..])
      ensures old(nodes[0]).frees == 1
      ensures old(elems[0]).frees == if freeElement then 1 else old(elems[0].frees)
    {
      RemoveAtIndex(0, freeElement);
    }

    /** `dpl_free`: every node, the list itself and, on request, every element is released once. */
    method Free(freeElement: bool)
      requires Valid()
      requires freeElement ==> Owned(elems)
      modifies this, nodes, elems`frees
      ensures head == null && frees == 1 && nodes == [] && elems == []
      ensures forall n :: n in old(nodes) ==> n.frees == 1
      ensures forall e :: e in old(elems) ==> e.frees == if freeElement then 1 else old(e.frees)
    {
      ghost var ns, es := nodes, elems;
      ghost var k := 0;
      while head != null
        invariant Valid() && k <= |ns| == |es| && nodes == ns[k..] && elems == es[k..]
        invariant forall i :: 0 <= i < k ==> ns[i].frees == 1
        invariant forall i {:trigger es[i].frees} :: 0 <= i < |es| ==>
          es[i].frees == if freeElement && i < k then 1 else old(es[i].frees)
        decreases |nodes|
      {
        RemoveHead(freeElement);
        k := k + 1;
      }
      frees := 1;
    }

    /** `dpl_get_element_at_index`.  Repair: the walk of lines 184-188 stops at `index` or at the
        last node (header lines 91-92). */
    method GetElementAtIndex(index: int) returns (element: Cell?<V>)
      requires Valid()
      ensures elems == [] <==> element == null
      ensures elems != [] ==> element == elems[Clamp(index, |elems|)]
      ensures index <= 0 && elems != [] ==> element == elems[0]
      ensures 0 < index < |elems| ==> element == elems[index]
      ensures index >= |elems| > 0 ==> element == elems[|elems| - 1]
    {
      var pt := GetReferenceAtIndex(index);
      if pt == null {
        return null;
      }
      element := pt.element;
    }

    /** `dpl_get_index_of_element`.  Repair: line 208 returns -1 when the walk found nothing. */
    method GetIndexOfElement(key: V) returns (index: int)
      requires Valid()
      ensures index == IndexOf(compare, Load(elems), key)
    {
      var pt := head;
      index := 0;
      while pt != null
        invariant 0 <= index <= |nodes| && pt == At(nodes, index)
        invariant forall j :: 0 <= j < index ==> compare(key, elems[j].data) != 0
        decreases |nodes| - index
      {
        if compare(key, pt.element.data) == 0 {
          return;
        }
        index := index + 1;
        pt := pt.next;
      }
      index := -1;
    }

    /** `dpl_get_reference_of_element`. */
    method GetReferenceOfElement(key: V) returns (node: Node?<V>)
      requires Valid()
      ensures node == At(nodes, IndexOf(compare, Load(elems), key))
    {
      if head == null {
        return null;
      }
      node := head;
      ghost var k := 0;
      while node.next != null && compare(key, node.element.data) != 0
        invariant k < |nodes| && node == nodes[k]
        invariant forall j :: 0 <= j < k ==> compare(key, elems[j].data) != 0
        decreases |nodes| - k
      {
        node := node.next;
        k := k + 1;
      }
      if compare(key, node.element.data) != 0 {
        node := null;
      }
    }

    /** `dpl_get_element_at_reference`.  Repairs: NULL for a NULL reference (header line 115), and
        the walk of lines 236-240 advances. */
    method GetElementAtReference(reference: Node?<V>) returns (element: Cell?<V>)
      requires Valid()
      ensures element == null <==> reference !in nodes
      ensures forall k :: 0 <= k < |nodes| && nodes[k] == reference ==> element == elems[k]
    {
      var pt := head;
      ghost var k := 0;
      while pt != null
        invariant k <= |nodes| && pt == At(nodes, k)
        invariant reference !in nodes[..k]
        decreases |nodes| - k
      {
        if pt == reference {
          return pt.element;
        }
        pt := pt.next;
        k := k + 1;
      }
      element := null;
    }

    /** The lookups by key agree: they find the first node whose element compares equal, or nothing. */
    lemma LookupsAgree(key: V)
      requires Valid()
      ensures var i := IndexOf(compare, Load(elems), key);
        && (At(nodes, i) == null <==> forall e :: e in elems ==> compare(key, e.data) != 0)
        && (i >= 0 ==> At(nodes, i) != null && nodes[i].element == elems[Clamp(i, |elems|)] == elems[i]
                       && compare(key, elems[i].data) == 0)
        && forall j :: 0 <= j < i ==> compare(key, elems[j].data) != 0
    {
      assert forall j :: 0 <= j < |elems| ==> Load(elems)[j] == elems[j].data && elems[j] in elems;
    }
  }

  /** A run that meets the abort of line 102: inserting at index 1 into the empty list, which the header
      (line 55) promises to do at the end. */
  method InsertIntoEmpty<V>(v: V) returns (aborted: bool, size: nat)
    ensures aborted && size == 0
  {
    var list := new DpList<V>((x, y) => 0);
    var element := new Cell<V>(v);
    var stored;
    ghost var node;
    aborted, stored, node := list.InsertAtIndex(element, 1, false);
    size := list.Size();
  }
}
