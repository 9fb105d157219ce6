/** The list of `dplist.c` releases what the ledger says: any sequence of operations run on the heap. */
module Ownership {
  import opened DpLists
  import opened Ledgers
  import opened ListSpec
  import opened Memory

  function Pick<T>(blocks: seq<T>, bs: seq<nat>): (r: seq<T>)
    requires forall i :: 0 <= i < |bs| ==> bs[i] < |blocks|
    ensures |r| == |bs|
    ensures forall i :: 0 <= i < |r| ==> r[i] == blocks[bs[i]]
  {
    seq(|bs|, i requires 0 <= i < |bs| => blocks[bs[i]])
  }

  lemma PickInsert<T>(blocks: seq<T>, more: seq<T>, bs: seq<nat>, k: nat, b: nat)
    requires blocks <= more && b < |more| && k <= |bs|
    requires forall i :: 0 <= i < |bs| ==> bs[i] < |blocks|
    ensures Pick(more, InsertAt(bs, k, b)) == InsertAt(Pick(blocks, bs), k, more[b])
  {
  }

  lemma PickRemove<T>(blocks: seq<T>, bs: seq<nat>, k: nat)
    requires k < |bs|
    requires forall i :: 0 <= i < |bs| ==> bs[i] < |blocks|
    ensures Pick(blocks, RemoveAt(bs, k)) == RemoveAt(Pick(blocks, bs), k)
  {
  }

  /** The blocks are different ones with the contents of the ledger, and those that it calls freed were
      released once, the others not at all. */
  ghost predicate Hold<V>(blocks: seq<Cell<V>>, l: Ledger<V>)
    reads blocks
  {
    && |blocks| == |l.data| && Distinct(blocks)
    && (forall b :: 0 <= b < |blocks| ==> blocks[b].data == l.data[b])
    && (forall b :: 0 <= b < |blocks| ==> blocks[b].frees == if b in l.freed then 1 else 0)
  }

  /** The list is the one that the ledger describes; everything was allocated in this run (`made`). */
  ghost predicate Tracks<V>(list: DpList<V>, blocks: seq<Cell<V>>, l: Ledger<V>, made: set<object>)
    reads list, list.nodes, blocks
  {
    && Known(l) && list.Valid() && Hold(blocks, l) && list.elems == Pick(blocks, l.listed)
    && (forall n :: n in list.nodes ==> n in made) && (forall b :: b in blocks ==> b in made)
  }

  lemma TrackedList<V>(list: DpList<V>, blocks: seq<Cell<V>>, l: Ledger<V>, made: set<object>)
    requires Tracks(list, blocks, l, made)
    ensures Known(l) && list.Valid() && Hold(blocks, l) && |blocks| == |l.data| && list.elems == Pick(blocks, l.listed)
    ensures |list.nodes| == |list.elems| == |l.listed| && (list.head == null <==> l.listed == [])
    ensures (forall n :: n in list.nodes ==> n in made) && (forall b :: b in blocks ==> b in made)
    ensures forall b :: 0 <= b < |blocks| ==> blocks[b].data == l.data[b]
    ensures Load(list.elems) == Listed(l)
    ensures OwnedBlocks(l) ==> Owned(list.elems)
  {
  }

  /** The client allocates the block it is going to hand in, unless it is an old one. */
  method Allocate<V>(list: DpList<V>, blocks: seq<Cell<V>>, src: Source<V>, ghost l: Ledger<V>, ghost made: set<object>)
      returns (blocks': seq<Cell<V>>, ghost made': set<object>)
    requires Tracks(list, blocks, l, made) && Exists(l, src)
    ensures Tracks(list, blocks', HandIn(l, src), made') && blocks <= blocks'
    ensures made <= made' && fresh(made' - made)
  {
    blocks', made' := blocks, made;
    if src.New? {
      var element := new Cell<V>(src.v);
      blocks', made' := blocks + [element], made + {element};
    }
  }

  /** The state after an insertion, from what the list operation promises. */
  lemma TracksList<V>(list: DpList<V>, blocks: seq<Cell<V>>, l: Ledger<V>, made: set<object>, elems: seq<Cell<V>>,
                      b: nat, copy: bool, k: nat, stored: Cell<V>, blocks': seq<Cell<V>>, made': set<object>)
    requires Known(l) && b < |l.data| && k <= |l.listed|
    requires Hold(blocks, l) && elems == Pick(blocks, l.listed)
    requires list.Valid() && list.elems == InsertAt(elems, k, stored)
    requires blocks' == if copy then blocks + [stored] else blocks
    requires if copy then stored !in blocks && stored.frees == 0 && stored.data == blocks[b].data
             else stored == blocks[b]
    requires (forall n :: n in list.nodes ==> n in made') && forall c :: c in blocks' ==> c in made'
    ensures Tracks(list, blocks', List(l, b, copy, k), made')
  {
    PickInsert(blocks, blocks', l.listed, k, if copy then |l.data| else b);
  }

  lemma TracksStill<V>(list: DpList<V>, blocks: seq<Cell<V>>, l: Ledger<V>, made: set<object>)
    requires Known(l) && list.Valid() && Hold(blocks, l) && list.elems == Pick(blocks, l.listed)
    requires (forall n :: n in list.nodes ==> n in made) && forall b :: b in blocks ==> b in made
    ensures Tracks(list, blocks, l, made)
  {
  }

  method PutSortedBlock<V>(list: DpList<V>, blocks: seq<Cell<V>>, b: nat, copy: bool, ghost l: Ledger<V>,
                           ghost made: set<object>)
      returns (blocks': seq<Cell<V>>, ghost made': set<object>)
    requires Tracks(list, blocks, l, made) && b < |l.data|
    modifies list, made
    ensures Tracks(list, blocks', List(l, b, copy, InsertPos(list.compare, Listed(l), l.data[b])), made')
    ensures made <= made' && fresh(made' - made)
  {
    hide *;
    TrackedList(list, blocks, l, made);
    ghost var nodes, elems, k := list.nodes, list.elems, InsertPos(list.compare, Listed(l), l.data[b]);
    ghost var link;
    var stored;
    stored, link := list.InsertSorted(blocks[b], copy);
    blocks', made' := if copy then blocks + [stored] else blocks, made + {link, stored};
    InsertAtElements(nodes, k, link);
    TracksList(list, blocks, l, made, elems, b, copy, k, stored, blocks', made');
  }

  method PutBlockAt<V>(list: DpList<V>, blocks: seq<Cell<V>>, b: nat, index: int, copy: bool, ghost l: Ledger<V>,
                       ghost made: set<object>) returns (blocks': seq<Cell<V>>, ghost made': set<object>)
    requires Tracks(list, blocks, l, made) && b < |l.data|
    modifies list, made
    ensures Tracks(list, blocks',
                   if Aborts(index, |l.listed|) then l else List(l, b, copy, InsertIndex(index, |l.listed|)), made')
    ensures made <= made' && fresh(made' - made)
  {
    hide *;
    TrackedList(list, blocks, l, made);
    ghost var nodes, elems, k := list.nodes, list.elems, InsertIndex(index, |l.listed|);
    var aborted, stored;
    ghost var link;
    aborted, stored, link := list.InsertAtIndex(blocks[b], index, copy);
    blocks', made' := blocks, made;
    if !aborted {
      blocks', made' := if copy then blocks + [stored] else blocks, made + {link, stored};
      InsertAtElements(nodes, k, link);
      TracksList(list, blocks, l, made, elems, b, copy, k, stored, blocks', made');
    } else {
      TracksStill(list, blocks, l, made);
    }
  }

  ghost function FreesOf<V>(blocks: seq<Cell<V>>): (fs: seq<nat>)
    reads blocks
    ensures |fs| == |blocks| && forall b :: 0 <= b < |blocks| ==> fs[b] == blocks[b].frees
  {
    seq(|blocks|, b requires 0 <= b < |blocks| reads blocks => blocks[b].frees)
  }

  /** The state after a removal; `fs` are the counters before it. */
  lemma TracksUnlist<V>(list: DpList<V>, blocks: seq<Cell<V>>, l: Ledger<V>, made: set<object>, k: nat,
                        free: bool, fs: seq<nat>)
    requires Known(l) && k < |l.listed| && |fs| == |blocks| == |l.data| && Distinct(blocks)
    requires forall b :: 0 <= b < |blocks| ==> blocks[b].data == l.data[b]
    requires forall b :: 0 <= b < |blocks| ==> fs[b] == if b in l.freed then 1 else 0
    requires forall b :: 0 <= b < |blocks| ==> blocks[b].frees == if free && b == l.listed[k] then 1 else fs[b]
    requires list.Valid() && list.elems == RemoveAt(Pick(blocks, l.listed), k)
    requires (forall n :: n in list.nodes ==> n in made) && forall b :: b in blocks ==> b in made
    ensures Tracks(list, blocks, Unlist(l, k, free), made)
  {
    PickRemove(blocks, l.listed, k);
  }

  method TakeListed<V>(list: DpList<V>, blocks: seq<Cell<V>>, index: int, free: bool, ghost l: Ledger<V>,
                       ghost made: set<object>)
    requires Tracks(list, blocks, l, made) && OwnedBlocks(l) && l.listed != []
    modifies list, made
    ensures Tracks(list, blocks, Unlist(l, Clamp(index, |l.listed|), free), made)
  {
    hide *;
    TrackedList(list, blocks, l, made);
    ghost var k, fs := Clamp(index, |l.listed|), FreesOf(blocks);
    Tracked(list, blocks, l, made, k);
    RemoveAtElements(list.nodes, k);
    list.RemoveAtIndex(index, free);
    TracksUnlist(list, blocks, l, made, k, free, fs);
  }

  /** The element at position `k` is a live block, and no other block is the same. */
  lemma Tracked<V>(list: DpList<V>, blocks: seq<Cell<V>>, l: Ledger<V>, made: set<object>, k: nat)
    requires Tracks(list, blocks, l, made) && OwnedBlocks(l) && k < |l.listed|
    ensures k < |list.elems| && l.listed[k] < |blocks| && list.elems[k] == blocks[l.listed[k]]
    ensures list.elems[k].frees == 0 && list.elems[k] in made && Distinct(blocks)
    ensures forall b :: 0 <= b < |blocks| ==> (blocks[b] == list.elems[k] <==> b == l.listed[k])
    ensures forall b :: 0 <= b < |blocks| ==> blocks[b].frees == if b in l.freed then 1 else 0
  {
  }

  method Take<V>(list: DpList<V>, blocks: seq<Cell<V>>, index: int, free: bool, ghost l: Ledger<V>,
                 ghost made: set<object>)
    requires Tracks(list, blocks, l, made) && OwnedBlocks(l)
    modifies list, made
    ensures Tracks(list, blocks, if l.listed == [] then l else Unlist(l, Clamp(index, |l.listed|), free), made)
  {
    hide *;
    TrackedList(list, blocks, l, made);
    if list.head == null {
      list.RemoveAtIndex(index, free);
      TracksStill(list, blocks, l, made);
    } else {
      TakeListed(list, blocks, index, free, l, made);
    }
  }

  /** One operation that keeps to its guard. */
  method Do<V>(list: DpList<V>, blocks: seq<Cell<V>>, op: Op<V>, ghost l: Ledger<V>, ghost made: set<object>)
      returns (blocks': seq<Cell<V>>, ghost made': set<object>)
    requires Tracks(list, blocks, l, made) && OwnedBlocks(l)
    modifies list, made
    ensures Tracks(list, blocks', Step(list.compare, l, op), made')
    ensures made <= made' && fresh(made' - made)
  {
    hide Tracks, Owned, OwnedBlocks, List, Unlist, HandIn, Listed, InsertPos, Aborts;
    TrackedList(list, blocks, l, made);
    blocks', made' := blocks, made;
    match op {
      case PutSorted(src, copy) =>
        if src.New? || src.b < |blocks| {
          var b := if src.New? then |blocks| else src.b;
          ListedHandIn(l, src);
          blocks', made' := Allocate(list, blocks, src, l, made);
          blocks', made' := PutSortedBlock(list, blocks', b, copy, HandIn(l, src), made');
        }
      case PutAt(src, index, copy) =>
        if src.New? || src.b < |blocks| {
          var b := if src.New? then |blocks| else src.b;
          ListedHandIn(l, src);
          blocks', made' := Allocate(list, blocks, src, l, made);
          blocks', made' := PutBlockAt(list, blocks', b, index, copy, HandIn(l, src), made');
        }
      case TakeAt(index, free) => Take(list, blocks, index, free, l, made);
    }
  }

  lemma TracksNothing<V>(list: DpList<V>, l: Ledger<V>)
    requires l == Ledger([], [], []) && list.Valid() && list.nodes == []
    ensures Tracks(list, [], l, {})
  {
  }

  /** Any careful run.  `blocks` are all elements of the run in the order of their allocation; the list
      and the releases are exactly those of the ledger.  As every prefix of a careful run is careful
      (`PrefixIsCareful`), this describes the list after each operation. */
  method Run<V>(compare: (V, V) -> int, ops: seq<Op<V>>)
      returns (list: DpList<V>, blocks: seq<Cell<V>>, ghost made: set<object>)
    requires Careful(compare, ops)
    ensures list.compare == compare && Tracks(list, blocks, After(compare, ops), made) && fresh(list) && fresh(made)
    ensures Owned(list.elems) && Load(list.elems) == Listed(After(compare, ops))
  {
    hide Tracks, Owned, Careful, Step, OwnedBlocks, FreedOnce;
    list := new DpList<V>(compare);
    blocks, made := [], {};
    assert ops[..0] == [];
    TracksNothing(list, After(compare, ops[..0]));
    var k := 0;
    while k < |ops|
      invariant 0 <= k <= |ops| && list.compare == compare
      invariant Tracks(list, blocks, After(compare, ops[..k]), made) && fresh(list) && fresh(made)
    {
      OwnedAfter(compare, ops, k);
      AfterNext(compare, ops, k);
      blocks, made := Do(list, blocks, ops[k], After(compare, ops[..k]), made);
      k := k + 1;
    }
    assert ops[..k] == ops;
    OwnedAfter(compare, ops, k);
    TrackedList(list, blocks, After(compare, ops), made);
  }

  /** A careful run and a final `dpl_free`.  Each element was released once if it was listed at the end
      or left the list with `free`, and not at all otherwise.  `handed` are the elements that the client
      allocated, in order. */
  method RunAndFree<V>(compare: (V, V) -> int, ops: seq<Op<V>>)
      returns (handed: seq<Cell<V>>, blocks: seq<Cell<V>>)
    requires Careful(compare, ops)
    ensures Distinct(blocks) && |blocks| == |After(compare, ops).data|
    ensures forall b :: 0 <= b < |blocks| ==> blocks[b].data == After(compare, ops).data[b]
    ensures forall b :: 0 <= b < |blocks| ==>
      blocks[b].frees == if b in After(compare, ops).freed || b in After(compare, ops).listed then 1 else 0
    ensures |handed| == |Put(ops)| && forall k :: 0 <= k < |handed| ==> handed[k].data == Put(ops)[k]
    ensures forall k :: 0 <= k < |handed| ==>
      Handed(compare, ops)[k] < |blocks| && handed[k] == blocks[Handed(compare, ops)[k]]
  {
    var list;
    ghost var made;
    list, blocks, made := Run(compare, ops);
    FreeListed(list, blocks, After(compare, ops), made);
    HandedHold(compare, ops);
    handed := Pick(blocks, Handed(compare, ops));
  }

  /** Lines 71-83 after a run. */
  method FreeListed<V>(list: DpList<V>, blocks: seq<Cell<V>>, ghost l: Ledger<V>, ghost made: set<object>)
    requires Tracks(list, blocks, l, made) && Owned(list.elems)
    modifies list, made
    ensures forall b :: 0 <= b < |blocks| ==>
      blocks[b].data == l.data[b] && blocks[b].frees == if b in l.freed || b in l.listed then 1 else 0
  {
    ghost var elems := list.elems;
    forall b | 0 <= b < |blocks|
      ensures blocks[b] in elems <==> b in l.listed
    {
      if b in l.listed {
        var i :| 0 <= i < |l.listed| && l.listed[i] == b;
        assert elems[i] == blocks[b];
      }
      if i :| 0 <= i < |elems| && elems[i] == blocks[b] {
        assert l.listed[i] == b;
      }
    }
    list.Free(true);
  }
}
