/** Who owns which element over any sequence of operations on one list (`dplist.c` lines 71-83, 114-118,
    128, 143 and 248), on the level of block numbers: blocks are numbered as they are allocated. */
module Ledgers {
  import opened ListSpec

  /** What a client hands in: a block that it allocates for this, or the pointer to block `b` again. */
  datatype Source<V> = New(v: V) | Again(b: nat)

  datatype Op<V> =
    | PutSorted(src: Source<V>, copy: bool)
    | PutAt(src: Source<V>, index: int, copy: bool)
    | TakeAt(index: int, free: bool)

  /** `data` are the contents of all blocks, `listed` the blocks on the list, `freed` those released so
      far, in order and once per release. */
  datatype Ledger<V> = Ledger(data: seq<V>, listed: seq<nat>, freed: seq<nat>)

  ghost predicate Known<V>(l: Ledger<V>) {
    && (forall i :: 0 <= i < |l.listed| ==> l.listed[i] < |l.data|)
    && (forall i :: 0 <= i < |l.freed| ==> l.freed[i] < |l.data|)
  }

  /** What is on the list. */
  function Listed<V>(l: Ledger<V>): (vs: seq<V>)
    requires Known(l)
    ensures |vs| == |l.listed|
    ensures forall i :: 0 <= i < |vs| ==> vs[i] == l.data[l.listed[i]]
  {
    seq(|l.listed|, i requires 0 <= i < |l.listed| => l.data[l.listed[i]])
  }

  /** There is no pointer to a block that was never allocated. */
  predicate Exists<V>(l: Ledger<V>, src: Source<V>) {
    src.New? || src.b < |l.data|
  }

  function BlockOf<V>(l: Ledger<V>, src: Source<V>): nat {
    if src.New? then |l.data| else src.b
  }

  function ValueOf<V>(l: Ledger<V>, src: Source<V>): V
    requires Exists(l, src)
  {
    if src.New? then src.v else l.data[src.b]
  }

  function HandIn<V>(l: Ledger<V>, src: Source<V>): (l': Ledger<V>)
    requires Known(l) && Exists(l, src)
    ensures Known(l') && BlockOf(l, src) < |l'.data| && l'.data[BlockOf(l, src)] == ValueOf(l, src)
    ensures l'.listed == l.listed && l'.freed == l.freed
  {
    if src.New? then l.(data := l.data + [src.v]) else l
  }

  /** Block `b`, or a copy of it, enters the list at position `k`. */
  function List<V>(l: Ledger<V>, b: nat, copy: bool, k: nat): (l': Ledger<V>)
    requires Known(l) && b < |l.data| && k <= |l.listed|
    ensures Known(l')
  {
    if copy then Ledger(l.data + [l.data[b]], InsertAt(l.listed, k, |l.data|), l.freed)
    else l.(listed := InsertAt(l.listed, k, b))
  }

  /** The block at position `k` leaves the list. */
  function Unlist<V>(l: Ledger<V>, k: nat, free: bool): (l': Ledger<V>)
    requires Known(l) && k < |l.listed|
    ensures Known(l')
  {
    Ledger(l.data, RemoveAt(l.listed, k), if free then l.freed + [l.listed[k]] else l.freed)
  }

  function Step<V>(cmp: (V, V) -> int, l: Ledger<V>, op: Op<V>): (l': Ledger<V>)
    requires Known(l)
    ensures Known(l')
  {
    match op
    case PutSorted(src, copy) =>
      if !Exists(l, src) then l
      else List(HandIn(l, src), BlockOf(l, src), copy, InsertPos(cmp, Listed(l), ValueOf(l, src)))
    case PutAt(src, index, copy) =>
      if !Exists(l, src) then l
      else if Aborts(index, |l.listed|) then HandIn(l, src)
      else List(HandIn(l, src), BlockOf(l, src), copy, InsertIndex(index, |l.listed|))
    case TakeAt(index, free) =>
      if l.listed == [] then l else Unlist(l, Clamp(index, |l.listed|), free)
  }

  function After<V>(cmp: (V, V) -> int, ops: seq<Op<V>>): (l: Ledger<V>)
    ensures Known(l)
  {
    if ops == [] then Ledger([], [], []) else Step(cmp, After(cmp, ops[..|ops| - 1]), ops[|ops| - 1])
  }

  lemma ListedList<V>(l: Ledger<V>, b: nat, copy: bool, k: nat)
    requires Known(l) && b < |l.data| && k <= |l.listed|
    ensures Listed(List(l, b, copy, k)) == InsertAt(Listed(l), k, l.data[b])
  {
  }

  lemma ListedUnlist<V>(l: Ledger<V>, k: nat, free: bool)
    requires Known(l) && k < |l.listed|
    ensures Listed(Unlist(l, k, free)) == RemoveAt(Listed(l), k)
  {
  }

  lemma ListedHandIn<V>(l: Ledger<V>, src: Source<V>)
    requires Known(l) && Exists(l, src)
    ensures Listed(HandIn(l, src)) == Listed(l)
  {
  }

  /** The contents of the list follow the sequence operations, whichever blocks hold them. */
  lemma ListedValues<V>(cmp: (V, V) -> int, l: Ledger<V>, op: Op<V>)
    requires Known(l)
    ensures var before, after := Listed(l), Listed(Step(cmp, l, op));
      match op
      case PutSorted(src, copy) =>
        after == if Exists(l, src) then SortedInsert(cmp, before, ValueOf(l, src)) else before
      case PutAt(src, index, copy) =>
        after == if Exists(l, src) && !Aborts(index, |before|)
                 then InsertAt(before, InsertIndex(index, |before|), ValueOf(l, src)) else before
      case TakeAt(index, free) =>
        after == if before == [] then [] else RemoveAt(before, Clamp(index, |before|))
  {
    hide Listed, List, Unlist, HandIn, InsertPos;
    match op
    case PutSorted(src, copy) =>
      if Exists(l, src) {
        ListedHandIn(l, src);
        ListedList(HandIn(l, src), BlockOf(l, src), copy, InsertPos(cmp, Listed(l), ValueOf(l, src)));
      }
    case PutAt(src, index, copy) =>
      if Exists(l, src) {
        ListedHandIn(l, src);
        if !Aborts(index, |l.listed|) {
          ListedList(HandIn(l, src), BlockOf(l, src), copy, InsertIndex(index, |l.listed|));
        }
      }
    case TakeAt(index, free) =>
      if l.listed != [] {
        ListedUnlist(l, Clamp(index, |l.listed|), free);
      }
  }

  /** What an operation does to blocks, list and releases, written out: a put allocates the client's block and
      the copy if there are to be any and lists one block; a removal releases exactly on request. */
  lemma StepExactly<V>(cmp: (V, V) -> int, l: Ledger<V>, op: Op<V>)
    requires Known(l)
    ensures var l', n := Step(cmp, l, op), |l.listed|;
      match op
      case PutSorted(src, copy) =>
        (src.New? || src.b < |l.data|) ==>
          var k, v := InsertPos(cmp, Listed(l), ValueOf(l, src)), ValueOf(l, src);
          && l'.data == l.data + (if src.New? then [v] else []) + (if copy then [v] else [])
          && l'.listed == l.listed[..k] + [if copy then |l'.data| - 1 else if src.New? then |l.data| else src.b] +
                          l.listed[k..]
          && l'.freed == l.freed
      case PutAt(src, index, copy) =>
        (src.New? || src.b < |l.data|) && (index <= 0 || n > 0) ==>
          var k, v := if index <= 0 then 0 else if index < n then index else n, ValueOf(l, src);
          && l'.data == l.data + (if src.New? then [v] else []) + (if copy then [v] else [])
          && l'.listed == l.listed[..k] + [if copy then |l'.data| - 1 else if src.New? then |l.data| else src.b] +
                          l.listed[k..]
          && l'.freed == l.freed
      case TakeAt(index, free) =>
        n > 0 ==>
          var k := if index <= 0 then 0 else if index < n then index else n - 1;
          && l'.data == l.data && l'.listed == l.listed[..k] + l.listed[k + 1..]
          && l'.freed == l.freed + if free then [l.listed[k]] else []
  {
    hide Listed, InsertPos;
  }

  // ---- Ownership ----

  /** Every listed block is listed once and was not released. */
  ghost predicate OwnedBlocks<V>(l: Ledger<V>) {
    && Distinct(l.listed)
    && forall i :: 0 <= i < |l.listed| ==> l.listed[i] !in l.freed
  }

  /** What an operation asks of its client: a pointer that is handed in without copying belongs to a
      block that is neither listed nor released. */
  predicate Guard<V>(l: Ledger<V>, op: Op<V>) {
    match op
    case PutSorted(Again(b), false) => b < |l.data| ==> b !in l.listed && b !in l.freed
    case PutAt(Again(b), index, false) =>
      b < |l.data| && !Aborts(index, |l.listed|) ==> b !in l.listed && b !in l.freed
    case _ => true
  }

  lemma ListingOwned<V>(l: Ledger<V>, b: nat, copy: bool, k: nat)
    requires Known(l) && OwnedBlocks(l) && b < |l.data| && k <= |l.listed|
    ensures OwnedBlocks(List(l, b, copy, k)) <==> copy || (b !in l.listed && b !in l.freed)
  {
    var x, more := if copy then |l.data| else b, List(l, b, copy, k).listed;
    InsertAtElements(l.listed, k, x);
    assert more[k] == x;
    if x !in l.listed {
      InsertKeepsDistinct(l.listed, k, x);
    } else {
      var i :| 0 <= i < |l.listed| && l.listed[i] == x;
      assert more[if i < k then i else i + 1] == x;
    }
  }

  lemma UnlistingOwned<V>(l: Ledger<V>, k: nat, free: bool)
    requires Known(l) && OwnedBlocks(l) && k < |l.listed|
    ensures OwnedBlocks(Unlist(l, k, free))
  {
  }

  /** Ownership survives an operation if and only if its guard holds. */
  lemma GuardIsExact<V>(cmp: (V, V) -> int, l: Ledger<V>, op: Op<V>)
    requires Known(l) && OwnedBlocks(l)
    ensures OwnedBlocks(Step(cmp, l, op)) <==> Guard(l, op)
  {
    match op
    case PutSorted(src, copy) =>
      if Exists(l, src) {
        ListingOwned(HandIn(l, src), BlockOf(l, src), copy, InsertPos(cmp, Listed(l), ValueOf(l, src)));
      }
    case PutAt(src, index, copy) =>
      if Exists(l, src) && !Aborts(index, |l.listed|) {
        ListingOwned(HandIn(l, src), BlockOf(l, src), copy, InsertIndex(index, |l.listed|));
      }
    case TakeAt(index, free) =>
      if l.listed != [] {
        UnlistingOwned(l, Clamp(index, |l.listed|), free);
      }
  }

  ghost predicate Careful<V>(cmp: (V, V) -> int, ops: seq<Op<V>>) {
    forall k :: 0 <= k < |ops| ==> Guard(After(cmp, ops[..k]), ops[k])
  }

  lemma AfterNext<V>(cmp: (V, V) -> int, ops: seq<Op<V>>, k: nat)
    requires k < |ops|
    ensures After(cmp, ops[..k + 1]) == Step(cmp, After(cmp, ops[..k]), ops[k])
  {
    assert ops[..k + 1][..k] == ops[..k];
  }

  lemma PrefixIsCareful<V>(cmp: (V, V) -> int, ops: seq<Op<V>>, n: nat)
    requires Careful(cmp, ops) && n <= |ops|
    ensures Careful(cmp, ops[..n])
  {
    forall k | 0 <= k < n
      ensures Guard(After(cmp, ops[..n][..k]), ops[..n][k])
    {
      assert ops[..n][..k] == ops[..k];
    }
  }

  /** Freeing the list now releases no block twice. */
  ghost predicate FreedOnce<V>(l: Ledger<V>) {
    Distinct(l.freed + l.listed)
  }

  lemma FreedOnceIs<V>(l: Ledger<V>)
    ensures FreedOnce(l) <==> OwnedBlocks(l) && Distinct(l.freed)
  {
    var all, n := l.freed + l.listed, |l.freed|;
    assert forall i :: 0 <= i < n ==> all[i] == l.freed[i];
    assert forall i :: 0 <= i < |l.listed| ==> l.listed[i] == all[n + i];
    if FreedOnce(l) {
      forall i, j | 0 <= i < |l.listed| && 0 <= j < n
        ensures l.listed[i] != l.freed[j]
      {
        assert all[j] != all[n + i];
      }
    }
  }

  lemma FreedStaysDistinct<V>(cmp: (V, V) -> int, l: Ledger<V>, op: Op<V>)
    requires Known(l) && OwnedBlocks(l) && Distinct(l.freed)
    ensures Distinct(Step(cmp, l, op).freed)
  {
    if op.TakeAt? && op.free && l.listed != [] {
      var b := l.listed[Clamp(op.index, |l.listed|)];
      assert b !in l.freed;
    }
  }

  lemma NothingYet<V>(cmp: (V, V) -> int, ops: seq<Op<V>>)
    requires ops == []
    ensures OwnedBlocks(After(cmp, ops)) && Distinct(After(cmp, ops).freed)
  {
  }

  lemma {:induction false} OwnedAfter<V>(cmp: (V, V) -> int, ops: seq<Op<V>>, k: nat)
    requires Careful(cmp, ops) && k <= |ops|
    ensures OwnedBlocks(After(cmp, ops[..k])) && FreedOnce(After(cmp, ops[..k]))
  {
    hide After, Step, Guard, OwnedBlocks;
    if k == 0 {
      NothingYet(cmp, ops[..0]);
    } else {
      var l := After(cmp, ops[..k - 1]);
      OwnedAfter(cmp, ops, k - 1);
      AfterNext(cmp, ops, k - 1);
      GuardIsExact(cmp, l, ops[k - 1]);
      FreedOnceIs(l);
      FreedStaysDistinct(cmp, l, ops[k - 1]);
    }
    FreedOnceIs(After(cmp, ops[..k]));
  }

  /** The exact condition over a whole run: freeing the list after any of the operations releases each
      block at most once if and only if the guard of every operation held. */
  lemma CarefulIsExact<V>(cmp: (V, V) -> int, ops: seq<Op<V>>)
    ensures Careful(cmp, ops) <==> forall k :: 0 <= k <= |ops| ==> FreedOnce(After(cmp, ops[..k]))
    ensures Careful(cmp, ops) <==> forall k :: 0 <= k <= |ops| ==> OwnedBlocks(After(cmp, ops[..k]))
  {
    if Careful(cmp, ops) {
      forall k | 0 <= k <= |ops|
        ensures OwnedBlocks(After(cmp, ops[..k])) && FreedOnce(After(cmp, ops[..k]))
      {
        OwnedAfter(cmp, ops, k);
      }
    } else {
      var k :| 0 <= k < |ops| && !Guard(After(cmp, ops[..k]), ops[k]);
      AfterNext(cmp, ops, k);
      FreedOnceIs(After(cmp, ops[..k]));
      FreedOnceIs(After(cmp, ops[..k + 1]));
      if OwnedBlocks(After(cmp, ops[..k])) {
        GuardIsExact(cmp, After(cmp, ops[..k]), ops[k]);
      }
    }
  }

  /** After a careful run, the releases so far and those of a final `dpl_free` are of different blocks: none
      is released twice, and none while it stays listed. */
  lemma EachFreedOnce<V>(cmp: (V, V) -> int, ops: seq<Op<V>>)
    requires Careful(cmp, ops)
    ensures OwnedBlocks(After(cmp, ops)) && Distinct(After(cmp, ops).freed + After(cmp, ops).listed)
  {
    OwnedAfter(cmp, ops, |ops|);
    assert ops[..|ops|] == ops;
  }

  /** A client that never hands in an old pointer without copying is careful. */
  lemma FreshIsCareful<V>(cmp: (V, V) -> int, ops: seq<Op<V>>)
    requires forall k :: 0 <= k < |ops| ==> ops[k].TakeAt? || ops[k].copy || ops[k].src.New?
    ensures Careful(cmp, ops)
  {
  }

  lemma AfterFour<V>(cmp: (V, V) -> int, a: Op<V>, b: Op<V>, c: Op<V>, d: Op<V>)
    ensures After(cmp, [a, b, c, d]) == Step(cmp, Step(cmp, Step(cmp, Step(cmp, Ledger([], [], []), a), b), c), d)
  {
    hide Step;
    var ops := [a, b, c, d];
    assert ops[..4] == ops && ops[..3][..2] == ops[..2] && ops[..2][..1] == ops[..1] && ops[..0] == [];
    AfterNext(cmp, ops, 0);
    AfterNext(cmp, ops, 1);
    AfterNext(cmp, ops, 2);
    AfterNext(cmp, ops, 3);
  }

  /** A pointer handed in twice and taken out twice is released twice. */
  lemma HandedInTwice<V>(cmp: (V, V) -> int, v: V)
    ensures After(cmp, [PutAt(New(v), 0, false), PutAt(Again(0), 0, false), TakeAt(0, true), TakeAt(0, true)]).freed
            == [0, 0]
  {
    hide After;
    AfterFour(cmp, PutAt(New(v), 0, false), PutAt(Again(0), 0, false), TakeAt(0, true), TakeAt(0, true));
  }

  // ---- The blocks that the client allocated ----

  /** The values put with a new block, in order. */
  function Put<V>(ops: seq<Op<V>>): (vs: seq<V>) {
    if ops == [] then []
    else
      var before, op := Put(ops[..|ops| - 1]), ops[|ops| - 1];
      if !op.TakeAt? && op.src.New? then before + [op.src.v] else before
  }

  /** The numbers of those blocks. */
  function Handed<V>(cmp: (V, V) -> int, ops: seq<Op<V>>): (bs: seq<nat>)
    ensures |bs| == |Put(ops)|
  {
    if ops == [] then []
    else
      var before, op := ops[..|ops| - 1], ops[|ops| - 1];
      if !op.TakeAt? && op.src.New? then Handed(cmp, before) + [|After(cmp, before).data|] else Handed(cmp, before)
  }

  lemma DataGrows<V>(cmp: (V, V) -> int, l: Ledger<V>, op: Op<V>)
    requires Known(l)
    ensures l.data <= Step(cmp, l, op).data
    ensures !op.TakeAt? && op.src.New? ==>
      |l.data| < |Step(cmp, l, op).data| && Step(cmp, l, op).data[|l.data|] == op.src.v
  {
  }

  /** The blocks of the client are pairwise different and hold the values put, in order. */
  lemma {:induction false} HandedHold<V>(cmp: (V, V) -> int, ops: seq<Op<V>>)
    ensures forall k :: 0 <= k < |Put(ops)| ==>
      Handed(cmp, ops)[k] < |After(cmp, ops).data| && After(cmp, ops).data[Handed(cmp, ops)[k]] == Put(ops)[k]
    ensures Distinct(Handed(cmp, ops))
  {
    if ops != [] {
      HandedHold(cmp, ops[..|ops| - 1]);
      DataGrows(cmp, After(cmp, ops[..|ops| - 1]), ops[|ops| - 1]);
    }
  }
}
