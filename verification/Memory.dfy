/** The heap blocks that the C code obtains from `malloc` and gives back with `free`. */
module Memory {
  import opened ListSpec

  /** One allocated block holding a struct of type `V`.  `frees` counts how often the block was
      released; every release below requires it to be zero, so a double free does not verify. */
  class Cell<V> {
    var data: V
    ghost var frees: nat

    constructor (v: V)
      ensures data == v && frees == 0
    {
      data, frees := v, 0;
    }

    /** The `element_free` callbacks. */
    ghost method Free()
      requires frees == 0
      modifies this`frees
      ensures frees == 1
    {
      frees := 1;
    }
  }

  /** The structs held by a sequence of blocks, read in the current heap. */
  ghost function Load<V>(cells: seq<Cell<V>>): (vs: seq<V>)
    reads cells
    ensures |vs| == |cells|
    ensures forall i :: 0 <= i < |cells| ==> vs[i] == cells[i].data
  {
    seq(|cells|, i requires 0 <= i < |cells| reads cells => cells[i].data)
  }

  /** The blocks are pairwise different and none of them was released. */
  ghost predicate Owned<V>(cells: seq<Cell<V>>)
    reads cells
  {
    && (forall i :: 0 <= i < |cells| ==> cells[i].frees == 0)
    && (forall i, j :: 0 <= i < j < |cells| ==> cells[i] != cells[j])
  }

  lemma LoadInsert<V>(cells: seq<Cell<V>>, k: nat, c: Cell<V>)
    requires k <= |cells|
    ensures Load(InsertAt(cells, k, c)) == InsertAt(Load(cells), k, c.data)
  {
  }

  lemma OwnedWithout<V>(cells: seq<Cell<V>>, k: nat, c: Cell<V>)
    requires k <= |cells| && Owned(InsertAt(cells, k, c))
    ensures Owned(cells) && c !in cells && c.frees == 0
  {
    var more := InsertAt(cells, k, c);
    assert more[k] == c;
    forall i | 0 <= i < |cells|
      ensures cells[i].frees == 0 && cells[i] != c
    {
      assert more[if i < k then i else i + 1] == cells[i];
    }
    forall i, j | 0 <= i < j < |cells|
      ensures cells[i] != cells[j]
    {
      assert more[if i < k then i else i + 1] == cells[i] && more[if j < k then j else j + 1] == cells[j];
    }
  }

  lemma OwnedWith<V>(cells: seq<Cell<V>>, k: nat, c: Cell<V>)
    requires k <= |cells| && Owned(cells) && c !in cells && c.frees == 0
    ensures Owned(InsertAt(cells, k, c))
  {
    InsertKeepsDistinct(cells, k, c);
    InsertAtElements(cells, k, c);
    hide InsertAt;
    assert forall x :: x in cells ==> x.frees == 0;
    forall i | 0 <= i < |InsertAt(cells, k, c)|
      ensures InsertAt(cells, k, c)[i].frees == 0
    {
      assert InsertAt(cells, k, c)[i] in InsertAt(cells, k, c);
    }
  }

  /** A list with one more block; it is owned exactly if it was before and the block is live and was
      not listed. */
  lemma Listing<V>(cells: seq<Cell<V>>, k: nat, c: Cell<V>)
    requires k <= |cells|
    ensures Load(InsertAt(cells, k, c)) == InsertAt(Load(cells), k, c.data)
    ensures Owned(InsertAt(cells, k, c)) <==> Owned(cells) && c !in cells && c.frees == 0
  {
    hide *;
    LoadInsert(cells, k, c);
    if Owned(InsertAt(cells, k, c)) {
      OwnedWithout(cells, k, c);
    }
    if Owned(cells) && c !in cells && c.frees == 0 {
      OwnedWith(cells, k, c);
    }
  }

  /** A list with one block less stays owned, and the block is no longer listed. */
  lemma Unlisting<V>(cells: seq<Cell<V>>, k: nat)
    requires k < |cells|
    ensures Load(RemoveAt(cells, k)) == RemoveAt(Load(cells), k)
    ensures Owned(cells) ==> Owned(RemoveAt(cells, k)) && cells[k] !in RemoveAt(cells, k)
  {
  }
}
