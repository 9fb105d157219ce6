/** What sorted insertion (`dplist.c` lines 245-279) achieves, depending on the comparator. */
module Ordering {
  import opened ListSpec

  /** The comparators that the header (line 27) asks for. */
  ghost predicate TotalPreorder<V(!new)>(cmp: (V, V) -> int) {
    && (forall x, y :: cmp(x, y) <= 0 <==> cmp(y, x) >= 0)
    && (forall x, y, z :: cmp(x, y) <= 0 && cmp(y, z) <= 0 ==> cmp(x, z) <= 0)
  }

  ghost predicate Sorted<V>(cmp: (V, V) -> int, s: seq<V>) {
    forall i, j :: 0 <= i < j < |s| ==> cmp(s[i], s[j]) <= 0
  }

  /** The position is the only one that fits the comparisons, for any comparator: the new element is greater
      than all before it (the last element of the old list excepted) and not greater than the next one; at
      the end only if it is not smaller than the last, right before the last only if it is smaller. */
  lemma PositionExactly<V>(cmp: (V, V) -> int, s: seq<V>, v: V, k: nat)
    requires k <= |s|
    ensures k == InsertPos(cmp, s, v) <==>
      && (forall j :: 0 <= j < k && j < |s| - 1 ==> cmp(v, s[j]) > 0)
      && (k < |s| - 1 ==> cmp(v, s[k]) <= 0)
      && (s != [] && k == |s| - 1 ==> cmp(v, s[k]) < 0)
      && (s != [] && k == |s| ==> cmp(v, s[k - 1]) >= 0)
  {
    if s != [] {
      var i := StopIndex(cmp, s, v);
      if k < i {
        assert cmp(v, s[k]) > 0;
      }
    }
  }

  /** Everything before the new element is not greater, everything behind it not smaller. */
  lemma Placement<V(!new)>(cmp: (V, V) -> int, s: seq<V>, v: V)
    requires TotalPreorder(cmp) && Sorted(cmp, s)
    ensures forall j :: 0 <= j < InsertPos(cmp, s, v) ==> cmp(s[j], v) <= 0
    ensures forall j :: InsertPos(cmp, s, v) <= j < |s| ==> cmp(v, s[j]) <= 0
  {
    if s != [] {
      var k := StopIndex(cmp, s, v);
      forall j | 0 <= j < |s|
        ensures j < k ==> cmp(s[j], v) <= 0
        ensures j == k == |s| - 1 && cmp(v, s[k]) >= 0 ==> cmp(s[j], v) <= 0
        ensures k <= j && cmp(v, s[k]) <= 0 ==> cmp(v, s[j]) <= 0
      {
        if k < j && cmp(v, s[k]) <= 0 {
          assert cmp(s[k], s[j]) <= 0;
        }
      }
    }
  }

  lemma InsertAtSorted<V>(cmp: (V, V) -> int, s: seq<V>, k: nat, v: V)
    requires k <= |s| && Sorted(cmp, s)
    requires forall j :: 0 <= j < k ==> cmp(s[j], v) <= 0
    requires forall j :: k <= j < |s| ==> cmp(v, s[j]) <= 0
    ensures Sorted(cmp, InsertAt(s, k, v))
  {
  }

  lemma SortedWithout<V>(cmp: (V, V) -> int, s: seq<V>, k: nat, v: V)
    requires k <= |s| && Sorted(cmp, InsertAt(s, k, v))
    ensures Sorted(cmp, s)
  {
    var r := InsertAt(s, k, v);
    forall i, j | 0 <= i < j < |s|
      ensures cmp(s[i], s[j]) <= 0
    {
      var i', j' := if i < k then i else i + 1, if j < k then j else j + 1;
      assert s[i] == r[i'] && s[j] == r[j'];
    }
  }

  /** An insertion adds one occurrence, and the removal at the same place undoes it. */
  lemma InsertAtContents<V>(s: seq<V>, k: nat, v: V)
    requires k <= |s|
    ensures multiset(InsertAt(s, k, v)) == multiset(s) + multiset{v}
    ensures RemoveAt(InsertAt(s, k, v), k) == s
  {
    assert s == s[..k] + s[k..];
    assert InsertAt(s, k, v)[..k] == s[..k] && InsertAt(s, k, v)[k + 1..] == s[k..];
  }

  /** With a total preorder a sorted insert leaves the list sorted exactly if it was sorted before. */
  lemma SortedInsertKeepsOrder<V(!new)>(cmp: (V, V) -> int, s: seq<V>, v: V)
    requires TotalPreorder(cmp)
    ensures Sorted(cmp, SortedInsert(cmp, s, v)) <==> Sorted(cmp, s)
  {
    var k := InsertPos(cmp, s, v);
    if Sorted(cmp, s) {
      Placement(cmp, s, v);
      InsertAtSorted(cmp, s, k, v);
    }
    if Sorted(cmp, InsertAt(s, k, v)) {
      SortedWithout(cmp, s, k, v);
    }
  }

  /** Inserting any sequence one by one sorts it. */
  lemma {:induction false} InsertAllSorts<V(!new)>(cmp: (V, V) -> int, vs: seq<V>)
    requires TotalPreorder(cmp)
    ensures Sorted(cmp, InsertAll(cmp, vs))
  {
    if vs != [] {
      InsertAllSorts(cmp, vs[..|vs| - 1]);
      SortedInsertKeepsOrder(cmp, InsertAll(cmp, vs[..|vs| - 1]), vs[|vs| - 1]);
    }
  }

  /** Whatever the comparator, the list holds what was inserted, each occurrence once. */
  lemma {:induction false} InsertAllContents<V>(cmp: (V, V) -> int, vs: seq<V>)
    ensures multiset(InsertAll(cmp, vs)) == multiset(vs)
  {
    if vs != [] {
      var before, v := vs[..|vs| - 1], vs[|vs| - 1];
      InsertAllContents(cmp, before);
      var k := InsertPos(cmp, InsertAll(cmp, before), v);
      InsertAtContents(InsertAll(cmp, before), k, v);
      assert vs == before + [v];
    }
  }

  /** Where line 266 as written (`< 0`) sends an insertion that is no longer at the first branch:
      to line 274, with `pt` still the head and hence `pt->prev` NULL. */
  predicate WritesThroughNull<V>(cmp: (V, V) -> int, s: seq<V>, v: V) {
    && s != []
    && var k := StopIndex(cmp, s, v);
       && !(k == |s| - 1 && cmp(v, s[k]) >= 0)
       && !(k == 0 && cmp(v, s[0]) < 0)
       && k == 0
  }

  /** The unrepaired head test fails for exactly the elements equal to the head of a longer list. */
  lemma HeadTestFails<V>(cmp: (V, V) -> int, s: seq<V>, v: V)
    ensures WritesThroughNull(cmp, s, v) <==> |s| >= 2 && cmp(v, s[0]) == 0
  {
  }

  /** Inserting 1 into the list 1, 2. */
  lemma HeadTestFailsOnEqual()
    ensures WritesThroughNull((x: int, y: int) => x - y, [1, 2], 1)
  {
    HeadTestFails((x: int, y: int) => x - y, [1, 2], 1);
  }

  /** Comparators like the repository's two, which never answer "greater". */
  ghost predicate NeverGreater<V(!new)>(cmp: (V, V) -> int) {
    forall x, y :: cmp(x, y) == 0 || cmp(x, y) == -1
  }

  /** Such a comparator is a total preorder only if it calls everything equal. */
  lemma NeverGreaterIsNoOrder<V(!new)>(cmp: (V, V) -> int)
    requires NeverGreater(cmp)
    ensures TotalPreorder(cmp) <==> forall x, y :: cmp(x, y) == 0
  {
    if TotalPreorder(cmp) {
      forall x, y ensures cmp(x, y) == 0 {
        assert cmp(y, x) <= 0;
      }
    }
  }

  /** With such a comparator every insertion goes to the front, except that the second element goes
      behind an equal first one. */
  lemma NeverGreaterPos<V(!new)>(cmp: (V, V) -> int, s: seq<V>, v: V)
    requires NeverGreater(cmp)
    ensures InsertPos(cmp, s, v) == if |s| == 1 && cmp(v, s[0]) == 0 then 1 else 0
  {
    if s != [] {
      assert cmp(v, s[0]) == 0 || cmp(v, s[0]) == -1;
    }
  }

  lemma InsertAllTwo<V(!new)>(cmp: (V, V) -> int, a: V, b: V)
    requires NeverGreater(cmp)
    ensures InsertAll(cmp, [a]) == [a]
    ensures InsertAll(cmp, [a, b]) == if cmp(b, a) == 0 then [a, b] else [b, a]
  {
    assert [a][..0] == [] && [a, b][..1] == [a];
    assert InsertAll(cmp, [a]) == [a];
    NeverGreaterPos(cmp, [a], b);
  }

  /** Sorted insertion with such a comparator reverses the insertion order; the exact result for
      every input, equal keys included. */
  lemma {:induction false} InsertAllReverses<V(!new)>(cmp: (V, V) -> int, vs: seq<V>)
    requires NeverGreater(cmp)
    ensures InsertAll(cmp, vs) ==
            if |vs| >= 2 && cmp(vs[1], vs[0]) == 0 then Reverse(vs[2..]) + vs[..2] else Reverse(vs)
    decreases |vs|, 1
  {
    if |vs| == 1 {
      assert vs == [vs[0]];
      InsertAllTwo(cmp, vs[0], vs[0]);
    } else if |vs| == 2 {
      assert vs == [vs[0], vs[1]] && vs[..2] == vs;
      InsertAllTwo(cmp, vs[0], vs[1]);
    } else if vs != [] {
      InsertAllReversesLong(cmp, vs);
    }
  }

  lemma ReverseBehindTwo<V>(vs: seq<V>)
    requires |vs| > 2
    ensures var n := |vs| - 1; Reverse(vs[2..]) == [vs[n]] + Reverse(vs[..n][2..])
  {
    assert vs[2..][..|vs| - 3] == vs[..|vs| - 1][2..];
  }

  lemma InsertAllFront<V(!new)>(cmp: (V, V) -> int, vs: seq<V>)
    requires NeverGreater(cmp) && |vs| > 2
    ensures var n := |vs| - 1; InsertAll(cmp, vs) == [vs[n]] + InsertAll(cmp, vs[..n])
  {
    NeverGreaterPos(cmp, InsertAll(cmp, vs[..|vs| - 1]), vs[|vs| - 1]);
  }

  lemma ReverseSnoc<V>(vs: seq<V>)
    requires vs != []
    ensures Reverse(vs) == [vs[|vs| - 1]] + Reverse(vs[..|vs| - 1])
  {
  }

  lemma {:induction false} InsertAllReversesLong<V(!new)>(cmp: (V, V) -> int, vs: seq<V>)
    requires NeverGreater(cmp) && |vs| > 2
    ensures InsertAll(cmp, vs) == if cmp(vs[1], vs[0]) == 0 then Reverse(vs[2..]) + vs[..2] else Reverse(vs)
    decreases |vs|, 0
  {
    hide *;
    var n := |vs| - 1;
    var before := vs[..n];
    InsertAllReverses(cmp, before);
    InsertAllFront(cmp, vs);
    if cmp(vs[1], vs[0]) == 0 {
      ReverseBehindTwo(vs);
      Regroup([vs[n]], Reverse(before[2..]), before[..2]);
      assert before[..2] == vs[..2];
    } else {
      ReverseSnoc(vs);
    }
  }
}
