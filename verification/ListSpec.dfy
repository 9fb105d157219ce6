/** What the list operations of `dplist.c` mean on sequences. */
module ListSpec {

  function InsertAt<T>(s: seq<T>, k: nat, x: T): seq<T>
    requires k <= |s|
  {
    s[..k] + [x] + s[k..]
  }

  lemma InsertAtExactly<T>(s: seq<T>, k: nat, x: T)
    requires k <= |s|
    ensures InsertAt(s, k, x) == s[..k] + [x] + s[k..] && InsertAt(s, k, x)[k] == x
    ensures k == 0 ==> InsertAt(s, k, x) == [x] + s
    ensures k == |s| ==> InsertAt(s, k, x) == s + [x]
  {
  }

  lemma InsertAtElements<T>(s: seq<T>, k: nat, x: T)
    requires k <= |s|
    ensures forall y :: y in InsertAt(s, k, x) <==> y == x || y in s
  {
    assert s == s[..k] + s[k..];
  }

  lemma Regroup<T>(a: seq<T>, b: seq<T>, c: seq<T>)
    ensures (a + b) + c == a + (b + c)
  {
  }

  ghost predicate Distinct<T>(s: seq<T>) {
    forall i, j :: 0 <= i < j < |s| ==> s[i] != s[j]
  }

  lemma InsertKeepsDistinct<T>(s: seq<T>, k: nat, x: T)
    requires k <= |s| && Distinct(s) && x !in s
    ensures Distinct(InsertAt(s, k, x))
  {
    forall i, j | 0 <= i < j < |s| + 1
      ensures InsertAt(s, k, x)[i] != InsertAt(s, k, x)[j]
    {
      var i', j' := if i < k then i else i - 1, if j < k then j else j - 1;
      assert i != k ==> InsertAt(s, k, x)[i] == s[i'] && s[i'] in s;
      assert j != k ==> InsertAt(s, k, x)[j] == s[j'] && s[j'] in s;
    }
  }

  function RemoveAt<T>(s: seq<T>, k: nat): seq<T>
    requires k < |s|
  {
    s[..k] + s[k + 1..]
  }

  lemma RemoveAtElements<T>(s: seq<T>, k: nat)
    requires k < |s|
    ensures |RemoveAt(s, k)| == |s| - 1
    ensures forall x :: x in RemoveAt(s, k) ==> x in s
  {
  }

  /** The node that an index denotes: the first one when it is too small, the last when too large. */
  function Clamp(index: int, n: nat): (k: nat)
    requires n > 0
    ensures k < n
  {
    if index <= 0 then 0 else if index < n then index else n - 1
  }

  /** The position that an insertion index denotes: the front, the index or the end. */
  function InsertIndex(index: int, n: nat): (k: nat)
    ensures k <= n
  {
    if index <= 0 then 0 else if index < n then index else n
  }

  /** When an insertion by index aborts (`dplist.c` line 102) although it should go to the end. */
  predicate Aborts(index: int, n: nat) {
    n == 0 && index > 0
  }

  /** Position of the first element comparing equal to `key`, or -1. */
  function IndexOf<V>(cmp: (V, V) -> int, s: seq<V>, key: V): (r: int)
    ensures -1 <= r < |s|
    ensures 0 <= r ==> cmp(key, s[r]) == 0 && forall j :: 0 <= j < r ==> cmp(key, s[j]) != 0
    ensures r == -1 ==> forall j :: 0 <= j < |s| ==> cmp(key, s[j]) != 0
  {
    if s == [] then -1
    else if cmp(key, s[0]) == 0 then 0
    else
      var r := IndexOf(cmp, s[1..], key);
      if r == -1 then -1 else r + 1
  }

  /** The node at which the search loop of the sorted insert stops. */
  function StopIndex<V>(cmp: (V, V) -> int, s: seq<V>, v: V): (k: nat)
    requires s != []
    ensures k < |s|
    ensures forall j :: 0 <= j < k ==> cmp(v, s[j]) > 0
    ensures k < |s| - 1 ==> cmp(v, s[k]) <= 0
  {
    if |s| == 1 || cmp(v, s[0]) <= 0 then 0 else 1 + StopIndex(cmp, s[1..], v)
  }

  /** The position a sorted insert gives to the new element. */
  function InsertPos<V>(cmp: (V, V) -> int, s: seq<V>, v: V): (k: nat)
    ensures k <= |s|
  {
    if s == [] then 0
    else
      var k := StopIndex(cmp, s, v);
      if k == |s| - 1 && cmp(v, s[k]) >= 0 then |s| else k
  }

  function SortedInsert<V>(cmp: (V, V) -> int, s: seq<V>, v: V): (r: seq<V>)
    ensures |r| == |s| + 1
  {
    InsertAt(s, InsertPos(cmp, s, v), v)
  }

  /** The stop index is the only place where the search loop can stop. */
  lemma StopIndexIs<V>(cmp: (V, V) -> int, s: seq<V>, v: V, k: nat)
    requires k < |s|
    requires forall j :: 0 <= j < k ==> cmp(v, s[j]) > 0
    requires k < |s| - 1 ==> cmp(v, s[k]) <= 0
    ensures StopIndex(cmp, s, v) == k
  {
  }

  /** A search result is pinned down by being the first match, or by there being none. */
  lemma IndexOfIs<V>(cmp: (V, V) -> int, s: seq<V>, key: V, r: int)
    requires -1 <= r < |s|
    requires 0 <= r ==> cmp(key, s[r]) == 0 && forall j :: 0 <= j < r ==> cmp(key, s[j]) != 0
    requires r == -1 ==> forall j :: 0 <= j < |s| ==> cmp(key, s[j]) != 0
    ensures IndexOf(cmp, s, key) == r
  {
  }

  function Reverse<V>(s: seq<V>): (r: seq<V>)
    ensures |r| == |s|
    ensures forall i :: 0 <= i < |s| ==> r[i] == s[|s| - 1 - i]
  {
    if s == [] then [] else [s[|s| - 1]] + Reverse(s[..|s| - 1])
  }

  /** The list after sorted insertion of `vs`, one after the other, into the empty list. */
  function InsertAll<V>(cmp: (V, V) -> int, vs: seq<V>): (r: seq<V>)
    ensures |r| == |vs|
  {
    if vs == [] then [] else SortedInsert(cmp, InsertAll(cmp, vs[..|vs| - 1]), vs[|vs| - 1])
  }
}
