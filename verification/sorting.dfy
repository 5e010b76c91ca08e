/** The `Array.prototype.sort` calls of the marketplace all compare one
    numeric key, ascending (`a.k - b.k`) or descending (`b.k - a.k`), and
    JavaScript's sort is stable. `SortBy` models exactly that: a stable
    insertion sort on a real-valued key. */
module Sorting {
  import opened Wrappers

  /** `a` may stand before `b` in a list ordered by `key`
      (ascending, or descending when `desc`). */
  predicate InOrder<T>(a: T, b: T, key: T -> real, desc: bool) {
    if desc then key(a) >= key(b) else key(a) <= key(b)
  }

  ghost predicate Sorted<T>(s: seq<T>, key: T -> real, desc: bool) {
    forall i, j :: 0 <= i < j < |s| ==> InOrder(s[i], s[j], key, desc)
  }

  /** Where a stable insertion puts `x`: after the longest prefix of `s`
      whose elements may precede it. */
  function InsertPos<T>(x: T, s: seq<T>, key: T -> real, desc: bool): (p: nat)
    ensures p <= |s|
    ensures forall i :: 0 <= i < p ==> InOrder(s[i], x, key, desc)
    ensures p < |s| ==> !InOrder(s[p], x, key, desc)
  {
    if s == [] || !InOrder(s[0], x, key, desc) then 0
    else 1 + InsertPos(x, s[1..], key, desc)
  }

  /** Places `x` after every element that may precede it: one step of a
      stable insertion sort. */
  function Insert<T>(x: T, s: seq<T>, key: T -> real, desc: bool): (r: seq<T>)
    requires Sorted(s, key, desc)
    ensures Sorted(r, key, desc)
    ensures |r| == |s| + 1
  {
    var p := InsertPos(x, s, key, desc);
    var r := s[..p] + [x] + s[p..];
    assert forall j :: p <= j < |s| ==> InOrder(x, s[j], key, desc) by {
      forall j | p <= j < |s|
        ensures InOrder(x, s[j], key, desc)
      {
        if j > p {
          assert InOrder(s[p], s[j], key, desc);
        }
      }
    }
    assert forall j :: 0 <= j < |r| ==> r[j] == if j < p then s[j] else if j == p then x else s[j - 1];
    r
  }

  lemma InsertPermutes<T>(x: T, s: seq<T>, key: T -> real, desc: bool)
    requires Sorted(s, key, desc)
    ensures multiset(Insert(x, s, key, desc)) == multiset(s) + multiset{x}
  {
    var p := InsertPos(x, s, key, desc);
    assert Insert(x, s, key, desc) == s[..p] + [x] + s[p..];
    SplitMultiset(s, p, x);
  }

  lemma SplitMultiset<T>(s: seq<T>, p: nat, x: T)
    requires p <= |s|
    ensures multiset(s[..p] + [x] + s[p..]) == multiset(s) + multiset{x}
  {
    assert s[..p] + s[p..] == s;
  }

  lemma LastMultiset<T>(s: seq<T>)
    requires s != []
    ensures multiset(s) == multiset(s[..|s| - 1]) + multiset{s[|s| - 1]}
  {
    assert s == s[..|s| - 1] + [s[|s| - 1]];
  }

  /** The list sorted by `key`, as `list.sort(comparator)` leaves it. */
  function SortBy<T>(s: seq<T>, key: T -> real, desc: bool): (r: seq<T>)
    ensures Sorted(r, key, desc)
    ensures multiset(r) == multiset(s)
    ensures |r| == |s|
  {
    if s == [] then []
    else
      var sorted := SortBy(s[..|s| - 1], key, desc);
      InsertPermutes(s[|s| - 1], sorted, key, desc);
      LastMultiset(s);
      Insert(s[|s| - 1], sorted, key, desc)
  }

  /** The elements of `s` whose key is `v`, in their order in `s`. */
  function WithKey<T>(s: seq<T>, key: T -> real, v: real): seq<T> {
    if s == [] then []
    else (if key(s[0]) == v then [s[0]] else []) + WithKey(s[1..], key, v)
  }

  lemma {:induction false} WithKeyAppend<T>(a: seq<T>, b: seq<T>, key: T -> real, v: real)
    ensures WithKey(a + b, key, v) == WithKey(a, key, v) + WithKey(b, key, v)
    decreases |a|
  {
    if a != [] {
      var head := if key(a[0]) == v then [a[0]] else [];
      assert (a + b)[0] == a[0];
      assert (a + b)[1..] == a[1..] + b;
      WithKeyAppend(a[1..], b, key, v);
      assert WithKey(a + b, key, v) == head + WithKey(a[1..] + b, key, v);
      assert WithKey(a, key, v) == head + WithKey(a[1..], key, v);
    } else {
      assert a + b == b;
    }
  }

  lemma {:induction false} WithKeyNone<T>(s: seq<T>, key: T -> real, v: real)
    requires forall i :: 0 <= i < |s| ==> key(s[i]) != v
    ensures WithKey(s, key, v) == []
    decreases |s|
  {
    if s != [] {
      WithKeyNone(s[1..], key, v);
    }
  }

  /** No element after the insertion point shares the inserted key. */
  lemma AfterInsertPos<T>(x: T, s: seq<T>, key: T -> real, desc: bool)
    requires Sorted(s, key, desc)
    ensures forall j :: InsertPos(x, s, key, desc) <= j < |s| ==> key(s[j]) != key(x)
  {
    var p := InsertPos(x, s, key, desc);
    forall j | p <= j < |s|
      ensures key(s[j]) != key(x)
    {
      if j > p {
        assert InOrder(s[p], s[j], key, desc);
      }
    }
  }

  lemma WithKeyAppendBoxed<T>(a: seq<T>, b: seq<T>, key: T -> real, v: real)
    ensures Boxed(WithKey(a + b, key, v)) == Boxed(WithKey(a, key, v) + WithKey(b, key, v))
  {
    WithKeyAppend(a, b, key, v);
  }

  /** The insertion, cut at its insertion point. */
  lemma InsertSplit<T>(x: T, s: seq<T>, key: T -> real, desc: bool)
    requires Sorted(s, key, desc)
    ensures var p := InsertPos(x, s, key, desc);
            Boxed(Insert(x, s, key, desc)) == Boxed(s[..p] + ([x] + s[p..]))
            && Boxed(s) == Boxed(s[..p] + s[p..])
  {
    var p := InsertPos(x, s, key, desc);
    assert Insert(x, s, key, desc) == s[..p] + ([x] + s[p..]);
    assert s == s[..p] + s[p..];
  }

  lemma WithKeyOne<T>(x: T, key: T -> real, v: real)
    ensures Boxed(WithKey([x], key, v)) == Boxed(if key(x) == v then [x] else [])
  {
    var mine: seq<T> := if key(x) == v then [x] else [];
    assert [x][1..] == [] && [x][0] == x;
    assert WithKey([x][1..], key, v) == [];
    assert WithKey([x], key, v) == mine + [];
    assert mine + [] == mine;
  }

  lemma KeyAlgebra<T>(wIns: seq<T>, wS: seq<T>, wA: seq<T>, wXB: seq<T>, wX: seq<T>, wB: seq<T>, mine: seq<T>)
    requires Boxed(wIns) == Boxed(wA + wXB) && Boxed(wXB) == Boxed(wX + wB)
    requires Boxed(wS) == Boxed(wA + wB) && Boxed(wX) == Boxed(mine)
    requires |mine| == 0 || |wB| == 0
    ensures wIns == wS + mine
  {
    if |mine| == 0 {
      assert wX + wB == wB;
      assert wS + mine == wS;
    } else {
      assert wA + (mine + wB) == (wA + wB) + mine;
    }
  }

  /** Inserting `x` appends it to the elements of its own key and leaves the
      other keys' elements alone. */
  lemma InsertWithKey<T>(x: T, s: seq<T>, key: T -> real, desc: bool, v: real)
    requires Sorted(s, key, desc)
    ensures WithKey(Insert(x, s, key, desc), key, v)
            == WithKey(s, key, v) + (if key(x) == v then [x] else [])
  {
    var p := InsertPos(x, s, key, desc);
    var a, b := s[..p], s[p..];
    InsertSplit(x, s, key, desc);
    WithKeyAppendBoxed(a, [x] + b, key, v);
    WithKeyAppendBoxed([x], b, key, v);
    WithKeyAppendBoxed(a, b, key, v);
    WithKeyOne(x, key, v);
    if key(x) == v {
      AfterInsertPos(x, s, key, desc);
      WithKeyNone(b, key, v);
    }
    KeyAlgebra(WithKey(Insert(x, s, key, desc), key, v), WithKey(s, key, v), WithKey(a, key, v),
               WithKey([x] + b, key, v), WithKey([x], key, v), WithKey(b, key, v),
               if key(x) == v then [x] else []);
  }

  /** Stability: sorting keeps the relative order of elements with equal keys. */
  lemma {:induction false} SortByStable<T>(s: seq<T>, key: T -> real, desc: bool, v: real)
    ensures WithKey(SortBy(s, key, desc), key, v) == WithKey(s, key, v)
    decreases |s|
  {
    if s != [] {
      var init, last := s[..|s| - 1], s[|s| - 1];
      SortByStable(init, key, desc, v);
      InsertWithKey(last, SortBy(init, key, desc), key, desc, v);
      assert s == init + [last];
      WithKeyAppend(init, [last], key, v);
    }
  }

  /** A list already in order is left as it is. */
  lemma {:induction false} SortBySorted<T>(s: seq<T>, key: T -> real, desc: bool)
    requires Sorted(s, key, desc)
    ensures SortBy(s, key, desc) == s
    decreases |s|
  {
    if s != [] {
      var init, last := s[..|s| - 1], s[|s| - 1];
      assert Sorted(init, key, desc);
      SortBySorted(init, key, desc);
      assert forall i :: 0 <= i < |init| ==> InOrder(init[i], last, key, desc);
      InsertAtEnd(last, init, key, desc);
      assert init + [last] == s;
    }
  }

  /** An element every other may precede goes at the end. */
  lemma InsertAtEnd<T>(x: T, s: seq<T>, key: T -> real, desc: bool)
    requires Sorted(s, key, desc)
    requires forall i :: 0 <= i < |s| ==> InOrder(s[i], x, key, desc)
    ensures Insert(x, s, key, desc) == s + [x]
  {
    var p := InsertPos(x, s, key, desc);
    assert p == |s|;
    assert s[..p] == s && s[p..] == [];
  }
}
