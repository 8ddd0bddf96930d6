/** Python's `sorted(xs, key=...)`: a stable sort, written as an insertion sort over
    positions so that "ties keep their input order" can be stated about positions. */
module Sorting {

  /** `le(x, y)` holds when `x` may be placed before `y`: it must be total and transitive. */
  ghost predicate TotalPreorder<T(!new)>(le: (T, T) -> bool)
  {
    (forall x, y :: le(x, y) || le(y, x))
    && (forall x, y, z :: le(x, y) && le(y, z) ==> le(x, z))
  }

  predicate InRange<T>(s: seq<T>, order: seq<nat>)
  {
    forall k :: 0 <= k < |order| ==> order[k] < |s|
  }

  /** The elements at the listed positions, in that order. */
  function Pick<T>(s: seq<T>, order: seq<nat>): (r: seq<T>)
    requires InRange(s, order)
    ensures |r| == |order|
  {
    if order == [] then [] else [s[order[0]]] + Pick(s, order[1..])
  }

  lemma {:induction false} PickAt<T>(s: seq<T>, order: seq<nat>)
    requires InRange(s, order)
    ensures forall k :: 0 <= k < |order| ==> Pick(s, order)[k] == s[order[k]]
    decreases |order|
  {
    if order != [] {
      PickAt(s, order[1..]);
    }
  }

  ghost predicate Sorted<T>(s: seq<T>, le: (T, T) -> bool, order: seq<nat>)
    requires InRange(s, order)
  {
    forall i, j :: 0 <= i < j < |order| ==> le(s[order[i]], s[order[j]])
  }

  /** Two elements that may each precede the other keep their input order. */
  ghost predicate Stable<T>(s: seq<T>, le: (T, T) -> bool, order: seq<nat>)
    requires InRange(s, order)
  {
    forall i, j :: 0 <= i < j < |order| && le(s[order[j]], s[order[i]]) ==> order[i] < order[j]
  }

  ghost predicate Distinct(order: seq<nat>)
  {
    forall i, j :: 0 <= i < j < |order| ==> order[i] != order[j]
  }

  /** Place position `x` before the first listed position whose element it may precede. */
  function Insert<T>(s: seq<T>, le: (T, T) -> bool, x: nat, order: seq<nat>): (r: seq<nat>)
    requires x < |s| && InRange(s, order)
    ensures |r| == |order| + 1 && InRange(s, r)
    ensures multiset(r) == multiset(order) + multiset{x}
  {
    if order == [] then [x]
    else if le(s[x], s[order[0]]) then [x] + order
    else
      assert order == [order[0]] + order[1..];
      [order[0]] + Insert(s, le, x, order[1..])
  }

  /** The sorted order of the positions `lo`, ..., `|s| - 1`. */
  function OrderFrom<T>(s: seq<T>, le: (T, T) -> bool, lo: nat): (r: seq<nat>)
    requires lo <= |s|
    ensures |r| == |s| - lo && InRange(s, r)
    ensures forall k :: 0 <= k < |r| ==> lo <= r[k]
    decreases |s| - lo
  {
    if lo == |s| then []
    else
      var rest := OrderFrom(s, le, lo + 1);
      var r := Insert(s, le, lo, rest);
      assert forall k :: 0 <= k < |r| ==> r[k] in multiset(rest) + multiset{lo};
      r
  }

  /** The positions of `s` in the order Python's stable `sorted` puts them. */
  function StableOrder<T>(s: seq<T>, le: (T, T) -> bool): (r: seq<nat>)
    ensures |r| == |s| && InRange(s, r)
  {
    OrderFrom(s, le, 0)
  }

  function StableSort<T>(s: seq<T>, le: (T, T) -> bool): (r: seq<T>)
    ensures |r| == |s|
  {
    Pick(s, StableOrder(s, le))
  }

  /** What a sorted, stable, repetition-free order says about its first position. */
  lemma HeadRelations<T>(s: seq<T>, le: (T, T) -> bool, order: seq<nat>)
    requires InRange(s, order) && order != []
    requires Sorted(s, le, order) && Stable(s, le, order) && Distinct(order)
    ensures forall e :: e in order[1..] ==>
              le(s[order[0]], s[e]) && (le(s[e], s[order[0]]) ==> order[0] < e) && order[0] != e
  {
    forall e | e in order[1..]
      ensures le(s[order[0]], s[e]) && (le(s[e], s[order[0]]) ==> order[0] < e) && order[0] != e
    {
      var j :| 0 <= j < |order[1..]| && order[1..][j] == e;
      assert order[j + 1] == e;
    }
  }

  lemma InsertMembers<T>(s: seq<T>, le: (T, T) -> bool, x: nat, order: seq<nat>)
    requires x < |s| && InRange(s, order)
    ensures forall e :: e in Insert(s, le, x, order) ==> e == x || e in order
  {
    var r := Insert(s, le, x, order);
    forall e | e in r ensures e == x || e in order {
      assert e in multiset(r);
    }
  }

  /** The shared hypothesis of the insertion lemmas: `order` is already a stable sorted
      order of positions, all later than the new position `x`. */
  ghost predicate InsertReady<T>(s: seq<T>, le: (T, T) -> bool, x: nat, order: seq<nat>)
  {
    x < |s| && InRange(s, order)
    && Sorted(s, le, order) && Stable(s, le, order) && Distinct(order)
    && (forall k :: 0 <= k < |order| ==> x < order[k])
  }

  ghost predicate SortedStable<T>(s: seq<T>, le: (T, T) -> bool, order: seq<nat>)
    requires InRange(s, order)
  {
    Sorted(s, le, order) && Stable(s, le, order) && Distinct(order)
  }

  /** `x` goes first: it precedes the old head, hence every listed position. */
  lemma InsertFront<T(!new)>(s: seq<T>, le: (T, T) -> bool, x: nat, order: seq<nat>)
    requires TotalPreorder(le) && InsertReady(s, le, x, order)
    requires order != [] && le(s[x], s[order[0]])
    ensures SortedStable(s, le, [x] + order)
  {
    var r := [x] + order;
    HeadRelations(s, le, order);
    forall j | 0 < j < |r|
      ensures le(s[x], s[r[j]]) && x < r[j]
    {
      if j > 1 {
        assert r[j] in order[1..];
      }
    }
  }

  /** The old head stays first when `x` is inserted behind it. */
  lemma InsertBehind<T(!new)>(s: seq<T>, le: (T, T) -> bool, x: nat, order: seq<nat>, ins: seq<nat>)
    requires TotalPreorder(le) && InsertReady(s, le, x, order)
    requires order != [] && !le(s[x], s[order[0]])
    requires InRange(s, ins) && SortedStable(s, le, ins)
    requires forall e :: e in ins ==> e == x || e in order[1..]
    ensures SortedStable(s, le, [order[0]] + ins)
  {
    var o0 := order[0];
    HeadRelations(s, le, order);
    assert le(s[o0], s[x]);
    forall e | e in ins
      ensures le(s[o0], s[e]) && (le(s[e], s[o0]) ==> o0 < e) && o0 != e
    {
      if e == x {
        assert x < order[0];
      }
    }
    ConsSortedStable(s, le, o0, ins);
  }

  /** A position that may precede every listed one, and comes before those it ties with,
      can be put in front of a sorted, stable, repetition-free order. */
  lemma ConsSortedStable<T>(s: seq<T>, le: (T, T) -> bool, h: nat, ins: seq<nat>)
    requires h < |s| && InRange(s, ins) && SortedStable(s, le, ins)
    requires forall e :: e in ins ==> le(s[h], s[e]) && (le(s[e], s[h]) ==> h < e) && h != e
    ensures InRange(s, [h] + ins) && SortedStable(s, le, [h] + ins)
  {
    var r := [h] + ins;
    forall j | 0 < j < |r|
      ensures le(s[h], s[r[j]]) && (le(s[r[j]], s[h]) ==> h < r[j]) && h != r[j]
    {
      assert r[j] in ins;
    }
    forall i, j | 0 < i < j < |r|
      ensures le(s[r[i]], s[r[j]]) && (le(s[r[j]], s[r[i]]) ==> r[i] < r[j]) && r[i] != r[j]
    {
      assert r[i] == ins[i - 1] && r[j] == ins[j - 1];
    }
  }

  /** Inserting a position earlier than all listed ones keeps the order sorted, stable
      and free of repetition. */
  lemma {:induction false} InsertSortedStable<T(!new)>(s: seq<T>, le: (T, T) -> bool, x: nat, order: seq<nat>)
    requires TotalPreorder(le) && InsertReady(s, le, x, order)
    ensures SortedStable(s, le, Insert(s, le, x, order))
    decreases |order|
  {
    if order == [] {
    } else if le(s[x], s[order[0]]) {
      InsertFront(s, le, x, order);
    } else {
      var rest := order[1..];
      assert InsertReady(s, le, x, rest);
      InsertSortedStable(s, le, x, rest);
      InsertMembers(s, le, x, rest);
      InsertBehind(s, le, x, order, Insert(s, le, x, rest));
    }
  }

  lemma {:induction false} OrderFromSortedStable<T(!new)>(s: seq<T>, le: (T, T) -> bool, lo: nat)
    requires TotalPreorder(le) && lo <= |s|
    ensures SortedStable(s, le, OrderFrom(s, le, lo))
    decreases |s| - lo
  {
    if lo < |s| {
      OrderFromSortedStable(s, le, lo + 1);
      InsertSortedStable(s, le, lo, OrderFrom(s, le, lo + 1));
    }
  }

  lemma {:induction false} PickInsert<T>(s: seq<T>, le: (T, T) -> bool, x: nat, order: seq<nat>)
    requires x < |s| && InRange(s, order)
    ensures multiset(Pick(s, Insert(s, le, x, order))) == multiset(Pick(s, order)) + multiset{s[x]}
    decreases |order|
  {
    var r := Insert(s, le, x, order);
    if order == [] {
    } else if le(s[x], s[order[0]]) {
      assert r[1..] == order;
    } else {
      PickInsert(s, le, x, order[1..]);
      assert r[1..] == Insert(s, le, x, order[1..]);
    }
  }

  lemma {:induction false} PickOrderFrom<T>(s: seq<T>, le: (T, T) -> bool, lo: nat)
    requires lo <= |s|
    ensures multiset(Pick(s, OrderFrom(s, le, lo))) == multiset(s[lo..])
    decreases |s| - lo
  {
    if lo < |s| {
      PickOrderFrom(s, le, lo + 1);
      PickInsert(s, le, lo, OrderFrom(s, le, lo + 1));
      SuffixMultiset(s, lo);
    }
  }

  lemma SuffixMultiset<T>(s: seq<T>, lo: nat)
    requires lo < |s|
    ensures multiset(s[lo..]) == multiset(s[lo + 1..]) + multiset{s[lo]}
  {
    assert s[lo..] == [s[lo]] + s[lo + 1..];
  }

  /** `sorted` returns a permutation of its input, in order, with ties in input order:
      the element at output position `k` is the input element at position `StableOrder(s, le)[k]`,
      every input position is used exactly once, and tied elements keep their relative order. */
  lemma StableSortCorrect<T(!new)>(s: seq<T>, le: (T, T) -> bool)
    requires TotalPreorder(le)
    ensures multiset(StableSort(s, le)) == multiset(s)
    ensures forall i, j :: 0 <= i < j < |s| ==> le(StableSort(s, le)[i], StableSort(s, le)[j])
    ensures forall k :: 0 <= k < |s| ==> StableSort(s, le)[k] == s[StableOrder(s, le)[k]]
    ensures Distinct(StableOrder(s, le))
    ensures forall i, j :: 0 <= i < j < |s| && le(StableSort(s, le)[j], StableSort(s, le)[i])
              ==> StableOrder(s, le)[i] < StableOrder(s, le)[j]
  {
    OrderFromSortedStable(s, le, 0);
    PickOrderFrom(s, le, 0);
    PickAt(s, StableOrder(s, le));
    assert s[0..] == s;
  }
}
