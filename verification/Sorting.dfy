/** The stable insertion sort that stands for the language's `sort`, and why sorted lists are unique. */
module Sorting {

  /** On the first `n` indices, exactly one of two comes before the other, and coming before is transitive. */
  ghost predicate IsOrder(before: (nat, nat) -> bool, n: nat) {
    && (forall i: nat, j: nat | i < n && j < n && i != j :: before(i, j) <==> !before(j, i))
    && (forall i: nat, j: nat, k: nat | i < n && j < n && k < n :: before(i, j) && before(j, k) ==> before(i, k))
  }

  /** The first position after which every listed index has `x` before it. */
  function InsertionPoint(before: (nat, nat) -> bool, order: seq<nat>, x: nat): (p: nat)
    ensures p <= |order|
    ensures forall k :: p <= k < |order| ==> before(x, order[k])
    ensures p != 0 ==> !before(x, order[p - 1])
  {
    if order == [] || !before(x, order[|order| - 1]) then |order|
    else InsertionPoint(before, order[..|order| - 1], x)
  }

  /** The first `n` indices, sorted. */
  function SortIndices(before: (nat, nat) -> bool, n: nat): (order: seq<nat>)
    ensures |order| == n && forall k :: 0 <= k < n ==> order[k] < n
  {
    if n == 0 then []
    else
      var rest := SortIndices(before, n - 1);
      var p := InsertionPoint(before, rest, n - 1);
      rest[..p] + [n - 1] + rest[p..]
  }

  predicate ListsAll(order: seq<nat>, n: nat) {
    && |order| == n
    && forall i: nat :: i < n ==> i in order
  }

  lemma {:induction false} SortListsAll(before: (nat, nat) -> bool, n: nat)
    ensures ListsAll(SortIndices(before, n), n)
  {
    if n != 0 {
      var rest := SortIndices(before, n - 1);
      SortListsAll(before, n - 1);
      InsertLists(rest, n - 1, InsertionPoint(before, rest, n - 1));
    }
  }

  lemma InsertLists(rest: seq<nat>, x: nat, p: nat)
    requires p <= |rest| && ListsAll(rest, x)
    ensures ListsAll(rest[..p] + [x] + rest[p..], x + 1)
  {
    var all := rest[..p] + [x] + rest[p..];
    assert all[p] == x;
    forall i: nat | i < x ensures i in all {
      assert i in rest;
      var k :| 0 <= k < |rest| && rest[k] == i;
      assert all[if k < p then k else k + 1] == i;
    }
  }

  predicate Sorted(before: (nat, nat) -> bool, order: seq<nat>) {
    forall a, b :: 0 <= a < b < |order| ==> before(order[a], order[b])
  }

  lemma FewerIndices(before: (nat, nat) -> bool, n: nat)
    requires 0 < n && IsOrder(before, n)
    ensures IsOrder(before, n - 1)
  {
  }

  lemma {:induction false} SortSorts(before: (nat, nat) -> bool, n: nat)
    requires IsOrder(before, n)
    ensures Sorted(before, SortIndices(before, n))
  {
    hide Sorted, IsOrder, InsertionPoint;
    if n == 0 {
      NothingToSort(before);
    } else {
      var rest := SortIndices(before, n - 1);
      FewerIndices(before, n);
      SortSorts(before, n - 1);
      InsertSorts(before, rest, n - 1, InsertionPoint(before, rest, n - 1));
    }
  }

  lemma NothingToSort(before: (nat, nat) -> bool)
    ensures Sorted(before, [])
  {
  }

  lemma InsertSorts(before: (nat, nat) -> bool, rest: seq<nat>, x: nat, p: nat)
    requires IsOrder(before, x + 1) && Sorted(before, rest)
    requires p <= |rest| && forall k :: 0 <= k < |rest| ==> rest[k] < x
    requires forall k :: p <= k < |rest| ==> before(x, rest[k])
    requires p != 0 ==> !before(x, rest[p - 1])
    ensures Sorted(before, rest[..p] + [x] + rest[p..])
  {
    var all := rest[..p] + [x] + rest[p..];
    forall k | 0 <= k < p ensures before(rest[k], x) {
      assert before(rest[p - 1], x);
      if k < p - 1 {
        assert before(rest[k], rest[p - 1]);
      }
    }
    hide IsOrder;
    forall a, b | 0 <= a < b < |all| ensures before(all[a], all[b]) {
      var i, j := if a < p then a else a - 1, if b < p then b else b - 1;
      if a != p && b != p {
        assert before(rest[i], rest[j]);
      }
    }
  }

  function Permute<V>(s: seq<V>, order: seq<nat>): (r: seq<V>)
    requires forall k :: 0 <= k < |order| ==> order[k] < |s|
    ensures |r| == |order|
  {
    seq(|order|, i requires 0 <= i < |order| => s[order[i]])
  }

  lemma PermuteMembers<V>(s: seq<V>, order: seq<nat>)
    requires forall k :: 0 <= k < |order| ==> order[k] < |s|
    requires ListsAll(order, |s|)
    ensures forall i :: 0 <= i < |s| ==> s[i] in Permute(s, order)
    ensures forall e :: e in Permute(s, order) ==> e in s
  {
    forall i: nat | i < |s| ensures s[i] in Permute(s, order) {
      assert i in order;
      var p :| 0 <= p < |order| && order[p] == i;
      assert Permute(s, order)[p] == s[i];
    }
  }

  // ---------------------------------------------------------------------------------------------
  // Ascending lists
  // ---------------------------------------------------------------------------------------------

  predicate Ascends<T>(before: (T, T) -> bool, s: seq<T>) {
    forall i, j :: 0 <= i < j < |s| ==> before(s[i], s[j])
  }

  predicate Asymmetric<T>(before: (T, T) -> bool, s: seq<T>) {
    forall i, j :: 0 <= i < |s| && 0 <= j < |s| && before(s[i], s[j]) ==> !before(s[j], s[i])
  }

  lemma HasMember<T>(s: seq<T>)
    ensures s == [] || exists e :: e in s
  {
    if s != [] {
      assert s[0] in s;
    }
  }

  /** An ascending list is determined by its members. */
  lemma {:induction false} AscendingUnique<T(!new)>(before: (T, T) -> bool, a: seq<T>, b: seq<T>)
    requires Asymmetric(before, a) && Ascends(before, a) && Ascends(before, b)
    requires forall e :: e in a <==> e in b
    ensures a == b
  {
    if a == [] {
      HasMember(b);
    } else {
      assert a[0] in b && b != [] && b[0] in a;
      SameAsymmetric(before, a, b);
      FirstIsLeast(before, a, b[0]);
      FirstIsLeast(before, b, a[0]);
      BothFirst(before, a, b[0]);
      RestOf(before, a);
      RestOf(before, b);
      AscendingUnique(before, a[1..], b[1..]);
      assert a == [a[0]] + a[1..] && b == [b[0]] + b[1..];
    }
  }

  lemma SameAsymmetric<T>(before: (T, T) -> bool, a: seq<T>, b: seq<T>)
    requires Asymmetric(before, a) && forall e :: e in b ==> e in a
    ensures Asymmetric(before, b)
  {
    forall i, j | 0 <= i < |b| && 0 <= j < |b| && before(b[i], b[j]) ensures !before(b[j], b[i]) {
      assert b[i] in b && b[j] in b;
      var k :| 0 <= k < |a| && a[k] == b[i];
      var l :| 0 <= l < |a| && a[l] == b[j];
      assert before(a[k], a[l]);
    }
  }

  lemma BothFirst<T>(before: (T, T) -> bool, a: seq<T>, e: T)
    requires a != [] && Asymmetric(before, a) && e in a
    ensures !(before(a[0], e) && before(e, a[0]))
  {
    var k :| 0 <= k < |a| && a[k] == e;
  }

  lemma FirstIsLeast<T>(before: (T, T) -> bool, a: seq<T>, e: T)
    requires Ascends(before, a) && e in a
    ensures e == a[0] || before(a[0], e)
  {
    var k :| 0 <= k < |a| && a[k] == e;
  }

  lemma RestOf<T(!new)>(before: (T, T) -> bool, a: seq<T>)
    requires a != [] && Asymmetric(before, a) && Ascends(before, a)
    ensures Ascends(before, a[1..]) && Asymmetric(before, a[1..])
    ensures forall e :: e in a[1..] <==> e in a && e != a[0]
  {
    forall i, j | 0 <= i < j < |a| - 1 ensures before(a[1..][i], a[1..][j]) {
      assert before(a[i + 1], a[j + 1]);
    }
    forall e | e in a[1..] ensures e != a[0] {
      var k :| 0 <= k < |a[1..]| && a[1..][k] == e;
      assert before(a[0], a[k + 1]);
    }
    assert a == [a[0]] + a[1..];
  }
}
