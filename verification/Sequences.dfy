/** Sums and sets of finite sequences. */
module Sequences {
  function Sum(s: seq<int>): int {
    if s == [] then 0 else Sum(s[..|s| - 1]) + s[|s| - 1]
  }

  function SumOf<T>(s: seq<T>, f: T -> int): int {
    if s == [] then 0 else SumOf(s[..|s| - 1], f) + f(s[|s| - 1])
  }

  lemma SumPair(a: int, b: int)
    ensures Sum([a]) == a
    ensures Sum([a, b]) == a + b
  {
    assert [a, b][..1] == [a] && [a][..0] == [];
  }

  lemma {:induction false} SumUpdate(s: seq<int>, i: nat, v: int)
    requires i < |s|
    ensures Sum(s[i := v]) == Sum(s) - s[i] + v
  {
    var n := |s| - 1;
    if i == n {
      assert s[i := v][..n] == s[..n];
    } else {
      assert s[i := v][..n] == s[..n][i := v];
      SumUpdate(s[..n], i, v);
    }
  }

  lemma {:induction false} SumBounds(s: seq<int>, low: int, high: int)
    requires forall i :: 0 <= i < |s| ==> low <= s[i] <= high
    ensures low * |s| <= Sum(s) <= high * |s|
  {
    if s != [] {
      SumBounds(s[..|s| - 1], low, high);
    }
  }

  /** A sum of non-negative terms is at least each term. */
  lemma {:induction false} SumAtLeastTerm(s: seq<int>, k: nat)
    requires forall i :: 0 <= i < |s| ==> 0 <= s[i]
    requires k < |s|
    ensures s[k] <= Sum(s)
  {
    var init := s[..|s| - 1];
    if k < |s| - 1 {
      SumAtLeastTerm(init, k);
    } else {
      SumBounds(init, 0, if init == [] then 0 else Max(init));
    }
  }

  function Max(s: seq<int>): (m: int)
    requires s != []
    ensures forall i :: 0 <= i < |s| ==> s[i] <= m
  {
    if |s| == 1 then s[0]
    else
      var m := Max(s[..|s| - 1]);
      if m < s[|s| - 1] then s[|s| - 1] else m
  }

  function Elements<T(==)>(s: seq<T>): set<T> {
    set x | x in s
  }

  /** A sequence without repetitions has as many elements as positions. */
  lemma {:induction false} DistinctCardinality<T>(s: seq<T>)
    requires forall i, j :: 0 <= i < j < |s| ==> s[i] != s[j]
    ensures |Elements(s)| == |s|
  {
    if s == [] {
      assert Elements(s) == {};
    } else {
      var n := |s| - 1;
      DistinctCardinality(s[..n]);
      assert s == s[..n] + [s[n]];
      assert Elements(s) == Elements(s[..n]) + {s[n]};
    }
  }

  /** And only a sequence without repetitions has. */
  lemma {:induction false} FullCardinality<T>(s: seq<T>)
    requires |Elements(s)| == |s|
    ensures forall i, j :: 0 <= i < j < |s| ==> s[i] != s[j]
  {
    if s != [] {
      var n := |s| - 1;
      ElementsAtMost(s[..n]);
      LastElement(s);
      FullCardinality(s[..n]);
      assert forall i :: 0 <= i < n ==> s[..n][i] in Elements(s[..n]);
    }
  }

  lemma LastElement<T>(s: seq<T>)
    requires s != []
    ensures Elements(s) == Elements(s[..|s| - 1]) + {s[|s| - 1]}
    ensures |Elements(s)| == |Elements(s[..|s| - 1])| + if s[|s| - 1] in Elements(s[..|s| - 1]) then 0 else 1
  {
    var n := |s| - 1;
    assert s == s[..n] + [s[n]];
    assert Elements(s) == Elements(s[..n]) + {s[n]};
    if s[n] in Elements(s[..n]) {
      assert Elements(s) == Elements(s[..n]);
    }
  }

  lemma {:induction false} ElementsAtMost<T>(s: seq<T>)
    ensures |Elements(s)| <= |s|
  {
    if s == [] {
      assert Elements(s) == {};
    } else {
      var n := |s| - 1;
      ElementsAtMost(s[..n]);
      LastElement(s);
    }
  }

  lemma SubsetCardinality<T>(a: set<T>, b: set<T>)
    requires a <= b
    ensures |a| <= |b|
    ensures a != b ==> |a| < |b|
  {
    assert b == a + (b - a);
    assert |b| == |a| + |b - a|;
    if a != b {
      assert exists x :: x in b - a;
    }
  }
}
