/**
 Largest-remainder apportionment of integer cents.

 Every share first gets the floor of its exact quota `total * weight / denominator`; the cents
 left over go, one each, to the shares with the largest remainders, ties to the lower index.
 `Apportion` states that by the rank of a share among the remainders; the methods below are the
 program's loops over a sorted remainder list.
 */
module Apportionment {
  import opened Wrappers
  import opened Arithmetic
  import opened Sequences
  import opened Sorting
  import opened PlanErrors

  predicate NonNegative(s: seq<int>) {
    forall i :: 0 <= i < |s| ==> 0 <= s[i]
  }

  predicate ValidShares(total: int, weights: seq<int>, denominator: int) {
    0 <= total && NonNegative(weights) && 0 < denominator == Sum(weights)
  }

  function Floors(total: int, weights: seq<int>, denominator: int): (r: seq<int>)
    requires 0 < denominator
    ensures |r| == |weights|
  {
    seq(|weights|, i requires 0 <= i < |weights| => total * weights[i] / denominator)
  }

  function Remainders(total: int, weights: seq<int>, denominator: int): (r: seq<int>)
    requires 0 < denominator
    ensures |r| == |weights|
    ensures forall i :: 0 <= i < |r| ==> 0 <= r[i] < denominator
  {
    seq(|weights|, i requires 0 <= i < |weights| => total * weights[i] % denominator)
  }

  function Leftover(total: int, weights: seq<int>, denominator: int): int
    requires 0 < denominator
  {
    total - Sum(Floors(total, weights, denominator))
  }

  /** The comparator of the remainder sort: larger remainder first, then lower index. */
  predicate Before(remainders: seq<int>, i: nat, j: nat)
    requires i < |remainders| && j < |remainders|
  {
    remainders[i] > remainders[j] || (remainders[i] == remainders[j] && i < j)
  }

  function Predecessors(remainders: seq<int>, i: nat): set<nat>
    requires i < |remainders|
  {
    set j: nat | j < |remainders| && Before(remainders, j, i)
  }

  function Rank(remainders: seq<int>, i: nat): nat
    requires i < |remainders|
  {
    |Predecessors(remainders, i)|
  }

  /** Share `i` receives one of the leftover cents. */
  predicate RoundedUp(total: int, weights: seq<int>, denominator: int, i: nat)
    requires 0 < denominator && i < |weights|
  {
    Rank(Remainders(total, weights, denominator), i) < Leftover(total, weights, denominator)
  }

  function Apportion(total: int, weights: seq<int>, denominator: int): (r: seq<int>)
    requires 0 < denominator
    ensures |r| == |weights|
  {
    seq(|weights|, i requires 0 <= i < |weights| =>
      Floors(total, weights, denominator)[i] + if RoundedUp(total, weights, denominator, i) then 1 else 0)
  }

  // ---------------------------------------------------------------------------------------------
  // Sorting the remainders
  // ---------------------------------------------------------------------------------------------

  predicate SortedByRemainder(remainders: seq<int>, order: seq<nat>) {
    && (forall k :: 0 <= k < |order| ==> order[k] < |remainders|)
    && (forall a, b :: 0 <= a < b < |order| ==> Before(remainders, order[a], order[b]))
  }

  function RemainderOrder(remainders: seq<int>): (nat, nat) -> bool {
    (i: nat, j: nat) => i < |remainders| && j < |remainders| && Before(remainders, i, j)
  }

  /** The program's `sort` of the remainders. */
  function SortByRemainder(remainders: seq<int>): (order: seq<nat>)
    ensures |order| == |remainders| && forall k :: 0 <= k < |order| ==> order[k] < |remainders|
  {
    SortIndices(RemainderOrder(remainders), |remainders|)
  }

  lemma RemaindersAreSorted(remainders: seq<int>)
    ensures SortedByRemainder(remainders, SortByRemainder(remainders))
    ensures ListsAll(SortByRemainder(remainders), |remainders|)
  {
    hide SortIndices, ListsAll;
    SortListsAll(RemainderOrder(remainders), |remainders|);
    SortSorts(RemainderOrder(remainders), |remainders|);
  }

  /** In a sorted listing of all indices, position is rank. */
  lemma RankIsPosition(remainders: seq<int>, order: seq<nat>, p: nat)
    requires SortedByRemainder(remainders, order) && ListsAll(order, |remainders|)
    requires p < |order|
    ensures Rank(remainders, order[p]) == p
  {
    var first := Elements(order[..p]);
    assert Predecessors(remainders, order[p]) == first by {
      forall j: nat | j < |remainders| && Before(remainders, j, order[p]) ensures j in order[..p] {
        assert j in order;
        var k :| 0 <= k < |order| && order[k] == j;
        assert k < p;
        assert order[..p][k] == j;
      }
    }
    DistinctCardinality(order[..p]);
  }

  // ---------------------------------------------------------------------------------------------
  // Handing out the leftover
  // ---------------------------------------------------------------------------------------------

  /** One more cent for every index of `order`. */
  function Bumped(amounts: seq<int>, order: seq<nat>): (r: seq<int>)
    requires forall k :: 0 <= k < |order| ==> order[k] < |amounts|
    ensures |r| == |amounts|
  {
    if order == [] then amounts
    else
      var r := Bumped(amounts, order[..|order| - 1]);
      var last := order[|order| - 1];
      r[last := r[last] + 1]
  }

  lemma {:induction false} BumpedMeaning(amounts: seq<int>, order: seq<nat>)
    requires forall k :: 0 <= k < |order| ==> order[k] < |amounts|
    requires forall a, b :: 0 <= a < b < |order| ==> order[a] != order[b]
    ensures Sum(Bumped(amounts, order)) == Sum(amounts) + |order|
    ensures forall i: nat :: i < |amounts| ==>
      Bumped(amounts, order)[i] == amounts[i] + if i in order then 1 else 0
  {
    hide Sum;
    if order != [] {
      var init, last := order[..|order| - 1], order[|order| - 1];
      BumpedMeaning(amounts, init);
      var r := Bumped(amounts, init);
      SumUpdate(r, last, r[last] + 1);
      assert order == init + [last];
      assert last !in init;
    }
  }

  lemma QuotaSplits(total: int, sum: int, w: int, d: int, floors: int, remainders: int)
    requires 0 < d && total * sum == d * floors + remainders
    ensures total * (sum + w) == d * (floors + total * w / d) + (remainders + total * w % d)
  {
    var quota := total * w;
    Distributes(total, sum, w);
    Distributes(d, floors, quota / d);
    assert quota == d * (quota / d) + quota % d;
  }

  /** The exact quotas split into floors and remainders. */
  lemma {:induction false} FloorsAndRemainders(total: int, weights: seq<int>, denominator: int)
    requires 0 < denominator
    ensures total * Sum(weights)
         == denominator * Sum(Floors(total, weights, denominator)) + Sum(Remainders(total, weights, denominator))
  {
    if weights != [] {
      var n := |weights| - 1;
      var floors, remainders := Floors(total, weights, denominator), Remainders(total, weights, denominator);
      FloorsAndRemainders(total, weights[..n], denominator);
      assert floors[..n] == Floors(total, weights[..n], denominator);
      assert remainders[..n] == Remainders(total, weights[..n], denominator);
      QuotaSplits(total, Sum(weights[..n]), weights[n], denominator, Sum(floors[..n]), Sum(remainders[..n]));
    }
  }

  lemma LeftoverBounds(total: int, weights: seq<int>, denominator: int)
    requires ValidShares(total, weights, denominator)
    ensures 0 <= Leftover(total, weights, denominator) < |weights|
  {
    var remainders, floors := Remainders(total, weights, denominator), Floors(total, weights, denominator);
    FloorsAndRemainders(total, weights, denominator);
    SumBounds(remainders, 0, denominator - 1);
    ScaledBounds(denominator, total, Sum(floors), Sum(remainders), |weights|);
  }

  lemma ScaledBounds(d: int, total: int, floor: int, rest: int, n: nat)
    requires 0 < d && 0 < n && total * d == d * floor + rest && 0 <= rest <= (d - 1) * n
    ensures 0 <= total - floor < n
  {
    assert d * (total - floor) == rest;
    assert d * (n - (total - floor)) == d * n - rest >= n;
    PositiveFactor(d, n - (total - floor));
    NonNegativeFactor(d, total - floor);
  }

  /** The first `leftover` entries of a sorted listing are the indices of rank below `leftover`. */
  lemma FirstByRank(remainders: seq<int>, order: seq<nat>, leftover: nat, i: nat)
    requires SortedByRemainder(remainders, order) && ListsAll(order, |remainders|)
    requires leftover <= |order| && i < |remainders|
    ensures i in order[..leftover] <==> Rank(remainders, i) < leftover
  {
    hide Rank, SortedByRemainder;
    assert i in order;
    var p :| 0 <= p < |order| && order[p] == i;
    RankIsPosition(remainders, order, p);
    if i in order[..leftover] {
      var q :| 0 <= q < leftover && order[..leftover][q] == i;
      RankIsPosition(remainders, order, q);
    }
    assert p < leftover ==> order[..leftover][p] == i;
  }

  lemma SortedIsDistinct(remainders: seq<int>, order: seq<nat>)
    requires SortedByRemainder(remainders, order)
    ensures forall a, b :: 0 <= a < b < |order| ==> order[a] != order[b]
  {
  }

  /** Giving one cent to each of the first `Leftover` entries of a sorted listing is `Apportion`. */
  lemma BumpedIsApportion(total: int, weights: seq<int>, denominator: int, order: seq<nat>)
    requires ValidShares(total, weights, denominator)
    requires SortedByRemainder(Remainders(total, weights, denominator), order) && ListsAll(order, |weights|)
    ensures 0 <= Leftover(total, weights, denominator) < |order|
    ensures Bumped(Floors(total, weights, denominator), order[..Leftover(total, weights, denominator)])
         == Apportion(total, weights, denominator)
    ensures Sum(Apportion(total, weights, denominator)) == total
  {
    LeftoverBounds(total, weights, denominator);
    var leftover := Leftover(total, weights, denominator);
    var floors, remainders := Floors(total, weights, denominator), Remainders(total, weights, denominator);
    var first := order[..leftover];
    SortedIsDistinct(remainders, order);
    hide Floors, Remainders, Rank, Bumped, SortedByRemainder, ListsAll, ValidShares, Sum;
    BumpedMeaning(floors, first);
    forall i: nat | i < |weights| ensures Bumped(floors, first)[i] == Apportion(total, weights, denominator)[i] {
      FirstByRank(remainders, order, leftover, i);
    }
    assert Bumped(floors, first) == Apportion(total, weights, denominator);
  }

  /** The shares add up to the total. */
  lemma ApportionSums(total: int, weights: seq<int>, denominator: int)
    requires ValidShares(total, weights, denominator)
    ensures Sum(Apportion(total, weights, denominator)) == total
  {
    var remainders := Remainders(total, weights, denominator);
    RemaindersAreSorted(remainders);
    BumpedIsApportion(total, weights, denominator, SortByRemainder(remainders));
  }

  // ---------------------------------------------------------------------------------------------
  // What a largest-remainder split guarantees
  // ---------------------------------------------------------------------------------------------

  /** The cents left over go to the larger remainders, and among equal ones to the earlier shares. */
  lemma RoundedUpFirst(total: int, weights: seq<int>, denominator: int, i: nat, j: nat)
    requires 0 < denominator && i < |weights| && j < |weights|
    requires RoundedUp(total, weights, denominator, j) && !RoundedUp(total, weights, denominator, i)
    ensures var mine, other := total * weights[j] % denominator, total * weights[i] % denominator;
      mine > other || (mine == other && j < i)
  {
    var remainders := Remainders(total, weights, denominator);
    if i == j {
      assert false;
    } else if Before(remainders, i, j) {
      SubsetCardinality(Predecessors(remainders, i), Predecessors(remainders, j));
    }
  }

  /** `share * denominator - total * weight`: how far a share is from its exact quota. */
  function Deviation(total: int, weight: int, denominator: int, share: int): int {
    share * denominator - total * weight
  }

  function Deviations(total: int, weights: seq<int>, denominator: int, split: seq<int>): (r: seq<int>)
    requires |split| == |weights|
    ensures |r| == |weights|
  {
    seq(|weights|, i requires 0 <= i < |weights| => Deviation(total, weights[i], denominator, split[i]))
  }

  function SumOfSquares(s: seq<int>): int {
    if s == [] then 0 else SumOfSquares(s[..|s| - 1]) + s[|s| - 1] * s[|s| - 1]
  }

  function SquaredError(total: int, weights: seq<int>, denominator: int, split: seq<int>): int
    requires |split| == |weights|
  {
    SumOfSquares(Deviations(total, weights, denominator, split))
  }

  lemma ShareDeviation(total: int, weights: seq<int>, denominator: int, i: nat)
    requires 0 < denominator && i < |weights|
    ensures Deviation(total, weights[i], denominator, Apportion(total, weights, denominator)[i])
         == (if RoundedUp(total, weights, denominator, i) then denominator else 0)
            - Remainders(total, weights, denominator)[i]
  {
    var quota := total * weights[i];
    assert quota == quota / denominator * denominator + quota % denominator;
    assert (quota / denominator + 1) * denominator == quota / denominator * denominator + denominator;
  }


  /** A remainder that separates the shares rounded up from those rounded down. */
  lemma Threshold(total: int, weights: seq<int>, denominator: int) returns (theta: int)
    requires ValidShares(total, weights, denominator)
    ensures 0 <= theta <= denominator
    ensures forall i :: 0 <= i < |weights| ==>
      var r := Remainders(total, weights, denominator)[i];
      if RoundedUp(total, weights, denominator, i) then theta <= r else r <= theta
  {
    var remainders := Remainders(total, weights, denominator);
    var leftover := Leftover(total, weights, denominator);
    if leftover <= 0 {
      return denominator;
    }
    LeftoverBounds(total, weights, denominator);
    var order := SortByRemainder(remainders);
    RemaindersAreSorted(remainders);
    var last := order[leftover - 1];
    theta := remainders[last];
    forall i: nat | i < |weights|
      ensures if RoundedUp(total, weights, denominator, i) then theta <= remainders[i] else remainders[i] <= theta
    {
      assert i in order;
      var p :| 0 <= p < |order| && order[p] == i;
      RankIsPosition(remainders, order, p);
      if p < leftover - 1 {
        assert Before(remainders, i, last);
      } else if leftover - 1 < p {
        assert Before(remainders, last, i);
      }
    }
  }

  lemma StepOutOfWindow(m: int, d: int, k: int)
    requires 0 < d && -d <= m <= d
    ensures 0 <= k * (m + d * k)
  {
    if 1 <= k {
      ProductOrder(d, 1, k);
      SameSignProduct(k, m + d * k);
    } else if k <= -1 {
      ProductOrder(d, k, -1);
      SameSignProduct(-k, -(m + d * k));
    }
  }

  lemma SameSignProduct(x: int, y: int)
    requires 0 <= x && 0 <= y
    ensures 0 <= x * y == -x * -y
  {
  }

  lemma SquareDifference(a: int, x: int, c: int)
    ensures (a + x) * (a + x) - a * a == x * c + x * (2 * a - c + x)
  {
  }

  lemma SquareGap(a: int, b: int, c: int, d: int, k: int)
    requires 0 < d && -d <= 2 * a - c <= d && b == a + d * k
    ensures b * b - a * a >= d * c * k
  {
    var m := 2 * a - c;
    StepOutOfWindow(m, d, k);
    SquareDifference(a, d * k, c);
    Reassociate(d, k, c);
    Reassociate(d, k, m + d * k);
    SameSignProduct(d, k * (m + d * k));
  }

  lemma Reassociate(d: int, k: int, z: int)
    ensures d * k * z == d * (k * z) == d * z * k
  {
  }

  lemma {:induction false} SquaresGap(a: seq<int>, b: seq<int>, moved: seq<int>, c: int, d: int)
    requires |a| == |b| == |moved| && 0 < d
    requires forall i :: 0 <= i < |a| ==> -d <= 2 * a[i] - c <= d
    requires forall i :: 0 <= i < |a| ==> b[i] == a[i] + d * moved[i]
    ensures SumOfSquares(b) - SumOfSquares(a) >= d * c * Sum(moved)
  {
    if a != [] {
      var n := |a| - 1;
      SquaresGap(a[..n], b[..n], moved[..n], c, d);
      SquareGap(a[n], b[n], c, d, moved[n]);
      Distributes(d * c, Sum(moved[..n]), moved[n]);
    }
  }

  /**
   Largest remainder is the best integer approximation of the exact quotas: no integer split of the
   same total, negative shares included, has a smaller sum of squared deviations.
   */
  lemma ApportionIsOptimal(total: int, weights: seq<int>, denominator: int, split: seq<int>)
    requires ValidShares(total, weights, denominator)
    requires |split| == |weights| && Sum(split) == total
    ensures SquaredError(total, weights, denominator, Apportion(total, weights, denominator))
         <= SquaredError(total, weights, denominator, split)
  {
    var best := Apportion(total, weights, denominator);
    var theta := BalancedDeviations(total, weights, denominator);
    var moved := seq(|weights|, i requires 0 <= i < |weights| => split[i] - best[i]);
    DeviationsMove(total, weights, denominator, best, split, moved);
    SquaresGap(Deviations(total, weights, denominator, best), Deviations(total, weights, denominator, split),
               moved, denominator - 2 * theta, denominator);
    SumOfDifferences(split, best, moved);
    ApportionSums(total, weights, denominator);
    NoMove(denominator * (denominator - 2 * theta), Sum(moved));
  }

  /** All deviations of the largest-remainder split lie in one window of width `denominator`. */
  lemma BalancedDeviations(total: int, weights: seq<int>, denominator: int) returns (theta: int)
    requires ValidShares(total, weights, denominator)
    ensures var a := Deviations(total, weights, denominator, Apportion(total, weights, denominator));
      forall i :: 0 <= i < |a| ==> -denominator <= 2 * a[i] - (denominator - 2 * theta) <= denominator
  {
    theta := Threshold(total, weights, denominator);
    forall i | 0 <= i < |weights|
      ensures -theta <= Deviations(total, weights, denominator, Apportion(total, weights, denominator))[i]
           <= denominator - theta
    {
      ShareDeviation(total, weights, denominator, i);
    }
  }

  lemma DeviationsMove(
    total: int, weights: seq<int>, denominator: int, from: seq<int>, to: seq<int>, moved: seq<int>)
    requires |from| == |to| == |moved| == |weights|
    requires forall i :: 0 <= i < |moved| ==> moved[i] == to[i] - from[i]
    ensures forall i :: 0 <= i < |weights| ==>
      Deviations(total, weights, denominator, to)[i]
        == Deviations(total, weights, denominator, from)[i] + denominator * moved[i]
  {
    forall i | 0 <= i < |weights|
      ensures Deviations(total, weights, denominator, to)[i]
           == Deviations(total, weights, denominator, from)[i] + denominator * moved[i]
    {
      DeviationMoves(total, weights[i], denominator, from[i], to[i]);
    }
  }

  lemma DeviationMoves(total: int, weight: int, denominator: int, x: int, y: int)
    ensures Deviation(total, weight, denominator, y)
         == Deviation(total, weight, denominator, x) + denominator * (y - x)
  {
  }

  lemma NoMove(m: int, moved: int)
    requires moved == 0
    ensures m * moved == 0
  {
  }

  lemma {:induction false} SumOfDifferences(x: seq<int>, y: seq<int>, difference: seq<int>)
    requires |x| == |y| == |difference|
    requires forall i :: 0 <= i < |x| ==> difference[i] == x[i] - y[i]
    ensures Sum(difference) == Sum(x) - Sum(y)
  {
    if x != [] {
      var n := |x| - 1;
      SumOfDifferences(x[..n], y[..n], difference[..n]);
    }
  }

  lemma {:induction false} DeviationsSum(total: int, weights: seq<int>, denominator: int, split: seq<int>)
    requires |split| == |weights|
    ensures Sum(Deviations(total, weights, denominator, split)) == Sum(split) * denominator - total * Sum(weights)
  {
    if weights != [] {
      var n := |weights| - 1;
      DeviationsSum(total, weights[..n], denominator, split[..n]);
      assert Deviations(total, weights, denominator, split)[..n]
          == Deviations(total, weights[..n], denominator, split[..n]);
      assert (Sum(split[..n]) + split[n]) * denominator == Sum(split[..n]) * denominator + split[n] * denominator;
      assert total * (Sum(weights[..n]) + weights[n]) == total * Sum(weights[..n]) + total * weights[n];
    }
  }

  /** A share whose quota is a whole number of cents receives exactly its quota. */
  lemma WholeQuotaIsExact(total: int, weights: seq<int>, denominator: int, i: nat)
    requires ValidShares(total, weights, denominator) && i < |weights|
    requires Remainders(total, weights, denominator)[i] == 0
    ensures !RoundedUp(total, weights, denominator, i)
  {
    if RoundedUp(total, weights, denominator, i) {
      var best := Apportion(total, weights, denominator);
      var deviations := Deviations(total, weights, denominator, best);
      forall j: nat | j < |weights| ensures 0 <= deviations[j] {
        ShareDeviation(total, weights, denominator, j);
        if !RoundedUp(total, weights, denominator, j) {
          RoundedUpFirst(total, weights, denominator, j, i);
        }
      }
      ShareDeviation(total, weights, denominator, i);
      SumAtLeastTerm(deviations, i);
      DeviationsSum(total, weights, denominator, best);
      ApportionSums(total, weights, denominator);
      assert false;
    }
  }

  /** Every share is less than one cent away from its exact quota. */
  lemma QuotaRule(total: int, weights: seq<int>, denominator: int, i: nat)
    requires ValidShares(total, weights, denominator) && i < |weights|
    ensures -denominator < Deviation(total, weights[i], denominator, Apportion(total, weights, denominator)[i])
         < denominator
  {
    ShareDeviation(total, weights, denominator, i);
    if Remainders(total, weights, denominator)[i] == 0 {
      WholeQuotaIsExact(total, weights, denominator, i);
    }
  }

  /** Zero weight, zero share; and a total within the weights never overfills one of them. */
  lemma ShareWithinWeight(total: int, weights: seq<int>, denominator: int, i: nat)
    requires ValidShares(total, weights, denominator) && i < |weights|
    ensures 0 <= Apportion(total, weights, denominator)[i]
    ensures weights[i] == 0 ==> Apportion(total, weights, denominator)[i] == 0
    ensures total <= denominator ==> Apportion(total, weights, denominator)[i] <= weights[i]
  {
    var remainder := Remainders(total, weights, denominator)[i];
    ShareDeviation(total, weights, denominator, i);
    if remainder == 0 {
      WholeQuotaIsExact(total, weights, denominator, i);
    }
    ShareBounds(total, weights[i], denominator, Apportion(total, weights, denominator)[i], remainder);
  }

  lemma ShareBounds(total: int, w: int, d: int, share: int, remainder: int)
    requires 0 <= total && 0 <= w && 0 < d && 0 <= remainder < d
    requires remainder == total * w % d
    requires Deviation(total, w, d, share) == -remainder
          || (remainder != 0 && Deviation(total, w, d, share) == d - remainder)
    ensures 0 <= share
    ensures w == 0 ==> share == 0
    ensures total <= d ==> share <= w
  {
    QuotaBounds(total, w, d);
    ShareStep(total * w, w, d, share, remainder);
    if total <= d {
      ShareCap(total * w, w, d, share);
    }
  }

  lemma QuotaBounds(total: int, w: int, d: int)
    requires 0 <= total && 0 <= w
    ensures 0 <= total * w
    ensures w == 0 ==> total * w == 0
    ensures total <= d ==> total * w <= d * w
  {
  }

  lemma ShareStep(quota: int, w: int, d: int, share: int, remainder: int)
    requires 0 <= quota && 0 < d && 0 <= remainder < d && (w == 0 ==> quota == 0 && remainder == 0)
    requires share * d - quota == -remainder || (remainder != 0 && share * d - quota == d - remainder)
    ensures 0 <= share
    ensures w == 0 ==> share == 0
  {
    CancelStrictFactor(d, -1, share);
    if w == 0 {
      CancelFactor(d, share, 0);
    }
  }

  lemma ShareCap(quota: int, w: int, d: int, share: int)
    requires 0 < d && quota <= d * w && share * d < quota + d
    ensures share <= w
  {
    assert d * (w + 1) == d * w + d;
    CancelStrictFactor(d, share, w + 1);
  }

  /** Of two shares the first is the integer nearest to its quota, a half counting up. */
  lemma PairIsNearest(total: int, first: int, second: int)
    requires 0 <= total && 0 <= first && 0 <= second && 0 < first + second
    ensures var r, all := Apportion(total, [first, second], first + second), first + second;
      && r[0] + r[1] == total
      && -all < 2 * (r[0] * all - total * first) <= all
      && 0 <= r[0] && 0 <= r[1] && (first == 0 ==> r[0] == 0) && (second == 0 ==> r[1] == 0)
      && (total <= all ==> r[0] <= first && r[1] <= second)
  {
    var weights, all := [first, second], first + second;
    var r := Apportion(total, weights, all);
    SumPair(first, second);
    ApportionSums(total, weights, all);
    ShareWithinWeight(total, weights, all, 0);
    ShareWithinWeight(total, weights, all, 1);
    assert r == [r[0], r[1]];
    SumPair(r[0], r[1]);
    ShareDeviation(total, weights, all, 0);
    ShareDeviation(total, weights, all, 1);
    PairDeviations(total, first, second, r[0], r[1]);
    if RoundedUp(total, weights, all, 0) && !RoundedUp(total, weights, all, 1) {
      RoundedUpFirst(total, weights, all, 1, 0);
    }
    if RoundedUp(total, weights, all, 1) && !RoundedUp(total, weights, all, 0) {
      RoundedUpFirst(total, weights, all, 0, 1);
    }
  }

  lemma PairDeviations(total: int, first: int, second: int, x: int, y: int)
    requires x + y == total
    ensures (x * (first + second) - total * first) + (y * (first + second) - total * second) == 0
  {
    Distributes(first + second, x, y);
    Distributes(total, first, second);
  }

  /** A larger weight never receives a smaller share. */
  lemma ShareMonotone(total: int, weights: seq<int>, denominator: int, i: nat, j: nat)
    requires ValidShares(total, weights, denominator) && i < |weights| && j < |weights|
    requires weights[j] < weights[i]
    ensures Apportion(total, weights, denominator)[j] <= Apportion(total, weights, denominator)[i]
  {
    var remainders, best := Remainders(total, weights, denominator), Apportion(total, weights, denominator);
    var upI, upJ := RoundedUp(total, weights, denominator, i), RoundedUp(total, weights, denominator, j);
    ShareDeviation(total, weights, denominator, i);
    ShareDeviation(total, weights, denominator, j);
    if upJ && !upI {
      RoundedUpFirst(total, weights, denominator, i, j);
    }
    if upJ && remainders[j] == 0 {
      WholeQuotaIsExact(total, weights, denominator, j);
    }
    StrictProduct(total, weights[j], weights[i], denominator);
    MonotoneStep(total * weights[i], total * weights[j], denominator, best[i], best[j],
                 remainders[i], remainders[j], upI, upJ);
  }

  lemma StrictProduct(a: int, v: int, w: int, d: int)
    requires 0 <= a && v < w && 0 < d
    ensures a * v <= a * w
    ensures a * v == a * w ==> a * v % d == 0
  {
    if a != 0 {
      assert a * (w - v) == a * w - a * v;
      assert 0 < a * (w - v);
    }
  }

  lemma MonotoneStep(a: int, b: int, d: int, x: int, y: int, r: int, s: int, upX: bool, upY: bool)
    requires b <= a && 0 < d && 0 <= r < d && 0 <= s < d
    requires x * d - a == (if upX then d else 0) - r
    requires y * d - b == (if upY then d else 0) - s
    requires upY && !upX ==> r <= s
    requires upY ==> s != 0
    requires b == a ==> s == 0
    ensures y <= x
  {
    assert y * d < x * d + d;
    assert d * (x + 1) == x * d + d;
    CancelStrictFactor(d, y, x + 1);
  }

  // ---------------------------------------------------------------------------------------------
  // The program's apportionment operations
  // ---------------------------------------------------------------------------------------------

  /** The loops shared by both apportionments; `None` stands for the leftover throw. */
  method HandOutLeftover(total: int, weights: seq<int>, denominator: int) returns (r: Option<seq<int>>)
    requires ValidShares(total, weights, denominator)
    ensures r == Some(Apportion(total, weights, denominator))
  {
    hide Apportion, SortedByRemainder, SortByRemainder, ListsAll, Floors, Remainders, Sum;
    var amounts := Floors(total, weights, denominator);
    var order := SortByRemainder(Remainders(total, weights, denominator));
    var undistributed := total - Sum(amounts);
    RemaindersAreSorted(Remainders(total, weights, denominator));
    BumpedIsApportion(total, weights, denominator, order);
    var k := 0;
    while k < |order| && undistributed != 0
      invariant 0 <= k <= |order|
      invariant undistributed == Leftover(total, weights, denominator) - k >= 0
      invariant amounts == Bumped(Floors(total, weights, denominator), order[..k])
    {
      assert order[..k + 1][..k] == order[..k];
      amounts := amounts[order[k] := amounts[order[k]] + 1];
      undistributed := undistributed - 1;
      k := k + 1;
    }
    r := if undistributed != 0 then None else Some(amounts);
  }

  /** What the split of `total` in proportion to arbitrary weights returns or throws. */
  function ByAmounts(total: int, weights: seq<int>): (r: Result<seq<int>, PlanError>)
    ensures r.Ok? ==> |r.value| == |weights|
  {
    if total < 0 || |weights| < 1 || !NonNegative(weights) then Err(InvalidAmountDistribution)
    else if Sum(weights) == 0 then
      if total != 0 then Err(InvalidZeroWeightDistribution) else Ok(seq(|weights|, i => 0))
    else
      SumBounds(weights, 0, Max(weights));
      Ok(Apportion(total, weights, Sum(weights)))
  }

  method DistributeByAmounts(total: int, weights: seq<int>) returns (r: Result<seq<int>, PlanError>)
    ensures r == ByAmounts(total, weights)
  {
    var denominator := Sum(weights);
    if total < 0 || |weights| < 1 || exists i :: 0 <= i < |weights| && weights[i] < 0 {
      return Err(InvalidAmountDistribution);
    }
    if denominator == 0 {
      if total != 0 {
        return Err(InvalidZeroWeightDistribution);
      }
      return Ok(seq(|weights|, i => 0));
    }
    SumBounds(weights, 0, Max(weights));
    var shares := HandOutLeftover(total, weights, denominator);
    r := if shares.None? then Err(InvalidAmountDistribution) else Ok(shares.value);
  }

  const BASIS_POINTS := 10_000

  /** What the split of `total` by basis points returns or throws. */
  function ByBasisPoints(total: int, basisPoints: seq<int>): (r: Result<seq<int>, PlanError>)
    ensures r.Ok? ==> |r.value| == |basisPoints|
  {
    if total < 0 || (exists i :: 0 <= i < |basisPoints| && !(0 <= basisPoints[i] <= BASIS_POINTS))
       || Sum(basisPoints) != BASIS_POINTS
    then Err(InvalidAllocationWeights)
    else Ok(Apportion(total, basisPoints, BASIS_POINTS))
  }

  method Distribute(total: int, basisPoints: seq<int>) returns (r: Result<seq<int>, PlanError>)
    ensures r == ByBasisPoints(total, basisPoints)
  {
    if total < 0 || (exists i :: 0 <= i < |basisPoints| && !(0 <= basisPoints[i] <= BASIS_POINTS))
       || Sum(basisPoints) != BASIS_POINTS {
      return Err(InvalidAllocationWeights);
    }
    var shares := HandOutLeftover(total, basisPoints, BASIS_POINTS);
    r := if shares.None? then Err(InvalidAllocationWeights) else Ok(shares.value);
  }

  /** Proportional splits sum to the total, whichever way they are asked for. */
  lemma SplitsSum(total: int, weights: seq<int>)
    ensures ByAmounts(total, weights).Ok? ==> Sum(ByAmounts(total, weights).value) == total
    ensures ByAmounts(total, weights).Ok?
       <==> 0 <= total && 1 <= |weights| && NonNegative(weights) && (Sum(weights) == 0 ==> total == 0)
    ensures ByAmounts(total, weights).Err? ==>
      ByAmounts(total, weights).error ==
        if 0 <= total && 1 <= |weights| && NonNegative(weights) then InvalidZeroWeightDistribution
        else InvalidAmountDistribution
    ensures ByBasisPoints(total, weights).Ok? ==> Sum(ByBasisPoints(total, weights).value) == total
    ensures ByBasisPoints(total, weights).Ok?
       <==> 0 <= total && (forall i :: 0 <= i < |weights| ==> 0 <= weights[i] <= 10_000) && Sum(weights) == 10_000
    ensures ByBasisPoints(total, weights).Err? ==> ByBasisPoints(total, weights).error == InvalidAllocationWeights
  {
    if ByAmounts(total, weights).Ok? {
      if Sum(weights) == 0 {
        SumBounds(ByAmounts(total, weights).value, 0, 0);
      } else {
        SumBounds(weights, 0, Max(weights));
        ApportionSums(total, weights, Sum(weights));
      }
    }
    if ByBasisPoints(total, weights).Ok? {
      ApportionSums(total, weights, BASIS_POINTS);
    }
  }

  // ---------------------------------------------------------------------------------------------
  // Splitting within market capacities
  // ---------------------------------------------------------------------------------------------

  function Min(a: int, b: int): int {
    if a < b then a else b
  }

  /** Fills `amounts[k..]` up to their capacities, first position first. */
  function TopUp(amounts: seq<int>, capacities: seq<int>, remaining: int, k: nat): (r: (seq<int>, int))
    requires |amounts| == |capacities| && k <= |amounts|
    ensures |r.0| == |amounts|
    decreases |amounts| - k
  {
    if k == |amounts| || remaining <= 0 then (amounts, remaining)
    else
      var additional := Min(remaining, capacities[k] - amounts[k]);
      TopUp(amounts[k := amounts[k] + additional], capacities, remaining - additional, k + 1)
  }

  function Capped(desired: seq<int>, capacities: seq<int>): (r: seq<int>)
    requires |desired| == |capacities|
    ensures |r| == |desired|
  {
    seq(|desired|, i requires 0 <= i < |desired| => Min(desired[i], capacities[i]))
  }

  function WithinCapacities(total: int, basisPoints: seq<int>, capacities: seq<int>)
    : (r: Result<seq<int>, PlanError>)
    ensures r.Ok? ==> |r.value| == |basisPoints|
  {
    if total < 0 || |capacities| != |basisPoints| || !(1 <= |capacities| <= 2) || !NonNegative(capacities)
    then Err(InvalidCapacities)
    else
      match ByBasisPoints(total, basisPoints)
      case Err(e) => Err(e)
      case Ok(desired) =>
        var capped := Capped(desired, capacities);
        var (amounts, remaining) := TopUp(capped, capacities, total - Sum(capped), 0);
        if remaining > 0 then Err(NoMatchingOpportunities) else Ok(amounts)
  }

  /** The top-up loop: what the capped amounts leave over goes to the first positions with room. */
  method FillUp(capped: seq<int>, capacities: seq<int>, total: int) returns (amounts: seq<int>, remaining: int)
    requires |capped| == |capacities|
    ensures (amounts, remaining) == TopUp(capped, capacities, total - Sum(capped), 0)
  {
    hide Sum;
    amounts, remaining := capped, total - Sum(capped);
    var index := 0;
    while index < |amounts| && remaining > 0
      invariant 0 <= index <= |amounts| == |capacities|
      invariant TopUp(amounts, capacities, remaining, index) == TopUp(capped, capacities, total - Sum(capped), 0)
    {
      var current := amounts[index];
      var availableCapacity := capacities[index] - current;
      var additional := if remaining < availableCapacity then remaining else availableCapacity;
      amounts := amounts[index := current + additional];
      remaining := remaining - additional;
      index := index + 1;
    }
  }

  method DistributeWithinCapacities(total: int, basisPoints: seq<int>, capacities: seq<int>)
    returns (r: Result<seq<int>, PlanError>)
    ensures r == WithinCapacities(total, basisPoints, capacities)
  {
    if total < 0 || |capacities| != |basisPoints| || |capacities| < 1 || |capacities| > 2
       || exists i :: 0 <= i < |capacities| && capacities[i] < 0 {
      return Err(InvalidCapacities);
    }
    hide ByBasisPoints, Sum, TopUp, Capped;
    var desiredAmounts := Distribute(total, basisPoints);
    if desiredAmounts.Err? {
      return desiredAmounts;
    }
    var amounts, remaining := FillUp(Capped(desiredAmounts.value, capacities), capacities, total);
    r := if remaining > 0 then Err(NoMatchingOpportunities) else Ok(amounts);
  }

  predicate FitsCapacities(split: seq<int>, capacities: seq<int>, total: int) {
    && |split| == |capacities|
    && Sum(split) == total
    && (forall i :: 0 <= i < |split| ==> 0 <= split[i] <= capacities[i])
  }

  function Distance(a: seq<int>, b: seq<int>): int
    requires |a| == |b|
  {
    if a == [] then 0
    else
      var n := |a| - 1;
      Distance(a[..n], b[..n]) + (if a[n] < b[n] then b[n] - a[n] else a[n] - b[n])
  }

  lemma DistancePair(a: seq<int>, b: seq<int>)
    requires 1 <= |a| == |b| <= 2
    ensures |a| == 1 ==> Sum(a) == a[0] && Distance(a, b) == if a[0] < b[0] then b[0] - a[0] else a[0] - b[0]
    ensures |a| == 2 ==> Sum(a) == a[0] + a[1]
    ensures |a| == 2 ==> Distance(a, b) == (if a[0] < b[0] then b[0] - a[0] else a[0] - b[0])
                                         + (if a[1] < b[1] then b[1] - a[1] else a[1] - b[1])
  {
    if |a| == 1 {
      assert a == [a[0]] && a[..0] == [] && b[..0] == [];
      SumPair(a[0], 0);
    } else {
      assert a == [a[0], a[1]];
      SumPair(a[0], a[1]);
      assert a[..1][..0] == [] && b[..1][..0] == [];
    }
  }

  /**
   For valid weights the capacity-limited split exists exactly when the total fits, and then it is
   a feasible split as close to the desired one as any feasible split can be.
   */
  lemma WithinCapacitiesMeaning(total: int, basisPoints: seq<int>, capacities: seq<int>, other: seq<int>)
    requires 1 <= |capacities| <= 2 && |basisPoints| == |capacities| && NonNegative(capacities)
    requires ByBasisPoints(total, basisPoints).Ok?
    ensures WithinCapacities(total, basisPoints, capacities).Ok? <==> total <= Sum(capacities)
    ensures WithinCapacities(total, basisPoints, capacities).Err? ==>
      WithinCapacities(total, basisPoints, capacities).error == NoMatchingOpportunities
    ensures var r := WithinCapacities(total, basisPoints, capacities);
      r.Ok? ==>
        && FitsCapacities(r.value, capacities, total)
        && (FitsCapacities(other, capacities, total) ==>
              Distance(r.value, ByBasisPoints(total, basisPoints).value)
                <= Distance(other, ByBasisPoints(total, basisPoints).value))
  {
    var desired := ByBasisPoints(total, basisPoints).value;
    SplitsSum(total, basisPoints);
    forall i: nat | i < |desired| ensures 0 <= desired[i] {
      ShareWithinWeight(total, basisPoints, BASIS_POINTS, i);
    }
    ToppedUpIsNearest(total, desired, capacities, other);
  }

  /** Two shares within two capacities: the proportional split, moved only as far as a capacity demands. */
  lemma PairWithinCapacities(total: int, first: int, second: int, capacities: seq<int>)
    requires 0 <= total && 0 <= first && 0 <= second && first + second == 10_000
    requires |capacities| == 2 && 0 <= capacities[0] && 0 <= capacities[1]
    ensures var r := WithinCapacities(total, [first, second], capacities);
      && (r.Ok? <==> total <= capacities[0] + capacities[1])
      && (r.Err? ==> r.error == NoMatchingOpportunities)
    ensures var r := WithinCapacities(total, [first, second], capacities);
      var share := Apportion(total, [first, second], 10_000)[0];
      r.Ok? ==>
        && r.value[0] + r.value[1] == total
        && r.value[0] == if capacities[0] < share then capacities[0]
                         else if capacities[1] < total - share then total - capacities[1]
                         else share
  {
    hide WithinCapacities, Sum, Distance, NonNegative;
    var weights := [first, second];
    PairPercentages(total, first, second);
    PairIsNearest(total, first, second);
    var desired := ByBasisPoints(total, weights).value;
    var share := desired[0];
    var x := if capacities[0] < share then capacities[0]
             else if capacities[1] < total - share then total - capacities[1]
             else share;
    var other := [x, total - x];
    SumPair(capacities[0], capacities[1]);
    SumPair(x, total - x);
    assert capacities == [capacities[0], capacities[1]];
    PairNonNegative(capacities);
    WithinCapacitiesMeaning(total, weights, capacities, other);
    var r := WithinCapacities(total, weights, capacities);
    if r.Ok? {
      DistancePair(r.value, desired);
      DistancePair(other, desired);
    }
  }

  lemma PairNonNegative(s: seq<int>)
    requires |s| == 2 && 0 <= s[0] && 0 <= s[1]
    ensures NonNegative(s)
  {
  }

  lemma PairPercentages(total: int, first: int, second: int)
    requires 0 <= total && 0 <= first && 0 <= second && first + second == 10_000
    ensures ByBasisPoints(total, [first, second]) == Ok(Apportion(total, [first, second], 10_000))
  {
    SumPair(first, second);
  }

  predicate ToppedUp(total: int, desired: seq<int>, capacities: seq<int>, other: seq<int>)
    requires |capacities| == |desired|
  {
    var capped := Capped(desired, capacities);
    var (amounts, remaining) := TopUp(capped, capacities, total - Sum(capped), 0);
    && (remaining <= 0 <==> total <= Sum(capacities))
    && (remaining <= 0 ==> FitsCapacities(amounts, capacities, total))
    && (remaining <= 0 && FitsCapacities(other, capacities, total) ==>
          Distance(amounts, desired) <= Distance(other, desired))
  }

  lemma ToppedUpIsNearest(total: int, desired: seq<int>, capacities: seq<int>, other: seq<int>)
    requires 1 <= |capacities| == |desired| <= 2 && NonNegative(capacities) && NonNegative(desired)
    requires Sum(desired) == total
    ensures ToppedUp(total, desired, capacities, other)
  {
    hide ToppedUp;
    if |capacities| == 1 {
      ToppedUpOne(total, desired, capacities, other);
    } else {
      ToppedUpPair(total, desired, capacities, other);
    }
  }

  lemma ToppedUpOne(total: int, desired: seq<int>, capacities: seq<int>, other: seq<int>)
    requires |capacities| == |desired| == 1 && NonNegative(capacities) && NonNegative(desired)
    requires Sum(desired) == total
    ensures ToppedUp(total, desired, capacities, other)
  {
    hide Sum, Distance, TopUp;
    var capped := Capped(desired, capacities);
    DistancePair(desired, desired);
    DistancePair(capped, desired);
    DistancePair(capacities, desired);
    if |other| == 1 {
      DistancePair(other, desired);
    }
    TopUpOne(capped, capacities, total - Sum(capped));
    DistancePair(TopUp(capped, capacities, total - Sum(capped), 0).0, desired);
  }

  lemma ToppedUpPair(total: int, desired: seq<int>, capacities: seq<int>, other: seq<int>)
    requires |capacities| == |desired| == 2 && NonNegative(capacities) && NonNegative(desired)
    requires Sum(desired) == total
    ensures ToppedUp(total, desired, capacities, other)
  {
    hide Sum, Distance, TopUp;
    var capped := Capped(desired, capacities);
    DistancePair(desired, desired);
    DistancePair(capped, desired);
    DistancePair(capacities, desired);
    if |other| == 2 {
      DistancePair(other, desired);
    }
    TopUpPair(capped, capacities, total - Sum(capped));
    DistancePair(TopUp(capped, capacities, total - Sum(capped), 0).0, desired);
  }

  lemma TopUpOne(amounts: seq<int>, capacities: seq<int>, remaining: int)
    requires |amounts| == |capacities| == 1
    ensures var added := if remaining <= 0 then 0 else Min(remaining, capacities[0] - amounts[0]);
      TopUp(amounts, capacities, remaining, 0) == ([amounts[0] + added], remaining - added)
  {
    if remaining <= 0 {
      assert amounts == [amounts[0] + 0];
    } else {
      var added := Min(remaining, capacities[0] - amounts[0]);
      var next := amounts[0 := amounts[0] + added];
      assert next == [amounts[0] + added];
      assert TopUp(next, capacities, remaining - added, 1) == (next, remaining - added);
    }
  }

  lemma TopUpPair(amounts: seq<int>, capacities: seq<int>, remaining: int)
    requires |amounts| == |capacities| == 2
    ensures var added := if remaining <= 0 then 0 else Min(remaining, capacities[0] - amounts[0]);
      var rest := remaining - added;
      var more := if remaining <= 0 || rest <= 0 then 0 else Min(rest, capacities[1] - amounts[1]);
      TopUp(amounts, capacities, remaining, 0) == ([amounts[0] + added, amounts[1] + more], rest - more)
  {
    if remaining <= 0 {
      assert amounts == [amounts[0] + 0, amounts[1] + 0];
    } else {
      var added := Min(remaining, capacities[0] - amounts[0]);
      var next := amounts[0 := amounts[0] + added];
      var rest := remaining - added;
      if rest <= 0 {
        assert next == [amounts[0] + added, amounts[1] + 0];
        assert TopUp(next, capacities, rest, 1) == (next, rest);
      } else {
        var more := Min(rest, capacities[1] - amounts[1]);
        var last := next[1 := next[1] + more];
        assert last == [amounts[0] + added, amounts[1] + more];
        assert TopUp(next, capacities, rest, 1) == TopUp(last, capacities, rest - more, 2);
      }
    }
  }
}
