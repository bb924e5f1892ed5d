/** Platform fees in integer atomic units, rounded to the nearest unit with ties to even. */
module RoutingFee {
  import opened Arithmetic
  import opened Wrappers
  import opened PlanErrors

  datatype RoundingMode = DOWN | UP | HALF_EVEN

  function RoundRatio(numerator: nat, denominator: nat, mode: RoundingMode): nat
    requires 0 < denominator
  {
    var quotient, remainder := numerator / denominator, numerator % denominator;
    if remainder == 0 || mode == DOWN then quotient
    else if mode == UP then quotient + 1
    else if 2 * remainder < denominator then quotient
    else if denominator < 2 * remainder then quotient + 1
    else if quotient % 2 == 0 then quotient
    else quotient + 1
  }

  /** `x` is a nearest integer to the ratio, and the even one when two are equally near. */
  predicate NearestTiesToEven(numerator: int, denominator: int, x: int) {
    var twice := 2 * (x * denominator - numerator);
    && -denominator <= twice <= denominator
    && (twice == denominator || twice == -denominator ==> x % 2 == 0)
  }

  /** Half-even rounding returns the one nearest-ties-to-even integer and nothing else. */
  lemma HalfEvenIsNearest(numerator: nat, denominator: nat, x: int)
    requires 0 < denominator
    ensures NearestTiesToEven(numerator, denominator, x) <==> x == RoundRatio(numerator, denominator, HALF_EVEN)
  {
    var r := RoundRatio(numerator, denominator, HALF_EVEN);
    var quotient, remainder := numerator / denominator, numerator % denominator;
    assert numerator == quotient * denominator + remainder;
    assert (quotient + 1) * denominator == quotient * denominator + denominator;
    assert NearestTiesToEven(numerator, denominator, r);
    if NearestTiesToEven(numerator, denominator, x) {
      NearestUnique(numerator, denominator, r, x);
    }
  }

  lemma NearestUnique(numerator: int, denominator: int, x: int, y: int)
    requires 0 < denominator
    requires NearestTiesToEven(numerator, denominator, x) && NearestTiesToEven(numerator, denominator, y)
    ensures x == y
  {
    NearestStep(x * denominator, y * denominator, numerator, denominator, x - y, (x - y) * denominator);
  }

  /** Two nearest integers are equal, or neighbours with the ratio midway between them. */
  lemma NearestStep(xd: int, yd: int, numerator: int, denominator: int, gap: int, scaled: int)
    requires 0 < denominator && scaled == gap * denominator == xd - yd
    requires -denominator <= 2 * (xd - numerator) <= denominator
    requires -denominator <= 2 * (yd - numerator) <= denominator
    ensures -1 <= gap <= 1
    ensures gap == 1 ==> 2 * (xd - numerator) == denominator && 2 * (yd - numerator) == -denominator
    ensures gap == -1 ==> 2 * (xd - numerator) == -denominator && 2 * (yd - numerator) == denominator
  {
    CancelFactor(denominator, gap, 1);
    assert (-1) * denominator <= denominator * gap;
    CancelFactor(denominator, -1, gap);
  }

  /** The directed modes round down to the floor and up to the ceiling. */
  lemma DirectedRounding(numerator: nat, denominator: nat)
    requires 0 < denominator
    ensures var down, up := RoundRatio(numerator, denominator, DOWN), RoundRatio(numerator, denominator, UP);
      down * denominator <= numerator < (down + 1) * denominator && (up - 1) * denominator < numerator <= up * denominator
  {
    var quotient := numerator / denominator;
    assert numerator == quotient * denominator + numerator % denominator;
    assert (quotient + 1) * denominator == quotient * denominator + denominator;
    assert (quotient - 1) * denominator == quotient * denominator - denominator;
  }

  /** Rounding never reverses the order of two amounts, whatever the mode. */
  lemma RoundingIsMonotone(smaller: nat, larger: nat, denominator: nat, mode: RoundingMode)
    requires 0 < denominator && smaller <= larger
    ensures RoundRatio(smaller, denominator, mode) <= RoundRatio(larger, denominator, mode)
  {
    var p, r := smaller / denominator, smaller % denominator;
    var q, s := larger / denominator, larger % denominator;
    assert smaller == denominator * p + r && larger == denominator * q + s;
    assert denominator * (q + 1) == denominator * q + denominator;
    CancelStrictFactor(denominator, p, q + 1);
  }

  const MAX_ATOMIC_AMOUNT := 0xffff_ffff_ffff_ffff_ffff_ffff_ffff_ffff_ffff_ffff_ffff_ffff_ffff_ffff_ffff_ffff
  const RATE_DENOMINATOR := 10_000

  /** The platform fee on `amount` at a rate of `basisPoints`, four decimals of scale, half to even. */
  function FeeAtomicAmount(amount: nat, basisPoints: nat): (r: Result<nat, PlanError>) {
    if MAX_ATOMIC_AMOUNT < amount then Err(NumericLimitExceeded)
    else
      var fee := RoundRatio(amount * basisPoints, RATE_DENOMINATOR, HALF_EVEN);
      if MAX_ATOMIC_AMOUNT < fee then Err(NumericLimitExceeded) else Ok(fee)
  }

  function LendingRoutingFee(principal: int, basisPoints: int): Option<int> {
    if principal < 0 || basisPoints < 0 || 10_000 < basisPoints then None
    else
      var numerator := principal * basisPoints;
      var whole, remainder := numerator / 10_000, numerator % 10_000;
      Some(whole + if 5_000 < remainder || (remainder == 5_000 && whole % 2 == 1) then 1 else 0)
  }

  /** The lending package and the routing-fee rule compute one and the same fee, and it fits the principal. */
  lemma LendingFeeMatchesRoutingRule(principal: int, basisPoints: int)
    ensures LendingRoutingFee(principal, basisPoints).Some? <==> 0 <= principal && 0 <= basisPoints <= 10_000
    ensures LendingRoutingFee(principal, basisPoints).Some? ==>
      var fee := LendingRoutingFee(principal, basisPoints).value;
      && 0 <= fee <= principal
      && NearestTiesToEven(principal * basisPoints, RATE_DENOMINATOR, fee)
      && (principal <= MAX_ATOMIC_AMOUNT ==> FeeAtomicAmount(principal, basisPoints) == Ok(fee))
  {
    if 0 <= principal && 0 <= basisPoints <= 10_000 {
      var numerator := principal * basisPoints;
      RateWithinOne(principal, basisPoints);
      LendingFeeIsHalfEven(numerator, principal);
      HalfEvenIsNearest(numerator, RATE_DENOMINATOR, LendingRoutingFee(principal, basisPoints).value);
    }
  }

  lemma RateWithinOne(principal: int, basisPoints: int)
    requires 0 <= principal && 0 <= basisPoints <= 10_000
    ensures 0 <= principal * basisPoints <= principal * 10_000
  {
    assert 0 <= principal * (10_000 - basisPoints);
  }

  lemma LendingFeeIsHalfEven(numerator: nat, principal: nat)
    requires numerator <= principal * 10_000
    ensures var whole, remainder := numerator / 10_000, numerator % 10_000;
      var fee := whole + if 5_000 < remainder || (remainder == 5_000 && whole % 2 == 1) then 1 else 0;
      fee == RoundRatio(numerator, RATE_DENOMINATOR, HALF_EVEN) <= principal
  {
  }
}
