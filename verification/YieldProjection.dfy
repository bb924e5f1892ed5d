/** The public yield projection and the first day on which it has repaid the estimated fees. */
module YieldProjection {
  import opened Arithmetic
  import opened Wrappers
  import opened PlanErrors
  import opened CostModel

  lemma {:induction false} PowersMultiply(a: nat, b: nat)
    ensures Power(10, a + b) == Power(10, a) * Power(10, b)
  {
    if b != 0 {
      PowersMultiply(a, b - 1);
      Reorder(Power(10, a), Power(10, b - 1));
    }
  }

  lemma Reorder(x: int, y: int)
    ensures x * y * 10 == x * (y * 10)
  {
  }

  function MaximumScale(positions: seq<Position>): (r: nat)
    ensures forall i :: 0 <= i < |positions| ==> positions[i].opportunity.baseRate.fractionalDigits <= r
  {
    if positions == [] then 0
    else
      var rest, last := MaximumScale(positions[..|positions| - 1]), positions[|positions| - 1];
      var digits := last.opportunity.baseRate.fractionalDigits;
      if rest < digits then digits else rest
  }

  function Scaled(amount: int, numerator: int, power: int): int {
    amount * (numerator * power)
  }

  function Weighted(amount: int, numerator: int, power: int): real
    requires 0 < power
  {
    amount as real * (numerator as real / power as real)
  }

  /** One position's yield in units of ten to the minus `scale`. */
  function TermNumerator(p: Position, scale: nat): int
    requires p.opportunity.baseRate.fractionalDigits <= scale
  {
    Scaled(p.amount, p.opportunity.baseRate.numerator, Power(10, scale - p.opportunity.baseRate.fractionalDigits))
  }

  function YieldNumerator(positions: seq<Position>, scale: nat): int
    requires forall i :: 0 <= i < |positions| ==> positions[i].opportunity.baseRate.fractionalDigits <= scale
  {
    if positions == [] then 0
    else YieldNumerator(positions[..|positions| - 1], scale) + TermNumerator(positions[|positions| - 1], scale)
  }

  function ExactTerm(p: Position): real {
    Weighted(p.amount, p.opportunity.baseRate.numerator, Power(10, p.opportunity.baseRate.fractionalDigits))
  }

  /** The exact position-weighted annual yield. */
  function ExactYield(positions: seq<Position>): real {
    if positions == [] then 0.0
    else ExactYield(positions[..|positions| - 1]) + ExactTerm(positions[|positions| - 1])
  }

  const BUCKET := 25
  const MAX_APY := 10_000

  datatype Projection = Projection(annualYieldNumerator: int, denominator: int, effectiveBasisPoints: int, annualYield: int)

  function ExactBasisPoints(numerator: int, capital: nat, denominator: nat): int
    requires 0 < denominator
  {
    if capital == 0 then 0 else NonZero(capital, denominator); numerator * 10_000 / (capital * denominator)
  }

  lemma NonZero(x: nat, y: nat)
    ensures 0 < x && 0 < y ==> 0 < x * y
  {
  }

  /** The rate shown to the public: floored to a whole bucket. */
  function PublicRate(exact: int): (r: int)
    ensures r % 25 == 0 && r <= exact < r + 25
  {
    exact - exact % BUCKET
  }

  /** Amounts are never negative here, so the program's truncating division is the floor. */
  function ProjectYield(positions: seq<Position>, capital: nat): Result<Projection, PlanError> {
    var scale := MaximumScale(positions);
    var exact := ExactBasisPoints(YieldNumerator(positions, scale), capital, Power(10, scale));
    if MAX_APY < exact then Err(ApyExceedsLimits)
    else
      var effective := PublicRate(exact);
      Ok(Projection(capital * effective, 10_000, effective, capital * effective / 10_000))
  }

  lemma TermIsExact(p: Position, scale: nat)
    requires p.opportunity.baseRate.fractionalDigits <= scale
    ensures TermNumerator(p, scale) as real == ExactTerm(p) * Power(10, scale) as real
  {
    hide Power, Scaled, Weighted;
    var rate := p.opportunity.baseRate;
    var up, down := scale - rate.fractionalDigits, rate.fractionalDigits;
    PowersMultiply(up, down);
    ScaledTerm(p.amount, rate.numerator, Power(10, up), Power(10, down), Power(10, scale));
  }

  lemma {:induction false} NumeratorIsExact(positions: seq<Position>, scale: nat)
    requires forall i :: 0 <= i < |positions| ==> positions[i].opportunity.baseRate.fractionalDigits <= scale
    ensures YieldNumerator(positions, scale) as real == ExactYield(positions) * Power(10, scale) as real
  {
    hide TermNumerator, ExactTerm, Power;
    if positions != [] {
      var n := |positions| - 1;
      NumeratorIsExact(positions[..n], scale);
      TermIsExact(positions[n], scale);
      RealDistributes(ExactYield(positions[..n]), ExactTerm(positions[n]), Power(10, scale) as real);
    }
  }

  lemma RealDistributes(x: real, y: real, z: real)
    ensures (x + y) * z == x * z + y * z
  {
  }

  lemma ScaledTerm(amount: int, numerator: nat, up: nat, down: nat, scale: nat)
    requires 0 < down && scale == up * down
    ensures Scaled(amount, numerator, up) as real == Weighted(amount, numerator, down) * scale as real
  {
    var rate := numerator as real / down as real;
    assert rate * down as real == numerator as real;
    assert scale as real == up as real * down as real;
    assert rate * scale as real == rate * down as real * up as real;
    assert (numerator * up) as real == numerator as real * up as real;
    RealAssociates(amount as real, rate, scale as real);
  }

  lemma RealAssociates(x: real, y: real, z: real)
    ensures x * y * z == x * (y * z)
  {
  }

  /** `floor(numerator * 10000 / (capital * denominator))`, stated on the exact yield. */
  lemma BasisPointsOfYield(numerator: int, capital: nat, denominator: nat, exactYield: real, exact: int)
    requires 0 < capital && 0 < denominator
    requires numerator as real == exactYield * denominator as real
    ensures exact == ExactBasisPoints(numerator, capital, denominator)
       <==> (capital * exact) as real <= exactYield * 10_000.0 < (capital * exact + capital) as real
  {
    var scaled := capital * denominator;
    NonZero(capital, denominator);
    FloorIsUnique(numerator * 10_000, scaled, exact);
    ScaleComparison(capital * exact, denominator, exactYield, numerator, scaled * exact);
    Distributes(capital, exact, 1);
    ScaleComparison(capital * exact + capital, denominator, exactYield, numerator, scaled * (exact + 1));
  }

  lemma FloorIsUnique(n: int, d: int, q: int)
    requires 0 < d
    ensures q == n / d <==> d * q <= n < d * (q + 1)
  {
    if d * q <= n < d * (q + 1) {
      var f := n / d;
      assert d * f <= n < d * (f + 1);
      CancelStrictFactor(d, f, q + 1);
      CancelStrictFactor(d, q, f + 1);
    }
  }

  lemma ScaleComparison(x: int, denominator: nat, exactYield: real, numerator: int, scaled: int)
    requires 0 < denominator && numerator as real == exactYield * denominator as real
    requires scaled == x * denominator
    ensures scaled <= numerator * 10_000 <==> x as real <= exactYield * 10_000.0
  {
    var d := denominator as real;
    assert scaled as real == x as real * d;
    assert (numerator * 10_000) as real == exactYield * 10_000.0 * d;
    RealCancel(x as real, exactYield * 10_000.0, d);
  }

  lemma RealCancel(x: real, y: real, d: real)
    requires 0.0 < d
    ensures x * d <= y * d <==> x <= y
  {
  }

  /**
   The public rate is the exact rate floored to a multiple of 25 basis points: never above the exact yield
   and always less than 25 basis points below it, whatever decimal scales the rates are written with.
   */
  lemma ProjectionIsConservative(positions: seq<Position>, capital: nat)
    requires 0 < capital
    ensures var r := ProjectYield(positions, capital);
      r.Ok? ==>
        var p := r.value;
        && p.effectiveBasisPoints % 25 == 0
        && p.annualYieldNumerator == capital * p.effectiveBasisPoints && p.denominator == 10_000
        && p.annualYieldNumerator as real <= ExactYield(positions) * 10_000.0
             < (p.annualYieldNumerator + 25 * capital) as real
        && p.annualYield == p.annualYieldNumerator / 10_000
        && p.annualYield as real <= ExactYield(positions)
  {
    hide YieldNumerator, ExactYield, MaximumScale, Power, ExactBasisPoints, PublicRate;
    var scale := MaximumScale(positions);
    var exact := ExactBasisPoints(YieldNumerator(positions, scale), capital, Power(10, scale));
    NumeratorIsExact(positions, scale);
    BasisPointsOfYield(YieldNumerator(positions, scale), capital, Power(10, scale), ExactYield(positions), exact);
    var effective := PublicRate(exact);
    BucketBounds(capital, exact, effective, ExactYield(positions));
    FloorOfCents(capital * effective, ExactYield(positions));
  }

  lemma BucketBounds(capital: nat, exact: int, effective: int, exactYield: real)
    requires (capital * exact) as real <= exactYield * 10_000.0 < (capital * exact + capital) as real
    requires effective <= exact < effective + BUCKET
    ensures (capital * effective) as real <= exactYield * 10_000.0 < (capital * effective + BUCKET * capital) as real
  {
    BucketProducts(capital, exact, effective);
  }

  lemma BucketProducts(capital: nat, exact: int, effective: int)
    requires effective <= exact < effective + BUCKET
    ensures capital * effective <= capital * exact
    ensures capital * exact + capital <= capital * effective + BUCKET * capital
  {
    ProductOrder(capital, effective, exact);
    ProductOrder(capital, exact + 1, effective + BUCKET);
  }

  lemma FloorOfCents(cents: int, exactYield: real)
    requires cents as real <= exactYield * 10_000.0
    ensures (cents / 10_000) as real <= exactYield
  {
    assert cents / 10_000 * 10_000 <= cents;
  }

  /** The exact yield stays below 100.01 percent of the capital. */
  predicate BelowLimit(exactYield: real, capital: int) {
    exactYield * 10_000.0 < (10_001 * capital) as real
  }

  /** Exactly which yields the projection of positive capital accepts. */
  lemma RateLimitExactly(positions: seq<Position>, capital: nat)
    requires 0 < capital
    ensures ProjectYield(positions, capital).Ok? <==> BelowLimit(ExactYield(positions), capital)
  {
    hide YieldNumerator, ExactYield, MaximumScale, Power, ExactBasisPoints, PublicRate, BelowLimit;
    var scale := MaximumScale(positions);
    var exact := ExactBasisPoints(YieldNumerator(positions, scale), capital, Power(10, scale));
    NumeratorIsExact(positions, scale);
    BasisPointsOfYield(YieldNumerator(positions, scale), capital, Power(10, scale), ExactYield(positions), exact);
    LimitOfRate(capital, exact, ExactYield(positions));
  }

  lemma LimitOfRate(capital: nat, exact: int, exactYield: real)
    requires (capital * exact) as real <= exactYield * 10_000.0 < (capital * exact + capital) as real
    ensures exact <= MAX_APY <==> BelowLimit(exactYield, capital)
  {
    LimitOrder(capital, exact);
  }

  lemma LimitOrder(capital: nat, exact: int)
    ensures exact <= MAX_APY ==> capital * exact + capital <= (MAX_APY + 1) * capital
    ensures MAX_APY < exact ==> (MAX_APY + 1) * capital <= capital * exact
  {
    if exact <= MAX_APY {
      ProductOrder(capital, exact + 1, MAX_APY + 1);
    } else {
      ProductOrder(capital, MAX_APY + 1, exact);
    }
  }

  /** The projection depends on the rates as numbers only, not on how many digits they are written with. */
  lemma ProjectionIgnoresScale(a: seq<Position>, b: seq<Position>, capital: nat)
    requires ExactYield(a) == ExactYield(b)
    ensures ProjectYield(a, capital) == ProjectYield(b, capital)
  {
    hide YieldNumerator, ExactYield, MaximumScale, Power;
    if 0 < capital {
      hide ExactBasisPoints;
      var s, t := MaximumScale(a), MaximumScale(b);
      var exact := ExactBasisPoints(YieldNumerator(a, s), capital, Power(10, s));
      NumeratorIsExact(a, s);
      NumeratorIsExact(b, t);
      BasisPointsOfYield(YieldNumerator(a, s), capital, Power(10, s), ExactYield(a), exact);
      BasisPointsOfYield(YieldNumerator(b, t), capital, Power(10, t), ExactYield(a), exact);
    }
  }

  lemma {:induction false} NumeratorNonNegative(positions: seq<Position>, scale: nat)
    requires NonNegativeAmounts(positions)
    requires forall i :: 0 <= i < |positions| ==> positions[i].opportunity.baseRate.fractionalDigits <= scale
    ensures 0 <= YieldNumerator(positions, scale)
  {
    if positions != [] {
      var n := |positions| - 1;
      NumeratorNonNegative(positions[..n], scale);
      var rate := positions[n].opportunity.baseRate;
      NonNegativeProduct(rate.numerator, Power(10, scale - rate.fractionalDigits));
      NonNegativeProduct(positions[n].amount, rate.numerator * Power(10, scale - rate.fractionalDigits));
    }
  }

  lemma ProjectionNonNegative(positions: seq<Position>, capital: nat)
    requires NonNegativeAmounts(positions)
    ensures var r := ProjectYield(positions, capital);
      r.Ok? ==>
        && 0 <= r.value.effectiveBasisPoints <= 10_000 && 0 <= r.value.annualYieldNumerator
        && 0 < r.value.denominator && r.value.annualYield == r.value.annualYieldNumerator / r.value.denominator
  {
    hide YieldNumerator, MaximumScale, Power;
    var scale := MaximumScale(positions);
    NumeratorNonNegative(positions, scale);
    var numerator := YieldNumerator(positions, scale);
    if 0 < capital {
      QuotientNonNegative(numerator * 10_000, capital, Power(10, scale));
    }
    var effective := PublicRate(ExactBasisPoints(numerator, capital, Power(10, scale)));
    assert 0 <= effective;
    NonNegativeProduct(capital, effective);
  }

  lemma QuotientNonNegative(n: int, x: nat, y: nat)
    requires 0 <= n && 0 < x && 0 < y
    ensures 0 < x * y && 0 <= n / (x * y)
  {
    NonZero(x, y);
  }

  // ---------------------------------------------------------------------------------------------
  // Break-even day
  // ---------------------------------------------------------------------------------------------

  const HORIZON_DAYS := 365

  datatype BreakEven = NoProjectedYield | NotRecoveredWithinHorizon | RecoveredWithinHorizon(day: int)

  function CeilingDivide(numerator: int, denominator: int): int
    requires 0 <= numerator && 0 < denominator
  {
    (numerator + denominator - 1) / denominator
  }

  function FirstPositiveDay(p: Projection, fees: int): BreakEven
    requires 0 <= p.annualYieldNumerator && 0 < p.denominator && 0 <= fees
  {
    if p.annualYieldNumerator == 0 then NoProjectedYield
    else
      NonZero(fees + 1, p.denominator);
      var day := CeilingDivide((fees + 1) * 365 * p.denominator, p.annualYieldNumerator);
      if HORIZON_DAYS < day then NotRecoveredWithinHorizon else RecoveredWithinHorizon(day)
  }

  /** Whole cents of yield visible after `day` days. */
  function VisibleYield(p: Projection, day: nat): int
    requires 0 < p.denominator
  {
    p.annualYieldNumerator * day / (365 * p.denominator)
  }

  lemma ExceedsFees(earned: int, unit: int, fees: int)
    requires 0 < unit
    ensures fees < earned / unit <==> unit * (fees + 1) <= earned
  {
    var floor := earned / unit;
    assert unit * floor <= earned < unit * (floor + 1);
    if fees < floor {
      ProductOrder(unit, fees + 1, floor);
    }
    if unit * (fees + 1) <= earned {
      CancelStrictFactor(unit, fees + 1, floor + 1);
    }
  }

  lemma CeilingIsLeast(numerator: int, denominator: int, x: int)
    requires 0 <= numerator && 0 < denominator
    ensures numerator <= denominator * x <==> CeilingDivide(numerator, denominator) <= x
  {
    var c := CeilingDivide(numerator, denominator);
    var shifted := numerator + denominator - 1;
    assert denominator * c <= shifted < denominator * (c + 1);
    Distributes(denominator, c, 1);
    if c <= x {
      ProductOrder(denominator, c, x);
    }
    if numerator <= denominator * x {
      Distributes(denominator, x, 1);
      CancelStrictFactor(denominator, c, x + 1);
    }
  }

  /**
   The reported day is the least whole day whose visible yield exceeds the fees; nothing is reported exactly when
   no day of the horizon does; and recovery is reported exactly when the annual yield after fees is positive.
   */
  lemma BreakEvenIsLeastDay(p: Projection, fees: int, day: nat)
    requires 0 <= p.annualYieldNumerator && 0 < p.denominator && 0 <= fees
    requires p.annualYield == p.annualYieldNumerator / p.denominator
    ensures var r := FirstPositiveDay(p, fees);
      && (r.RecoveredWithinHorizon? ==> 1 <= r.day <= 365 && (fees < VisibleYield(p, day) <==> r.day <= day))
      && (!r.RecoveredWithinHorizon? && day <= 365 ==> VisibleYield(p, day) <= fees)
      && (r.RecoveredWithinHorizon? <==> 0 < p.annualYield - fees)
      && (r.NoProjectedYield? <==> p.annualYieldNumerator == 0)
  {
    DayThreshold(p, fees, day);
    DayThreshold(p, fees, HORIZON_DAYS);
    if 0 < p.annualYieldNumerator {
      FirstDayIsPositive(p, fees);
    }
    WholeYear(p.annualYieldNumerator, p.denominator);
  }

  lemma FirstDayIsPositive(p: Projection, fees: int)
    requires 0 < p.annualYieldNumerator && 0 < p.denominator && 0 <= fees
    ensures 1 <= CeilingDivide((fees + 1) * 365 * p.denominator, p.annualYieldNumerator)
  {
    NeededYield(fees, p.denominator);
    CeilingIsLeast((fees + 1) * 365 * p.denominator, p.annualYieldNumerator, 0);
  }

  lemma WholeYear(n: int, d: int)
    requires 0 < d
    ensures n * 365 / (365 * d) == n / d
  {
    var q := n / d;
    FloorIsUnique(n, d, q);
    FloorIsUnique(n * 365, 365 * d, q);
    Scale365(d, q);
    Scale365(d, q + 1);
  }

  lemma Scale365(d: int, q: int)
    ensures 365 * d * q == 365 * (d * q)
  {
  }

  lemma DayThreshold(p: Projection, fees: int, day: nat)
    requires 0 <= p.annualYieldNumerator && 0 < p.denominator && 0 <= fees
    ensures p.annualYieldNumerator == 0 ==> VisibleYield(p, day) == 0
    ensures 0 < p.annualYieldNumerator ==>
      var needed := (fees + 1) * 365 * p.denominator;
      0 <= needed && (fees < VisibleYield(p, day) <==> CeilingDivide(needed, p.annualYieldNumerator) <= day)
  {
    hide CeilingDivide;
    var earned := p.annualYieldNumerator * day;
    ExceedsFees(earned, 365 * p.denominator, fees);
    NeededYield(fees, p.denominator);
    if p.annualYieldNumerator == 0 {
      NoYield(day, 365 * p.denominator);
    } else {
      CeilingIsLeast((fees + 1) * 365 * p.denominator, p.annualYieldNumerator, day);
    }
  }

  lemma NoYield(day: int, unit: int)
    requires 0 < unit
    ensures 0 * day / unit == 0
  {
    FloorIsUnique(0, unit, 0);
  }

  lemma NeededYield(fees: int, d: int)
    requires 0 <= fees && 0 < d
    ensures 0 < (fees + 1) * 365 * d == 365 * d * (fees + 1)
  {
  }
}
