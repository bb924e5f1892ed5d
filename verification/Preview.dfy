/** The allocation preview: input checks, the planned allocation, and its reconciliation guards. */
module Preview {
  import opened Wrappers
  import opened Sequences
  import opened Apportionment
  import opened PlanErrors
  import opened CostModel
  import opened Planner
  import opened PlanTheorems
  import opened YieldProjection

  datatype Selection = Selection(presetId: string, liquidReserveBasisPoints: int)

  const PRESET_IDS := ["MORE_LIQUID", "BALANCED", "MORE_YIELD"]

  datatype PreviewResponse = PreviewResponse(
    grossCapital: int,
    sources: PerEcosystem<int>,
    liquidReserveBasisPoints: int,
    liquidReserve: int,
    managedYieldBasisPoints: int,
    managedYield: int,
    managed: PerEcosystem<int>,
    compositionBasisPoints: PerEcosystem<int>,
    activeEcosystemCount: int,
    executionCost: ExecutionCost,
    capitalIncluded: int,
    projection: Projection,
    annualYieldAfterFees: int,
    firstPositiveDay: BreakEven)

  function SelectionError(s: Selection): Option<PlanError> {
    if s.presetId !in PRESET_IDS then Some(UnsupportedPreset)
    else if !(0 <= s.liquidReserveBasisPoints <= MAX_RESERVE_BASIS_POINTS) then Some(InvalidLiquidReserve)
    else None
  }

  function CapitalIn(wallets: seq<Wallet>, e: Ecosystem): nat {
    if wallets == [] then 0
    else
      var w := wallets[|wallets| - 1];
      CapitalIn(wallets[..|wallets| - 1], e) + if w.namespace == e then w.buyingPower else 0
  }

  lemma PresetsAreNamed(s: Selection)
    ensures SelectionError(s)
         == if s.presetId !in {"MORE_LIQUID", "BALANCED", "MORE_YIELD"} then Some(UnsupportedPreset)
            else if !(0 <= s.liquidReserveBasisPoints <= 9_500) then Some(InvalidLiquidReserve)
            else None
  {
    assert PRESET_IDS[0] == "MORE_LIQUID" && PRESET_IDS[1] == "BALANCED" && PRESET_IDS[2] == "MORE_YIELD";
  }

  /** What the wallets of an ecosystem hold together. */
  lemma {:induction false} CapitalIsSum(wallets: seq<Wallet>, e: Ecosystem)
    ensures CapitalIn(wallets, e) == SumOf(wallets, (w: Wallet) => if w.namespace == e then w.buyingPower else 0)
  {
    if wallets != [] {
      CapitalIsSum(wallets[..|wallets| - 1], e);
    }
  }

  function Sources(p: Portfolio): PerEcosystem<int> {
    PerEcosystem(CapitalIn(p.wallets, EVM), CapitalIn(p.wallets, SOLANA))
  }

  function InputsFor(
    p: Portfolio, s: Selection, opportunities: seq<Opportunity>, classify: seq<Position> -> RouteAnswer): Inputs
  {
    Inputs(p, classify, opportunities, Sources(p), p.buyingPower, s.liquidReserveBasisPoints)
  }

  /** Share of each ecosystem in the managed capital, in basis points. */
  function Composition(managed: PerEcosystem<int>, managedTotal: int): Result<PerEcosystem<int>, PlanError> {
    match ByAmounts(10_000, [managed.evm, managed.solana])
    case Err(e) => Err(e)
    case Ok(shares) =>
      if Both(managed) != managedTotal || shares[0] + shares[1] != 10_000 then Err(InvalidManagedYieldComposition)
      else Ok(PerEcosystem(shares[0], shares[1]))
  }

  /** EVM gets the whole number of basis points nearest to its part of the managed capital, SOLANA the rest. */
  lemma CompositionMeaning(managed: PerEcosystem<int>)
    requires 0 <= managed.evm && 0 <= managed.solana && 0 < Both(managed)
    ensures var r, all := Composition(managed, Both(managed)), managed.evm + managed.solana;
      && r.Ok? && r.value.evm + r.value.solana == 10_000 && 0 <= r.value.evm && 0 <= r.value.solana
      && -all < 2 * (r.value.evm * all - 10_000 * managed.evm) <= all
      && (managed.evm == 0 ==> r.value.evm == 0) && (managed.solana == 0 ==> r.value.solana == 0)
  {
    hide ByAmounts;
    FeeSplit(10_000, managed.evm, managed.solana);
  }

  /** The response's figures account for the gross capital to the cent. */
  predicate Accounts(r: PreviewResponse) {
    && r.liquidReserve + r.managedYield == r.capitalIncluded
    && r.liquidReserveBasisPoints + r.managedYieldBasisPoints == 10_000
    && -10_000 < 2 * (10_000 * r.liquidReserve - r.liquidReserveBasisPoints * r.capitalIncluded) <= 10_000
    && r.capitalIncluded + r.executionCost.deductedFromGross + r.executionCost.retainedResidual == r.grossCapital
    && 0 <= r.executionCost.retainedResidual <= 3
    && r.executionCost.requiredCapital == r.grossCapital + r.executionCost.addedOnTop
    && 0 <= r.liquidReserve && 0 < r.managedYield == r.managed.evm + r.managed.solana
    && 0 <= r.managed.evm <= r.sources.evm && 0 <= r.managed.solana <= r.sources.solana
    && r.compositionBasisPoints.evm + r.compositionBasisPoints.solana == 10_000
    && -r.managedYield < 2 * (r.compositionBasisPoints.evm * r.managedYield - 10_000 * r.managed.evm) <= r.managedYield
    && r.activeEcosystemCount == (if 0 < r.managed.evm then 1 else 0) + (if 0 < r.managed.solana then 1 else 0)
    && 1 <= r.activeEcosystemCount <= 2
    && r.annualYieldAfterFees == r.projection.annualYield - r.executionCost.total
    && (r.firstPositiveDay.RecoveredWithinHorizon? <==> 0 < r.annualYieldAfterFees)
  }

  /** The exact yield of the plan's positions stays below 100.01 percent of its capital. */
  predicate RateWithinLimits(inputs: Inputs, c: Candidate) {
    var positions := PositionsFor(inputs.opportunities, c.managed);
    positions.Ok? && BelowLimit(ExactYield(positions.value), c.capital)
  }

  /** The response's rates and days are those of the positions its managed capital is placed in. */
  predicate Projects(inputs: Inputs, r: PreviewResponse) {
    var positions := PositionsFor(inputs.opportunities, r.managed);
    && positions.Ok? && 0 <= r.capitalIncluded
    && ProjectYield(positions.value, r.capitalIncluded) == Ok(r.projection)
    && 0 <= r.projection.annualYieldNumerator && 0 < r.projection.denominator && 0 <= r.executionCost.total
    && r.firstPositiveDay == FirstPositiveDay(r.projection, r.executionCost.total)
  }

  /** The preview after its input checks, against a portfolio whose capital reconciles. */
  method PreviewPlan(inputs: Inputs) returns (r: Result<PreviewResponse, PlanError>)
    requires ValidInputs(inputs)
    ensures r.Ok? <==> Converge(inputs).Ok? && RateWithinLimits(inputs, Converge(inputs).value)
    ensures r.Ok? ==> Accounts(r.value) && Projects(inputs, r.value)
    ensures r.Ok? ==> r.value.grossCapital == inputs.gross && r.value.sources == inputs.sources
    ensures r.Ok? ==> r.value.liquidReserveBasisPoints == inputs.reserveBasisPoints
    ensures r.Ok? ==> SoundPlan(inputs, Converge(inputs).value)
    ensures r.Ok? ==>
      var c := Converge(inputs).value;
      r.value.managed == c.managed && r.value.executionCost == c.executionCost && r.value.capitalIncluded == c.capital
    ensures r.Err? ==>
      if Converge(inputs).Ok? then r.error == ApyExceedsLimits
      else Converge(inputs) == Err(r.error) && IsPlanningError(r.error)
  {
    hide Converge, Buckets, PositionsFor, Composition, Charged, PlacedInBoth, PlatformFeeOf, BelowLimit, ExactYield, ProjectYield, FirstPositiveDay, WithinMarket, VisibleYield;
    var converged := ConvergePlan(inputs);
    PlanIsSolvent(inputs);
    if converged.Err? {
      return Err(converged.error);
    }
    var plan := converged.value;
    var cost := plan.executionCost;
    if plan.capital + cost.deductedFromGross + cost.retainedResidual != inputs.gross {
      return Err(RetainedCapitalDoesNotReconcile);
    }
    PlannedBuckets(inputs, plan);
    var buckets := Buckets(plan.capital, inputs.reserveBasisPoints);
    match buckets {
      case Err(e) => return Err(e);
      case Ok(_) =>
    }
    var (liquid, managedTotal) := buckets.value;
    if Both(plan.managed) != managedTotal {
      return Err(ManagedCapitalDoesNotReconcile);
    }
    var positions := PositionsForCapital(inputs.opportunities, plan.managed);
    match positions {
      case Err(e) => return Err(e);
      case Ok(_) =>
    }
    MarketAmounts(positions.value);
    RateLimitExactly(positions.value, plan.capital);
    var projection := ProjectYield(positions.value, plan.capital);
    if projection.Err? {
      ProjectionErrors(positions.value, plan.capital);
      return Err(projection.error);
    }
    ProjectionNonNegative(positions.value, plan.capital);
    var firstDay := FirstPositiveDay(projection.value, cost.total);
    BreakEvenIsLeastDay(projection.value, cost.total, 0);
    var composition := Composition(plan.managed, managedTotal);
    CompositionMeaning(plan.managed);
    match composition {
      case Err(e) => return Err(e);
      case Ok(_) =>
    }
    var active := (if 0 < plan.managed.evm then 1 else 0) + (if 0 < plan.managed.solana then 1 else 0);
    if active != 1 && active != 2 {
      return Err(InvalidActiveEcosystemCount);
    }
    return Ok(PreviewResponse(inputs.gross, inputs.sources, inputs.reserveBasisPoints, liquid,
                              10_000 - inputs.reserveBasisPoints, managedTotal, plan.managed, composition.value,
                              active, cost, plan.capital, projection.value,
                              projection.value.annualYield - cost.total, firstDay));
  }

  lemma ProjectionErrors(positions: seq<Position>, capital: nat)
    ensures ProjectYield(positions, capital).Err? ==> ProjectYield(positions, capital).error == ApyExceedsLimits
  {
  }

  /**
   The preview. Whatever the portfolio, the catalogue and the route classifier answer, it ends with figures that
   account for every cent or with an error that blames the request, the portfolio, the catalogue or the route;
   none of the guards on the planner's own arithmetic ever fires.
   */
  method PreviewAllocation(
    p: Portfolio, expectedSnapshotId: string, selection: Selection,
    opportunities: seq<Opportunity>, classify: seq<Position> -> RouteAnswer)
    returns (r: Result<PreviewResponse, PlanError>)
    ensures r.Ok? <==>
      var inputs := InputsFor(p, selection, opportunities, classify);
      && selection.presetId in {"MORE_LIQUID", "BALANCED", "MORE_YIELD"}
      && 0 <= selection.liquidReserveBasisPoints <= 9_500
      && p.snapshotId == expectedSnapshotId
      && CapitalIn(p.wallets, EVM) + CapitalIn(p.wallets, SOLANA) == p.buyingPower
      && Converge(inputs).Ok? && RateWithinLimits(inputs, Converge(inputs).value)
    ensures r.Ok? ==>
      && Accounts(r.value)
      && r.value.grossCapital == p.buyingPower
      && r.value.sources == PerEcosystem(CapitalIn(p.wallets, EVM), CapitalIn(p.wallets, SOLANA))
      && r.value.liquidReserveBasisPoints == selection.liquidReserveBasisPoints
    ensures r.Ok? ==>
      var inputs := InputsFor(p, selection, opportunities, classify);
      Projects(inputs, r.value) && SoundPlan(inputs, Converge(inputs).value)
    ensures r.Err? ==>
      if selection.presetId !in {"MORE_LIQUID", "BALANCED", "MORE_YIELD"} then r.error == UnsupportedPreset
      else if !(0 <= selection.liquidReserveBasisPoints <= 9_500) then r.error == InvalidLiquidReserve
      else if p.snapshotId != expectedSnapshotId then r.error == SnapshotChanged
      else if CapitalIn(p.wallets, EVM) + CapitalIn(p.wallets, SOLANA) != p.buyingPower
      then r.error == EcosystemCapitalDoesNotReconcile
      else r.error == ApyExceedsLimits || IsPlanningError(r.error)
  {
    PresetsAreNamed(selection);
    hide Converge, Accounts, Projects, RateWithinLimits, SelectionError, CapitalIn, SoundPlan;
    if SelectionError(selection).Some? {
      return Err(SelectionError(selection).value);
    }
    if p.snapshotId != expectedSnapshotId {
      return Err(SnapshotChanged);
    }
    if Both(Sources(p)) != p.buyingPower {
      return Err(EcosystemCapitalDoesNotReconcile);
    }
    var inputs := InputsFor(p, selection, opportunities, classify);
    r := PreviewPlan(inputs);
  }
}
