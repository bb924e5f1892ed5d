/**
 The search for a plan whose modelled costs agree with the capital it allocates.

 Costs depend on the allocation and the allocation on what costs leave over, so the planner iterates:
 each round allocates what the previous round's costs leave, and models the costs of that allocation.
 Rounds whose estimate covers the new costs with at most three cents to spare yield candidates.
 */
module Planner {
  import opened Wrappers
  import opened Arithmetic
  import opened Sequences
  import opened Apportionment
  import opened PlanErrors
  import opened CostModel

  datatype Inputs = Inputs(
    portfolio: Portfolio,
    classify: seq<Position> -> RouteAnswer,
    opportunities: seq<Opportunity>,
    sources: PerEcosystem<int>,
    gross: int,
    reserveBasisPoints: int)

  const MAX_RESERVE_BASIS_POINTS := 9_500
  const MAX_RESIDUAL := 3
  const MAX_ROUNDS := 16

  /** What the preview checks before it plans. */
  predicate ValidInputs(inputs: Inputs) {
    && 0 <= inputs.sources.evm && 0 <= inputs.sources.solana
    && inputs.gross == Both(inputs.sources)
    && 0 <= inputs.reserveBasisPoints <= MAX_RESERVE_BASIS_POINTS
  }

  function Totals(costs: PerEcosystem<EcosystemCost>): PerEcosystem<int> {
    PerEcosystem(costs.evm.total, costs.solana.total)
  }

  // ---------------------------------------------------------------------------------------------
  // Execution cost summary
  // ---------------------------------------------------------------------------------------------

  datatype Funding = DEDUCTED_FROM_GROSS | ADDED_ON_TOP
  datatype ComponentCode = NETWORK | CONVERSION | CROSS_ECOSYSTEM_TRANSFER | MARKET_IMPACT | PLATFORM_ROUTING
  datatype CostComponent = CostComponent(code: ComponentCode, funding: Funding, amount: int)

  datatype ExecutionCost = ExecutionCost(
    components: seq<CostComponent>,
    classification: Classification,
    deductedFromGross: int,
    addedOnTop: int,
    retainedResidual: int,
    total: int,
    requiredCapital: int)

  function FundedBy(components: seq<CostComponent>, funding: Funding): int {
    if components == [] then 0
    else
      var last := components[|components| - 1];
      FundedBy(components[..|components| - 1], funding) + if last.funding == funding then last.amount else 0
  }

  function Components(costs: PerEcosystem<EcosystemCost>): seq<CostComponent> {
    [ CostComponent(NETWORK, DEDUCTED_FROM_GROSS, costs.evm.network + costs.solana.network),
      CostComponent(CONVERSION, DEDUCTED_FROM_GROSS, costs.evm.conversion + costs.solana.conversion),
      CostComponent(CROSS_ECOSYSTEM_TRANSFER, DEDUCTED_FROM_GROSS, 0),
      CostComponent(MARKET_IMPACT, DEDUCTED_FROM_GROSS, costs.evm.marketImpact + costs.solana.marketImpact),
      CostComponent(PLATFORM_ROUTING, ADDED_ON_TOP, costs.evm.platformRouting + costs.solana.platformRouting) ]
  }

  function ExecutionCostOf(plan: CostPlan, gross: int, residual: int): ExecutionCost {
    var components := Components(plan.costs);
    var deducted, added := FundedBy(components, DEDUCTED_FROM_GROSS), FundedBy(components, ADDED_ON_TOP);
    ExecutionCost(components, plan.classification, deducted, added, residual, deducted + added, gross + added)
  }

  predicate Summarizes(plan: CostPlan, gross: int, residual: int, e: ExecutionCost) {
    var evm, solana := plan.costs.evm, plan.costs.solana;
    && |e.components| == 5
    && e.components[0] == CostComponent(NETWORK, DEDUCTED_FROM_GROSS, evm.network + solana.network)
    && e.components[1] == CostComponent(CONVERSION, DEDUCTED_FROM_GROSS, evm.conversion + solana.conversion)
    && e.components[2] == CostComponent(CROSS_ECOSYSTEM_TRANSFER, DEDUCTED_FROM_GROSS, 0)
    && e.components[3] == CostComponent(MARKET_IMPACT, DEDUCTED_FROM_GROSS, evm.marketImpact + solana.marketImpact)
    && e.components[4] == CostComponent(PLATFORM_ROUTING, ADDED_ON_TOP, evm.platformRouting + solana.platformRouting)
    && e.classification == plan.classification
    && e.deductedFromGross == evm.total + solana.total
    && e.addedOnTop == evm.platformRouting + solana.platformRouting
    && e.retainedResidual == residual
    && e.total == e.deductedFromGross + e.addedOnTop
    && e.requiredCapital == gross + evm.platformRouting + solana.platformRouting
  }

  /** The summary names every cost once, deducts the two ecosystems' totals and adds the platform fee on top. */
  lemma ExecutionCostAddsUp(plan: CostPlan, gross: int, residual: int)
    requires NonNegativeCost(plan.costs.evm) && NonNegativeCost(plan.costs.solana)
    ensures Summarizes(plan, gross, residual, ExecutionCostOf(plan, gross, residual))
    ensures 0 <= ExecutionCostOf(plan, gross, residual).total
  {
    var c := Components(plan.costs);
    FundedStep([], c[0]);
    FundedStep([c[0]], c[1]);
    FundedStep([c[0], c[1]], c[2]);
    FundedStep([c[0], c[1], c[2]], c[3]);
    FundedStep([c[0], c[1], c[2], c[3]], c[4]);
    assert [] + [c[0]] == [c[0]] && [c[0]] + [c[1]] == [c[0], c[1]] && [c[0], c[1]] + [c[2]] == [c[0], c[1], c[2]];
    assert [c[0], c[1], c[2]] + [c[3]] == [c[0], c[1], c[2], c[3]] && [c[0], c[1], c[2], c[3]] + [c[4]] == c;
  }

  lemma FundedStep(components: seq<CostComponent>, last: CostComponent)
    ensures forall f :: FundedBy(components + [last], f)
                     == FundedBy(components, f) + if last.funding == f then last.amount else 0
  {
    assert (components + [last])[..|components|] == components;
  }

  // ---------------------------------------------------------------------------------------------
  // One round
  // ---------------------------------------------------------------------------------------------

  datatype Attempt = Attempt(capital: int, liquid: int, managed: PerEcosystem<int>, plan: CostPlan)

  datatype Candidate = Candidate(
    executionCost: ExecutionCost,
    managed: PerEcosystem<int>,
    actualCosts: PerEcosystem<EcosystemCost>,
    capital: int,
    liquid: int,
    residual: int)

  function Buckets(total: int, reserveBasisPoints: int): Result<(int, int), PlanError> {
    match ByBasisPoints(total, [reserveBasisPoints, BASIS_POINTS - reserveBasisPoints])
    case Err(e) => Err(e)
    case Ok(amounts) => Ok((amounts[0], amounts[1]))
  }

  /** The liquid reserve is the whole number of cents nearest to its share of the capital; the rest is managed. */
  lemma BucketsMeaning(total: int, reserveBasisPoints: int)
    requires 0 <= total && 0 <= reserveBasisPoints <= 10_000
    ensures var r := Buckets(total, reserveBasisPoints);
      && r.Ok? && 0 <= r.value.0 && 0 <= r.value.1 && r.value.0 + r.value.1 == total
      && -10_000 < 2 * (10_000 * r.value.0 - reserveBasisPoints * total) <= 10_000
  {
    hide Apportion;
    PairPercentages(total, reserveBasisPoints, BASIS_POINTS - reserveBasisPoints);
    PairIsNearest(total, reserveBasisPoints, BASIS_POINTS - reserveBasisPoints);
    Commutes(reserveBasisPoints, total);
  }

  lemma Commutes(x: int, y: int)
    ensures x * y == y * x
  {
  }

  /** Managed capital split over what each ecosystem has left after its estimated costs. */
  function SplitManaged(total: int, capacity: PerEcosystem<int>): Result<PerEcosystem<int>, PlanError> {
    match ByAmounts(total, [capacity.evm, capacity.solana])
    case Err(e) => Err(e)
    case Ok(shares) => Ok(PerEcosystem(shares[0], shares[1]))
  }

  lemma SplitManagedMeaning(total: int, capacity: PerEcosystem<int>)
    requires 0 <= capacity.evm && 0 <= capacity.solana && 0 <= total <= Both(capacity)
    ensures var r, all := SplitManaged(total, capacity), Both(capacity);
      && r.Ok? && Both(r.value) == total
      && 0 <= r.value.evm <= capacity.evm && 0 <= r.value.solana <= capacity.solana
      && (0 < all ==> -all < 2 * (r.value.evm * all - total * capacity.evm) <= all)
  {
    hide Apportion;
    SumPair(capacity.evm, capacity.solana);
    if 0 < Both(capacity) {
      PairIsNearest(total, capacity.evm, capacity.solana);
    }
  }

  /** Allocation and costs that follow from per-ecosystem cost estimates, and from nothing else of the past. */
  function AttemptWith(inputs: Inputs, estimate: PerEcosystem<int>): Result<Attempt, PlanError> {
    var capital := inputs.gross - Both(estimate);
    match Buckets(capital, inputs.reserveBasisPoints)
    case Err(e) => Err(e)
    case Ok((liquid, managedTotal)) =>
      if managedTotal == 0 || inputs.sources.evm < estimate.evm || inputs.sources.solana < estimate.solana
      then Err(NoMatchingOpportunities)
      else
        match SplitManaged(managedTotal,
                           PerEcosystem(inputs.sources.evm - estimate.evm, inputs.sources.solana - estimate.solana))
        case Err(e) => Err(e)
        case Ok(managed) =>
          match PositionsFor(inputs.opportunities, managed)
          case Err(e) => Err(e)
          case Ok(positions) =>
            match ModeledCosts(inputs.portfolio, inputs.classify, positions)
            case Err(e) => Err(e)
            case Ok(plan) => Ok(Attempt(capital, liquid, managed, plan))
  }

  /** The round's capital is divided as it should be, and its costs are those of its positions. */
  ghost predicate SoundAttempt(inputs: Inputs, estimate: PerEcosystem<int>, a: Attempt) {
    var room := PerEcosystem(inputs.sources.evm - estimate.evm, inputs.sources.solana - estimate.solana);
    && a.capital == inputs.gross - Both(estimate)
    && a.liquid + Both(a.managed) == a.capital
    && -10_000 < 2 * (10_000 * a.liquid - inputs.reserveBasisPoints * a.capital) <= 10_000
    && 0 <= a.liquid && 0 < Both(a.managed)
    && 0 <= a.managed.evm <= room.evm && 0 <= a.managed.solana <= room.solana
    && -Both(room) < 2 * (a.managed.evm * Both(room) - Both(a.managed) * room.evm) <= Both(room)
    && HasCosts(inputs, a.managed, a.plan)
  }

  /** The managed capital finds its positions, and the plan holds what these are charged. */
  ghost predicate HasCosts(inputs: Inputs, managed: PerEcosystem<int>, plan: CostPlan) {
    var positions := PositionsFor(inputs.opportunities, managed);
    && positions.Ok? && WithinMarket(positions.value)
    && PlacedInBoth(inputs.opportunities, managed, positions.value)
    && Modeled(inputs.portfolio, inputs.classify, positions.value, plan)
  }

  lemma AttemptMeaning(inputs: Inputs, estimate: PerEcosystem<int>)
    requires ValidInputs(inputs) && Both(estimate) < inputs.gross
    ensures var r := AttemptWith(inputs, estimate);
      if r.Ok? then SoundAttempt(inputs, estimate, r.value) else IsPlanningError(r.error)
  {
    hide Buckets, SplitManaged, PositionsFor, ModeledCosts, Modeled, WithinMarket, PlacedInBoth;
    var capital := inputs.gross - Both(estimate);
    BucketsMeaning(capital, inputs.reserveBasisPoints);
    var managedTotal := Buckets(capital, inputs.reserveBasisPoints).value.1;
    if managedTotal != 0 && estimate.evm <= inputs.sources.evm && estimate.solana <= inputs.sources.solana {
      var room := PerEcosystem(inputs.sources.evm - estimate.evm, inputs.sources.solana - estimate.solana);
      SplitManagedMeaning(managedTotal, room);
      var managed := SplitManaged(managedTotal, room).value;
      PositionsForMeaning(inputs.opportunities, managed);
      var positions := PositionsFor(inputs.opportunities, managed);
      if positions.Ok? {
        ModeledCostsMeaning(inputs.portfolio, inputs.classify, positions.value);
      }
    }
  }

  /**
   A round is decided by arithmetic, the placement and the cost model: it fails when the reserve takes all of the
   capital or an ecosystem cannot pay its estimate, and otherwise only as one of the two does.
   */
  lemma AttemptExactly(inputs: Inputs, estimate: PerEcosystem<int>, liquid: int, evm: int)
    requires ValidInputs(inputs) && Both(estimate) < inputs.gross
    requires -10_000 < 2 * (10_000 * liquid - inputs.reserveBasisPoints * (inputs.gross - Both(estimate))) <= 10_000
    ensures var r, capital := AttemptWith(inputs, estimate), inputs.gross - Both(estimate);
      var room := PerEcosystem(inputs.sources.evm - estimate.evm, inputs.sources.solana - estimate.solana);
      if liquid == capital || room.evm < 0 || room.solana < 0 then r == Err(NoMatchingOpportunities)
      else if -Both(room) < 2 * (evm * Both(room) - (capital - liquid) * room.evm) <= Both(room) then
        var managed := PerEcosystem(evm, capital - liquid - evm);
        match PositionsFor(inputs.opportunities, managed)
        case Err(e) => r == Err(e)
        case Ok(positions) =>
          match ModeledCosts(inputs.portfolio, inputs.classify, positions)
          case Err(e) => r == Err(e)
          case Ok(plan) => r == Ok(Attempt(capital, liquid, managed, plan))
      else true
  {
    hide Buckets, SplitManaged, PositionsFor, ModeledCosts;
    var capital := inputs.gross - Both(estimate);
    BucketsMeaning(capital, inputs.reserveBasisPoints);
    var (reserve, managedTotal) := Buckets(capital, inputs.reserveBasisPoints).value;
    NearestIsOne(10_000, inputs.reserveBasisPoints * capital, liquid, reserve);
    var room := PerEcosystem(inputs.sources.evm - estimate.evm, inputs.sources.solana - estimate.solana);
    if managedTotal != 0 && 0 <= room.evm && 0 <= room.solana {
      SplitManagedMeaning(managedTotal, room);
      if -Both(room) < 2 * (evm * Both(room) - managedTotal * room.evm) <= Both(room) {
        NearestIsOne(Both(room), managedTotal * room.evm, evm, SplitManaged(managedTotal, room).value.evm);
      }
    }
  }

  /** Only one integer is nearest to a quota, a half counting up. */
  lemma NearestIsOne(d: int, quota: int, x: int, y: int)
    requires -d < 2 * (x * d - quota) <= d || -d < 2 * (d * x - quota) <= d
    requires -d < 2 * (y * d - quota) <= d || -d < 2 * (d * y - quota) <= d
    ensures x == y
  {
    if x < y {
      ProductOrder(d, x + 1, y);
    } else if y < x {
      ProductOrder(d, y + 1, x);
    }
  }

  /** The solvency assertion: `None` when it passes, otherwise what it throws. */
  function SolvencyError(
    sources: PerEcosystem<int>, managed: PerEcosystem<int>, costs: PerEcosystem<int>, liquid: int, residual: int)
    : Option<PlanError>
  {
    if sources.evm < managed.evm + costs.evm || sources.solana < managed.solana + costs.solana
    then Some(NoMatchingOpportunities)
    else if Both(sources) - Both(managed) - Both(costs) != liquid + residual
    then Some(UnallocatedCapitalDoesNotReconcile)
    else None
  }

  function CandidateOf(inputs: Inputs, estimate: PerEcosystem<int>, a: Attempt): Option<Candidate> {
    var actual := Totals(a.plan.costs);
    var residual := Both(estimate) - Both(actual);
    if 0 <= residual <= MAX_RESIDUAL && SolvencyError(inputs.sources, a.managed, actual, a.liquid, residual).None?
    then Some(Candidate(ExecutionCostOf(a.plan, inputs.gross, residual), a.managed, a.plan.costs, a.capital, a.liquid, residual))
    else None
  }

  /**
   Exactly which rounds yield a candidate: the estimate must cover the new costs by zero to three cents
   and each ecosystem must pay its own way. The reconciliation half of the solvency check never decides.
   */
  lemma CandidateExactly(inputs: Inputs, estimate: PerEcosystem<int>, a: Attempt)
    requires ValidInputs(inputs)
    ensures SoundAttempt(inputs, estimate, a) ==>
      var actual := Totals(a.plan.costs);
      && (CandidateOf(inputs, estimate, a).Some? <==>
            && 0 <= Both(estimate) - Both(actual) <= 3
            && a.managed.evm + actual.evm <= inputs.sources.evm
            && a.managed.solana + actual.solana <= inputs.sources.solana)
      && SolvencyError(inputs.sources, a.managed, actual, a.liquid, Both(estimate) - Both(actual))
         != Some(UnallocatedCapitalDoesNotReconcile)
  {
    hide HasCosts;
  }

  /** A fixed point of the costs always yields a candidate, without residual. */
  lemma FixedPointIsFeasible(inputs: Inputs, estimate: PerEcosystem<int>, a: Attempt)
    requires ValidInputs(inputs) && SoundAttempt(inputs, estimate, a)
    requires Totals(a.plan.costs) == estimate
    ensures CandidateOf(inputs, estimate, a).Some? && CandidateOf(inputs, estimate, a).value.residual == 0
  {
    CandidateExactly(inputs, estimate, a);
  }

  // ---------------------------------------------------------------------------------------------
  // Choosing among candidates
  // ---------------------------------------------------------------------------------------------

  /** The candidate sort's order: more managed capital first, then less residual. */
  predicate Better(x: Candidate, y: Candidate) {
    || Both(x.managed) > Both(y.managed)
    || (Both(x.managed) == Both(y.managed) && x.residual < y.residual)
  }

  /** Index of the head of the stable sort: the first candidate no other is better than. */
  function BestIndex(candidates: seq<Candidate>): (k: nat)
    requires candidates != []
    ensures k < |candidates|
    ensures forall i :: 0 <= i < |candidates| ==> !Better(candidates[i], candidates[k])
    ensures forall i :: 0 <= i < k ==> Better(candidates[k], candidates[i])
  {
    var n := |candidates| - 1;
    if n == 0 then 0
    else
      var k := BestIndex(candidates[..n]);
      if Better(candidates[n], candidates[k]) then n else k
  }

  function Best(candidates: seq<Candidate>, sources: PerEcosystem<int>): Result<Candidate, PlanError> {
    if candidates == [] then Err(NoMatchingOpportunities)
    else
      var c := candidates[BestIndex(candidates)];
      match SolvencyError(sources, c.managed, Totals(c.actualCosts), c.liquid, c.residual)
      case Some(e) => Err(e)
      case None => Ok(c)
  }

  /** Candidates seen before change nothing. */
  lemma {:induction false} BestAbsorbs(candidates: seq<Candidate>, repeats: seq<Candidate>, sources: PerEcosystem<int>)
    requires forall i :: 0 <= i < |repeats| ==> repeats[i] in candidates
    ensures Best(candidates + repeats, sources) == Best(candidates, sources)
  {
    if repeats == [] {
      assert candidates + repeats == candidates;
    } else {
      var n := |repeats| - 1;
      var all := candidates + repeats;
      assert all[..|all| - 1] == candidates + repeats[..n];
      BestAbsorbs(candidates, repeats[..n], sources);
      assert repeats[n] in candidates;
      var j :| 0 <= j < |candidates| && candidates[j] == repeats[n];
      assert (candidates + repeats[..n])[j] == repeats[n];
    }
  }

  // ---------------------------------------------------------------------------------------------
  // All sixteen rounds, and the search that stops early
  // ---------------------------------------------------------------------------------------------

  datatype Rounds = Rounds(candidates: seq<Candidate>, failure: Option<PlanError>)

  function Kept(c: Option<Candidate>): seq<Candidate> {
    if c.Some? then [c.value] else []
  }

  /** What `n` rounds from an estimate produce when no round is skipped. */
  function RunRounds(inputs: Inputs, estimate: PerEcosystem<int>, n: nat): Rounds
    decreases n
  {
    if n == 0 || inputs.gross <= Both(estimate) then Rounds([], None)
    else
      match AttemptWith(inputs, estimate)
      case Err(e) => Rounds([], Some(e))
      case Ok(a) =>
        var rest := RunRounds(inputs, Totals(a.plan.costs), n - 1);
        Rounds(Kept(CandidateOf(inputs, estimate, a)) + rest.candidates, rest.failure)
  }

  const ZERO_COSTS := PerEcosystem(EcosystemCost(0, 0, 0, 0, 0), EcosystemCost(0, 0, 0, 0, 0))

  /** The plan chosen from the candidates of all sixteen rounds. */
  function Converge(inputs: Inputs): Result<Candidate, PlanError> {
    var rounds := RunRounds(inputs, Totals(ZERO_COSTS), MAX_ROUNDS);
    match rounds.failure
    case Some(e) => Err(e)
    case None => Best(rounds.candidates, inputs.sources)
  }

  /** Round `v` went through, its costs were visited too, and its candidate, if any, was kept. */
  predicate Settled(inputs: Inputs, v: PerEcosystem<int>, visited: set<PerEcosystem<int>>, kept: seq<Candidate>) {
    && Both(v) < inputs.gross
    && AttemptWith(inputs, v).Ok?
    && Totals(AttemptWith(inputs, v).value.plan.costs) in visited
    && (CandidateOf(inputs, v, AttemptWith(inputs, v).value).Some? ==>
          CandidateOf(inputs, v, AttemptWith(inputs, v).value).value in kept)
  }

  /** Once the costs return to a visited state, further rounds only repeat candidates. */
  lemma {:induction false} CycleRepeats(
    inputs: Inputs, v: PerEcosystem<int>, n: nat, visited: set<PerEcosystem<int>>, kept: seq<Candidate>)
    requires v in visited && forall u :: u in visited ==> Settled(inputs, u, visited, kept)
    decreases n
    ensures RunRounds(inputs, v, n).failure.None?
    ensures forall i :: 0 <= i < |RunRounds(inputs, v, n).candidates| ==> RunRounds(inputs, v, n).candidates[i] in kept
  {
    hide AttemptWith, CandidateOf;
    if 0 < n {
      assert Settled(inputs, v, visited, kept);
      CycleRepeats(inputs, Totals(AttemptWith(inputs, v).value.plan.costs), n - 1, visited, kept);
    }
  }

  /** Stopping as soon as the costs repeat gives the plan of the full sixteen rounds. */
  lemma EarlyStop(
    inputs: Inputs, v: PerEcosystem<int>, n: nat, visited: set<PerEcosystem<int>>, kept: seq<Candidate>)
    requires v in visited && forall u :: u in visited ==> Settled(inputs, u, visited, kept)
    requires RunRounds(inputs, Totals(ZERO_COSTS), MAX_ROUNDS).failure == RunRounds(inputs, v, n).failure
    requires RunRounds(inputs, Totals(ZERO_COSTS), MAX_ROUNDS).candidates == kept + RunRounds(inputs, v, n).candidates
    ensures Converge(inputs) == Best(kept, inputs.sources)
  {
    hide RunRounds, Settled, Best;
    CycleRepeats(inputs, v, n, visited, kept);
    BestAbsorbs(kept, RunRounds(inputs, v, n).candidates, inputs.sources);
  }

  /** The allocation half of the search loop's body. */
  method Attempted(inputs: Inputs, estimated: PerEcosystem<EcosystemCost>) returns (r: Result<Attempt, PlanError>)
    ensures r == AttemptWith(inputs, Totals(estimated))
  {
    hide PositionsFor, ModeledCosts, ByAmounts, ByBasisPoints;
    var capitalAfterCost := inputs.gross - (estimated.evm.total + estimated.solana.total);
    var buckets := Distribute(capitalAfterCost, [inputs.reserveBasisPoints, BASIS_POINTS - inputs.reserveBasisPoints]);
    if buckets.Err? {
      return Err(buckets.error);
    }
    var liquid, managedTotal := buckets.value[0], buckets.value[1];
    if managedTotal == 0 {
      return Err(NoMatchingOpportunities);
    }
    if inputs.sources.evm < estimated.evm.total || inputs.sources.solana < estimated.solana.total {
      return Err(NoMatchingOpportunities);
    }
    var shares := DistributeByAmounts(managedTotal,
                                      [inputs.sources.evm - estimated.evm.total, inputs.sources.solana - estimated.solana.total]);
    if shares.Err? {
      return Err(shares.error);
    }
    var managed := PerEcosystem(shares.value[0], shares.value[1]);
    var positions := PositionsForCapital(inputs.opportunities, managed);
    if positions.Err? {
      return Err(positions.error);
    }
    var plan := ModeledCosts(inputs.portfolio, inputs.classify, positions.value);
    if plan.Err? {
      return Err(plan.error);
    }
    return Ok(Attempt(capitalAfterCost, liquid, managed, plan.value));
  }

  /**
   The program's search. It stops at a fixed point, at a repeated cost state, or when the estimate eats the
   whole capital; the postcondition says that it returns what all sixteen rounds would have returned.
   */
  method ConvergePlan(inputs: Inputs) returns (r: Result<Candidate, PlanError>)
    ensures r == Converge(inputs)
  {
    hide RunRounds, Settled, Best, AttemptWith, CandidateOf, SolvencyError, ExecutionCostOf, Converge;
    var estimated := ZERO_COSTS;
    var visited := {Totals(estimated)};
    var feasible: seq<Candidate> := [];
    ghost var full := RunRounds(inputs, Totals(ZERO_COSTS), MAX_ROUNDS);
    assert [] + full.candidates == full.candidates;
    for iteration := 0 to MAX_ROUNDS
      invariant Totals(estimated) in visited
      invariant forall v :: v in visited && v != Totals(estimated) ==> Settled(inputs, v, visited, feasible)
      invariant full.failure == RunRounds(inputs, Totals(estimated), MAX_ROUNDS - iteration).failure
      invariant full.candidates == feasible + RunRounds(inputs, Totals(estimated), MAX_ROUNDS - iteration).candidates
    {
      ghost var before := feasible;
      var estimatedCost := estimated.evm.total + estimated.solana.total;
      RoundEnds(inputs, Totals(estimated), MAX_ROUNDS - iteration, feasible);
      if inputs.gross <= estimatedCost {
        return Best(feasible, inputs.sources);
      }
      var attempt := Attempted(inputs, estimated);
      if attempt.Err? {
        return Err(attempt.error);
      }
      var next := attempt.value.plan.costs;
      var actualDeductedCost := next.evm.total + next.solana.total;
      if actualDeductedCost <= estimatedCost && estimatedCost - actualDeductedCost <= MAX_RESIDUAL {
        var residual := estimatedCost - actualDeductedCost;
        if SolvencyError(inputs.sources, attempt.value.managed, Totals(next), attempt.value.liquid, residual).None? {
          feasible := feasible + [Candidate(ExecutionCostOf(attempt.value.plan, inputs.gross, residual),
                                            attempt.value.managed, next, attempt.value.capital,
                                            attempt.value.liquid, residual)];
        }
      }
      KeptMatches(inputs, Totals(estimated), attempt.value, before, feasible);
      RoundUnfolds(inputs, Totals(estimated), MAX_ROUNDS - iteration, before, feasible);
      SettledGrows(inputs, Totals(estimated), visited, before, feasible);
      if Totals(next) == Totals(estimated) || Totals(next) in visited {
        assert visited + {Totals(next)} == visited;
        EarlyStop(inputs, Totals(next), MAX_ROUNDS - iteration - 1, visited, feasible);
        return Best(feasible, inputs.sources);
      }
      visited := visited + {Totals(next)};
      estimated := next;
    }
    RoundEnds(inputs, Totals(estimated), 0, feasible);
    return Best(feasible, inputs.sources);
  }

  lemma RoundEnds(inputs: Inputs, v: PerEcosystem<int>, n: nat, kept: seq<Candidate>)
    requires RunRounds(inputs, Totals(ZERO_COSTS), MAX_ROUNDS).failure == RunRounds(inputs, v, n).failure
    requires RunRounds(inputs, Totals(ZERO_COSTS), MAX_ROUNDS).candidates == kept + RunRounds(inputs, v, n).candidates
    ensures n == 0 || inputs.gross <= Both(v) ==> Converge(inputs) == Best(kept, inputs.sources)
    ensures 0 < n && Both(v) < inputs.gross && AttemptWith(inputs, v).Err? ==>
      Converge(inputs) == Err(AttemptWith(inputs, v).error)
  {
    hide AttemptWith, Best, CandidateOf;
    assert n == 0 || inputs.gross <= Both(v) ==> kept + RunRounds(inputs, v, n).candidates == kept;
  }

  lemma KeptMatches(inputs: Inputs, v: PerEcosystem<int>, a: Attempt, before: seq<Candidate>, after: seq<Candidate>)
    requires var residual := Both(v) - Both(Totals(a.plan.costs));
      after == if 0 <= residual <= MAX_RESIDUAL
                  && SolvencyError(inputs.sources, a.managed, Totals(a.plan.costs), a.liquid, residual).None?
               then before + [Candidate(ExecutionCostOf(a.plan, inputs.gross, residual), a.managed, a.plan.costs,
                                        a.capital, a.liquid, residual)]
               else before
    ensures after == before + Kept(CandidateOf(inputs, v, a))
  {
    hide SolvencyError, ExecutionCostOf;
    assert before + [] == before;
  }

  lemma RoundUnfolds(inputs: Inputs, v: PerEcosystem<int>, n: nat, before: seq<Candidate>, after: seq<Candidate>)
    requires 0 < n && Both(v) < inputs.gross && AttemptWith(inputs, v).Ok?
    requires after == before + Kept(CandidateOf(inputs, v, AttemptWith(inputs, v).value))
    ensures var next := Totals(AttemptWith(inputs, v).value.plan.costs);
      && RunRounds(inputs, v, n).failure == RunRounds(inputs, next, n - 1).failure
      && before + RunRounds(inputs, v, n).candidates == after + RunRounds(inputs, next, n - 1).candidates
  {
    hide AttemptWith, CandidateOf;
  }

  lemma SettledGrows(
    inputs: Inputs, v: PerEcosystem<int>, visited: set<PerEcosystem<int>>, before: seq<Candidate>, after: seq<Candidate>)
    requires v in visited && Both(v) < inputs.gross && AttemptWith(inputs, v).Ok?
    requires after == before + Kept(CandidateOf(inputs, v, AttemptWith(inputs, v).value))
    requires forall u :: u in visited && u != v ==> Settled(inputs, u, visited, before)
    ensures var next := Totals(AttemptWith(inputs, v).value.plan.costs);
      forall u :: u in visited ==> Settled(inputs, u, visited + {next}, after)
  {
    hide AttemptWith, CandidateOf;
  }
}
