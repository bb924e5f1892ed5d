/** What every plan the search returns guarantees. */
module PlanTheorems {
  import opened Wrappers
  import opened PlanErrors
  import opened CostModel
  import opened Planner

  /**
   The plan pays its own way: no ecosystem funds the other, at most three cents are retained, and
   projected capital, deducted cost and residual are the gross capital to the cent. The reserve is its share of
   the capital to the nearest cent, and the costs are what the plan's own positions are charged.
   */
  ghost predicate SoundPlan(inputs: Inputs, c: Candidate) {
    var plan := CostPlan(c.actualCosts, c.executionCost.classification);
    && HasCosts(inputs, c.managed, plan)
    && 0 <= c.managed.evm && c.managed.evm + c.actualCosts.evm.total <= inputs.sources.evm
    && 0 <= c.managed.solana && c.managed.solana + c.actualCosts.solana.total <= inputs.sources.solana
    && 0 <= c.residual <= 3
    && Summarizes(plan, inputs.gross, c.residual, c.executionCost)
    && 0 <= c.executionCost.total
    && c.capital + c.actualCosts.evm.total + c.actualCosts.solana.total + c.residual == inputs.gross
    && c.liquid + Both(c.managed) == c.capital
    && -10_000 < 2 * (10_000 * c.liquid - inputs.reserveBasisPoints * c.capital) <= 10_000
    && 0 <= c.liquid && 0 < Both(c.managed)
  }

  lemma CandidateIsSound(inputs: Inputs, estimate: PerEcosystem<int>)
    requires ValidInputs(inputs) && Both(estimate) < inputs.gross && AttemptWith(inputs, estimate).Ok?
    ensures var c := CandidateOf(inputs, estimate, AttemptWith(inputs, estimate).value);
      c.Some? ==> SoundPlan(inputs, c.value)
  {
    hide Charged, PlacedInBoth, PlatformFeeOf, PositionsFor, AttemptWith, ExecutionCostOf;
    AttemptMeaning(inputs, estimate);
    var a := AttemptWith(inputs, estimate).value;
    CandidateExactly(inputs, estimate, a);
    ExecutionCostAddsUp(a.plan, inputs.gross, Both(estimate) - Both(Totals(a.plan.costs)));
  }

  ghost predicate SoundRounds(inputs: Inputs, r: Rounds) {
    && (forall c :: c in r.candidates ==> SoundPlan(inputs, c))
    && (r.failure.Some? ==> IsPlanningError(r.failure.value))
  }

  lemma SoundRound(inputs: Inputs, first: Option<Candidate>, rest: Rounds)
    requires first.Some? ==> SoundPlan(inputs, first.value)
    requires SoundRounds(inputs, rest)
    ensures SoundRounds(inputs, Rounds(Kept(first) + rest.candidates, rest.failure))
  {
    hide SoundPlan, IsPlanningError;
  }

  lemma RoundsStart(inputs: Inputs, v: PerEcosystem<int>, n: nat)
    requires n == 0 || inputs.gross <= Both(v)
    ensures SoundRounds(inputs, RunRounds(inputs, v, n))
  {
    hide AttemptWith, CandidateOf, SoundPlan, IsPlanningError;
  }

  lemma {:induction false} RoundsAreSound(inputs: Inputs, v: PerEcosystem<int>, n: nat)
    requires ValidInputs(inputs)
    decreases n
    ensures SoundRounds(inputs, RunRounds(inputs, v, n))
  {
    hide AttemptWith, CandidateOf, SoundPlan, ValidInputs, IsPlanningError, SoundAttempt;
    if n == 0 || inputs.gross <= Both(v) {
      RoundsStart(inputs, v, n);
    } else {
      AttemptMeaning(inputs, v);
      var a := AttemptWith(inputs, v);
      if a.Ok? {
        hide SoundRounds;
        CandidateIsSound(inputs, v);
        var next := Totals(a.value.plan.costs);
        RoundsAreSound(inputs, next, n - 1);
        SoundRound(inputs, CandidateOf(inputs, v, a.value), RunRounds(inputs, next, n - 1));
      }
    }
  }

  /** Every returned plan is sound, and no internal guard ever fires. */
  lemma PlanIsSolvent(inputs: Inputs)
    requires ValidInputs(inputs)
    ensures var r := Converge(inputs);
      if r.Ok? then SoundPlan(inputs, r.value) else IsPlanningError(r.error)
  {
    hide RunRounds, SoundPlan, ValidInputs;
    RoundsAreSound(inputs, Totals(ZERO_COSTS), MAX_ROUNDS);
    var rounds := RunRounds(inputs, Totals(ZERO_COSTS), MAX_ROUNDS);
    if rounds.failure.None? && rounds.candidates != [] {
      var c := rounds.candidates[BestIndex(rounds.candidates)];
      assert c in rounds.candidates;
      SoundPlanPassesAssertion(inputs, c);
    }
  }

  lemma SoundPlanPassesAssertion(inputs: Inputs, c: Candidate)
    requires ValidInputs(inputs) && SoundPlan(inputs, c)
    ensures SolvencyError(inputs.sources, c.managed, Totals(c.actualCosts), c.liquid, c.residual).None?
  {
    hide HasCosts, Summarizes;
  }

  /** Dividing a plan's capital again gives the plan's own reserve and managed capital. */
  lemma PlannedBuckets(inputs: Inputs, c: Candidate)
    requires ValidInputs(inputs) && SoundPlan(inputs, c)
    ensures Buckets(c.capital, inputs.reserveBasisPoints) == Ok((c.liquid, Both(c.managed)))
  {
    hide Buckets, HasCosts, Summarizes;
    BucketsMeaning(c.capital, inputs.reserveBasisPoints);
    NearestIsOne(10_000, inputs.reserveBasisPoints * c.capital, c.liquid, Buckets(c.capital, inputs.reserveBasisPoints).value.0);
  }

  /** A plan is returned exactly when no round fails and some round yields a candidate; it is the best of all. */
  lemma PlanIsBest(inputs: Inputs)
    requires ValidInputs(inputs)
    ensures var rounds := RunRounds(inputs, PerEcosystem(0, 0), 16);
      && (Converge(inputs).Ok? <==> rounds.failure.None? && rounds.candidates != [])
      && (rounds.failure.Some? ==> Converge(inputs) == Err(rounds.failure.value))
      && (rounds.failure.None? && rounds.candidates == [] ==> Converge(inputs) == Err(NoMatchingOpportunities))
    ensures var candidates := RunRounds(inputs, PerEcosystem(0, 0), 16).candidates;
      Converge(inputs).Ok? ==>
        exists k :: 0 <= k < |candidates| && candidates[k] == Converge(inputs).value && FirstBest(candidates, k)
  {
    hide RunRounds, SoundPlan, ValidInputs, SolvencyError;
    RoundsAreSound(inputs, Totals(ZERO_COSTS), MAX_ROUNDS);
    var rounds := RunRounds(inputs, Totals(ZERO_COSTS), MAX_ROUNDS);
    if rounds.candidates != [] {
      var k := BestIndex(rounds.candidates);
      SoundPlanPassesAssertion(inputs, rounds.candidates[k]);
      assert FirstBest(rounds.candidates, k);
    }
  }

  /** No candidate manages more capital, or as much with less residual, and no earlier one does as well. */
  predicate FirstBest(candidates: seq<Candidate>, k: nat)
    requires k < |candidates|
  {
    var best := candidates[k];
    forall i :: 0 <= i < |candidates| ==>
      var mine, other := Both(best.managed), Both(candidates[i].managed);
      && other <= mine
      && (other == mine ==> best.residual <= candidates[i].residual)
      && (other == mine && best.residual == candidates[i].residual ==> k <= i)
  }

  /** The cost estimate that round `k` starts from, if the search gets that far. */
  function StateAt(inputs: Inputs, k: nat): Option<PerEcosystem<int>>
    decreases k
  {
    if k == 0 then Some(Totals(ZERO_COSTS))
    else
      match StateAt(inputs, k - 1)
      case None => None
      case Some(v) =>
        if inputs.gross <= Both(v) || AttemptWith(inputs, v).Err? then None
        else Some(Totals(AttemptWith(inputs, v).value.plan.costs))
  }

  lemma {:induction false} RoundsFrom(inputs: Inputs, k: nat)
    requires k <= MAX_ROUNDS && StateAt(inputs, k).Some?
    decreases k
    ensures var full := RunRounds(inputs, Totals(ZERO_COSTS), MAX_ROUNDS);
      var rest := RunRounds(inputs, StateAt(inputs, k).value, MAX_ROUNDS - k);
      && full.failure == rest.failure
      && (forall c :: c in rest.candidates ==> c in full.candidates)
  {
    hide AttemptWith, CandidateOf;
    if 0 < k {
      RoundsFrom(inputs, k - 1);
    }
  }

  /** When some round's costs equal the estimate it started from, the search returns a plan. */
  lemma FixedPointAlwaysPlans(inputs: Inputs, k: nat)
    requires ValidInputs(inputs) && k < MAX_ROUNDS
    ensures StateAt(inputs, k).Some? && StateAt(inputs, k + 1) == StateAt(inputs, k) ==> Converge(inputs).Ok?
  {
    hide AttemptWith, CandidateOf, ValidInputs, SoundAttempt, Converge;
    if StateAt(inputs, k).Some? && StateAt(inputs, k + 1) == StateAt(inputs, k) {
      var v := StateAt(inputs, k).value;
      var a := AttemptWith(inputs, v).value;
      AttemptMeaning(inputs, v);
      FixedPointIsFeasible(inputs, v, a);
      var c := CandidateOf(inputs, v, a).value;
      assert Settled(inputs, v, {v}, [c]);
      CycleRepeats(inputs, v, MAX_ROUNDS - k, {v}, [c]);
      RoundsFrom(inputs, k);
      var rest := RunRounds(inputs, v, MAX_ROUNDS - k);
      assert c == rest.candidates[0] && c in rest.candidates;
      assert c in RunRounds(inputs, Totals(ZERO_COSTS), MAX_ROUNDS).candidates;
      assert rest.failure.None?;
      PlanIsBest(inputs);
    }
  }

  // ---------------------------------------------------------------------------------------------
  // The search followed round by round
  // ---------------------------------------------------------------------------------------------

  /** Successive estimates: nothing at first, then what each round's allocation costs. */
  ghost predicate Trace(inputs: Inputs, estimates: seq<PerEcosystem<int>>) {
    && 1 <= |estimates| <= 17
    && estimates[0] == PerEcosystem(0, 0)
    && forall i, j :: 0 <= i < j == i + 1 < |estimates| ==> Follows(inputs, estimates[i], estimates[j])
  }

  ghost predicate Follows(inputs: Inputs, estimate: PerEcosystem<int>, next: PerEcosystem<int>) {
    && estimate.evm + estimate.solana < inputs.gross
    && AttemptWith(inputs, estimate).Ok?
    && next.evm == AttemptWith(inputs, estimate).value.plan.costs.evm.total
    && next.solana == AttemptWith(inputs, estimate).value.plan.costs.solana.total
  }

  /** The error that ends a round, if one does. */
  function Failure(inputs: Inputs, estimate: PerEcosystem<int>): Option<PlanError> {
    match AttemptWith(inputs, estimate)
    case Err(e) => Some(e)
    case Ok(_) => None
  }

  /** The trace cannot go on: sixteen rounds are over, the estimate eats the capital, or the round fails. */
  ghost predicate Ended(inputs: Inputs, estimates: seq<PerEcosystem<int>>)
    requires estimates != []
  {
    var last := estimates[|estimates| - 1];
    |estimates| == 17 || inputs.gross <= last.evm + last.solana || AttemptWith(inputs, last).Err?
  }

  /** The candidates of a trace's completed rounds, in order. */
  function CandidatesOf(inputs: Inputs, estimates: seq<PerEcosystem<int>>): seq<Candidate> {
    if estimates == [] then []
    else
      var n := |estimates| - 1;
      CandidatesOf(inputs, estimates[..n])
        + match AttemptWith(inputs, estimates[n])
          case Err(_) => []
          case Ok(a) => Kept(CandidateOf(inputs, estimates[n], a))
  }

  lemma {:induction false} TraceRounds(inputs: Inputs, estimates: seq<PerEcosystem<int>>)
    requires Trace(inputs, estimates)
    ensures var n := |estimates| - 1;
      var full, rest := RunRounds(inputs, PerEcosystem(0, 0), 16), RunRounds(inputs, estimates[n], 16 - n);
      && full.failure == rest.failure
      && full.candidates == CandidatesOf(inputs, estimates[..n]) + rest.candidates
  {
    hide RunRounds, AttemptWith, CandidateOf;
    var n := |estimates| - 1;
    if 0 < n {
      var shorter := estimates[..n];
      TraceRounds(inputs, shorter);
      assert Follows(inputs, estimates[n - 1], estimates[n]);
      var before := CandidatesOf(inputs, estimates[..n - 1]);
      assert shorter[..n - 1] == estimates[..n - 1] && estimates[..n][..n - 1] == estimates[..n - 1];
      var v := estimates[n - 1];
      var after := before + Kept(CandidateOf(inputs, v, AttemptWith(inputs, v).value));
      RoundUnfolds(inputs, v, 17 - n, before, after);
    }
  }

  lemma {:induction false} TraceEnds(inputs: Inputs, estimates: seq<PerEcosystem<int>>)
    requires Trace(inputs, estimates)
    decreases 17 - |estimates|
    ensures exists longer :: Trace(inputs, longer) && Ended(inputs, longer)
  {
    hide AttemptWith;
    if !Ended(inputs, estimates) {
      var last := estimates[|estimates| - 1];
      var costs := AttemptWith(inputs, last).value.plan.costs;
      var longer := estimates + [PerEcosystem(costs.evm.total, costs.solana.total)];
      forall i, j | 0 <= i < j == i + 1 < |longer| ensures Follows(inputs, longer[i], longer[j]) {
        if j < |estimates| {
          assert Follows(inputs, estimates[i], estimates[j]);
        }
      }
      TraceEnds(inputs, longer);
    }
  }

  lemma RoundsStop(inputs: Inputs, v: PerEcosystem<int>, n: nat)
    requires n == 0 || inputs.gross <= Both(v) || AttemptWith(inputs, v).Err?
    ensures RunRounds(inputs, v, n)
         == Rounds([], if n == 0 || inputs.gross <= Both(v) then None else Failure(inputs, v))
  {
    hide AttemptWith, CandidateOf;
  }

  lemma TraceStops(inputs: Inputs, estimates: seq<PerEcosystem<int>>)
    requires Trace(inputs, estimates) && Ended(inputs, estimates)
    ensures 1 <= |estimates| <= 17
    ensures var last := estimates[|estimates| - 1];
      RunRounds(inputs, last, 17 - |estimates|)
      == Rounds([], if |estimates| == 17 || inputs.gross <= Both(last) then None else Failure(inputs, last))
    ensures var last := estimates[|estimates| - 1];
      |estimates| < 17 && Both(last) < inputs.gross ==> Failure(inputs, last).Some?
  {
    hide RunRounds, AttemptWith, Follows;
    RoundsStop(inputs, estimates[|estimates| - 1], 17 - |estimates|);
  }

  lemma TraceOutcome(inputs: Inputs, estimates: seq<PerEcosystem<int>>)
    requires Trace(inputs, estimates) && Ended(inputs, estimates)
    ensures var n, full := |estimates| - 1, RunRounds(inputs, PerEcosystem(0, 0), 16);
      && full.candidates == CandidatesOf(inputs, estimates[..n])
      && full.failure == (if n < 16 && Both(estimates[n]) < inputs.gross then Failure(inputs, estimates[n]) else None)
      && (n < 16 && Both(estimates[n]) < inputs.gross ==> full.failure.Some?)
  {
    hide *;
    TraceRounds(inputs, estimates);
    TraceStops(inputs, estimates);
    var candidates := CandidatesOf(inputs, estimates[..|estimates| - 1]);
    assert candidates + [] == candidates;
  }

  /**
   The search is its trace: there is one that has ended, and any such trace decides the outcome. A failing round ends
   the search with its error; otherwise the first of the best candidates along the trace is the plan, if there is one.
   */
  lemma PlanOfTrace(inputs: Inputs, estimates: seq<PerEcosystem<int>>)
    requires ValidInputs(inputs)
    ensures exists e :: Trace(inputs, e) && Ended(inputs, e)
    ensures Trace(inputs, estimates) && Ended(inputs, estimates) ==>
      var n := |estimates| - 1;
      var candidates := CandidatesOf(inputs, estimates[..n]);
      if n < 16 && Both(estimates[n]) < inputs.gross
      then Converge(inputs).Err? && Failure(inputs, estimates[n]) == Some(Converge(inputs).error)
      else if candidates == [] then Converge(inputs) == Err(NoMatchingOpportunities)
      else exists k :: 0 <= k < |candidates| && Converge(inputs) == Ok(candidates[k]) && FirstBest(candidates, k)
  {
    hide RunRounds, Failure, CandidatesOf, Converge, FirstBest, ValidInputs, Follows;
    TraceEnds(inputs, [PerEcosystem(0, 0)]);
    if Trace(inputs, estimates) && Ended(inputs, estimates) {
      TraceOutcome(inputs, estimates);
      PlanIsBest(inputs);
    }
  }
}
