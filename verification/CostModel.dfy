/** Positions in yield opportunities and the modelled cost of opening them. */
module CostModel {
  import opened Wrappers
  import opened Sequences
  import opened Apportionment
  import opened PlanErrors
  import RoutingFee

  datatype Ecosystem = EVM | SOLANA

  /** One value for each of the two ecosystems, in the program's fixed order EVM, SOLANA. */
  datatype PerEcosystem<T> = PerEcosystem(evm: T, solana: T) {
    function At(e: Ecosystem): T {
      if e == EVM then evm else solana
    }
  }

  function Both(p: PerEcosystem<int>): int {
    p.evm + p.solana
  }

  datatype NetworkId = ETHEREUM | BNB_CHAIN | BASE | SOLANA_MAINNET

  /** A decimal rate: `numerator` over ten to the number of fractional digits. */
  datatype DecimalRate = DecimalRate(numerator: nat, fractionalDigits: nat)

  datatype Opportunity = Opportunity(
    ecosystem: Ecosystem,
    network: NetworkId,
    assetSymbol: string,
    exitLiquidity: nat,
    tvl: nat,
    utilizationBasisPoints: int,
    baseRate: DecimalRate)

  datatype Position = Position(opportunity: Opportunity, amount: int)

  datatype Asset = Asset(stablecoin: string, buyingPower: nat)
  datatype Wallet = Wallet(namespace: Ecosystem, buyingPower: nat, assets: seq<Asset>)
  datatype Portfolio = Portfolio(snapshotId: string, buyingPower: nat, wallets: seq<Wallet>)

  // ---------------------------------------------------------------------------------------------
  // Positions for the managed capital of each ecosystem
  // ---------------------------------------------------------------------------------------------

  function OpportunitiesIn(opportunities: seq<Opportunity>, e: Ecosystem): (r: seq<Opportunity>)
    ensures forall i :: 0 <= i < |r| ==> r[i].ecosystem == e
  {
    if opportunities == [] then []
    else
      var n := |opportunities| - 1;
      OpportunitiesIn(opportunities[..n], e) + if opportunities[n].ecosystem == e then [opportunities[n]] else []
  }

  function Capacity(o: Opportunity): nat {
    Min(o.exitLiquidity, o.tvl)
  }

  function Capacities(opportunities: seq<Opportunity>): (r: seq<int>)
    ensures |r| == |opportunities|
  {
    seq(|opportunities|, i requires 0 <= i < |opportunities| => Capacity(opportunities[i]))
  }

  function RouteWeights(count: nat): seq<int> {
    if count == 1 then [10_000] else [6_000, 4_000]
  }

  function PositionsOf(opportunities: seq<Opportunity>, amounts: seq<int>): (r: seq<Position>)
    requires |opportunities| == |amounts|
    ensures |r| == |amounts|
  {
    seq(|amounts|, i requires 0 <= i < |amounts| => Position(opportunities[i], amounts[i]))
  }

  function PositionsIn(opportunities: seq<Opportunity>, e: Ecosystem, amount: int): Result<seq<Position>, PlanError> {
    var candidates := OpportunitiesIn(opportunities, e);
    if amount == 0 then Ok([])
    else if !(1 <= |candidates| <= 2) then Err(InvalidOpportunitySelection)
    else
      match WithinCapacities(amount, RouteWeights(|candidates|), Capacities(candidates))
      case Err(error) => Err(error)
      case Ok(amounts) => Ok(PositionsOf(candidates, amounts))
  }

  function PositionsFor(opportunities: seq<Opportunity>, managed: PerEcosystem<int>): Result<seq<Position>, PlanError> {
    match PositionsIn(opportunities, EVM, managed.evm)
    case Err(error) => Err(error)
    case Ok(evm) =>
      match PositionsIn(opportunities, SOLANA, managed.solana)
      case Err(error) => Err(error)
      case Ok(solana) => Ok(evm + solana)
  }

  method PositionsForCapital(opportunities: seq<Opportunity>, managed: PerEcosystem<int>)
    returns (r: Result<seq<Position>, PlanError>)
    ensures r == PositionsFor(opportunities, managed)
  {
    var positions := [];
    var ecosystems := [EVM, SOLANA];
    for i := 0 to 2
      invariant i == 0 ==> positions == []
      invariant i == 1 ==> PositionsIn(opportunities, EVM, managed.evm) == Ok(positions)
      invariant i == 2 ==> PositionsFor(opportunities, managed) == Ok(positions)
    {
      var amount := managed.At(ecosystems[i]);
      var candidates := OpportunitiesIn(opportunities, ecosystems[i]);
      if amount != 0 {
        if |candidates| < 1 || |candidates| > 2 {
          return Err(InvalidOpportunitySelection);
        }
        var amounts := DistributeWithinCapacities(amount, RouteWeights(|candidates|), Capacities(candidates));
        if amounts.Err? {
          return Err(amounts.error);
        }
        positions := positions + PositionsOf(candidates, amounts.value);
        assert i == 0 ==> positions == PositionsOf(candidates, amounts.value);
      } else {
        assert positions + [] == positions;
      }
    }
    return Ok(positions);
  }

  /** Capital placed in one ecosystem. */
  function TotalIn(positions: seq<Position>, e: Ecosystem): int {
    if positions == [] then 0
    else
      var n := |positions| - 1;
      TotalIn(positions[..n], e) + if positions[n].opportunity.ecosystem == e then positions[n].amount else 0
  }

  lemma {:induction false} TotalInAppend(a: seq<Position>, b: seq<Position>, e: Ecosystem)
    ensures TotalIn(a + b, e) == TotalIn(a, e) + TotalIn(b, e)
  {
    if b == [] {
      assert a + b == a;
    } else {
      assert (a + b)[..|a + b| - 1] == a + b[..|b| - 1];
      TotalInAppend(a, b[..|b| - 1], e);
    }
  }

  lemma {:induction false} TotalOfPositions(opportunities: seq<Opportunity>, amounts: seq<int>, home: Ecosystem, e: Ecosystem)
    requires |opportunities| == |amounts|
    requires forall i :: 0 <= i < |opportunities| ==> opportunities[i].ecosystem == home
    ensures TotalIn(PositionsOf(opportunities, amounts), e) == if e == home then Sum(amounts) else 0
  {
    if amounts != [] {
      var n := |amounts| - 1;
      TotalOfPositions(opportunities[..n], amounts[..n], home, e);
      assert PositionsOf(opportunities, amounts)[..n] == PositionsOf(opportunities[..n], amounts[..n]);
    }
  }

  predicate NonNegativeAmounts(positions: seq<Position>) {
    forall i :: 0 <= i < |positions| ==> 0 <= positions[i].amount
  }

  predicate WithinMarket(positions: seq<Position>) {
    forall i :: 0 <= i < |positions| ==>
      && 0 <= positions[i].amount
      && positions[i].amount <= positions[i].opportunity.exitLiquidity
      && positions[i].amount <= positions[i].opportunity.tvl
  }

  /** The catalogue offers the ecosystem the opportunities at `i` and `j` and no others. */
  ghost predicate Offers(opportunities: seq<Opportunity>, e: Ecosystem, i: int, j: int) {
    && 0 <= i <= j < |opportunities|
    && forall k :: 0 <= k < |opportunities| ==> (opportunities[k].ecosystem == e <==> k == i || k == j)
  }

  predicate Room(o: Opportunity, amount: int) {
    amount <= o.exitLiquidity && amount <= o.tvl
  }

  /** The market or the two markets at `i` and `j` take the amount. */
  ghost predicate Fits(opportunities: seq<Opportunity>, i: int, j: int, amount: int)
    requires 0 <= i < |opportunities| && 0 <= j < |opportunities|
  {
    if i == j then Room(opportunities[i], amount)
    else exists x :: Room(opportunities[i], x) && Room(opportunities[j], amount - x)
  }

  /**
   `share` is the whole number of cents nearest to 60 percent, a half counting up. The first opportunity gets it
   and the second the rest; where a market lacks the room, it is filled and the other takes what is left.
   */
  predicate SixtyForty(first: Opportunity, second: Opportunity, amount: int, share: int, x: int) {
    && -10_000 < 2 * (10_000 * share - 6_000 * amount) <= 10_000
    && Room(first, x) && Room(second, amount - x)
    && if !Room(first, share) then !Room(first, x + 1)
       else if !Room(second, amount - share) then !Room(second, amount - x + 1)
       else x == share
  }

  /** How one ecosystem's capital is placed. */
  ghost predicate Placed(opportunities: seq<Opportunity>, e: Ecosystem, amount: int, positions: seq<Position>) {
    if amount == 0 then positions == []
    else
      exists i, j :: Offers(opportunities, e, i, j)
        && if i == j then positions == [Position(opportunities[i], amount)]
           else
             && |positions| == 2
             && positions == [Position(opportunities[i], positions[0].amount),
                              Position(opportunities[j], amount - positions[0].amount)]
             && exists share :: SixtyForty(opportunities[i], opportunities[j], amount, share, positions[0].amount)
  }

  lemma {:induction false} OfferedOne(opportunities: seq<Opportunity>, e: Ecosystem)
    ensures var r := OpportunitiesIn(opportunities, e);
      && (|r| == 0 ==> forall k :: 0 <= k < |opportunities| ==> opportunities[k].ecosystem != e)
      && (|r| == 1 ==> exists i :: Offers(opportunities, e, i, i) && r == [opportunities[i]])
  {
    if opportunities != [] {
      var n := |opportunities| - 1;
      OfferedOne(opportunities[..n], e);
      var r := OpportunitiesIn(opportunities, e);
      if |r| == 1 {
        if opportunities[n].ecosystem == e {
          assert Offers(opportunities, e, n, n);
        } else {
          var i :| Offers(opportunities[..n], e, i, i) && r == [opportunities[..n][i]];
          assert Offers(opportunities, e, i, i);
        }
      }
    }
  }

  lemma {:induction false} OfferedTwo(opportunities: seq<Opportunity>, e: Ecosystem)
    ensures var r := OpportunitiesIn(opportunities, e);
      |r| == 2 ==> exists i, j :: i != j && Offers(opportunities, e, i, j) && r == [opportunities[i], opportunities[j]]
  {
    if opportunities != [] {
      var n := |opportunities| - 1;
      OfferedTwo(opportunities[..n], e);
      OfferedOne(opportunities[..n], e);
      var r := OpportunitiesIn(opportunities, e);
      if |r| == 2 {
        if opportunities[n].ecosystem == e {
          var i :| Offers(opportunities[..n], e, i, i) && OpportunitiesIn(opportunities[..n], e) == [opportunities[..n][i]];
          assert Offers(opportunities, e, i, n);
        } else {
          var i, j :| i != j && Offers(opportunities[..n], e, i, j) && r == [opportunities[..n][i], opportunities[..n][j]];
          assert Offers(opportunities, e, i, j);
        }
      }
    }
  }

  lemma {:induction false} OfferedNone(opportunities: seq<Opportunity>, e: Ecosystem)
    requires forall k :: 0 <= k < |opportunities| ==> opportunities[k].ecosystem != e
    ensures OpportunitiesIn(opportunities, e) == []
  {
    if opportunities != [] {
      OfferedNone(opportunities[..|opportunities| - 1], e);
    }
  }

  lemma {:induction false} OffersAreListed(opportunities: seq<Opportunity>, e: Ecosystem, i: int, j: int)
    requires Offers(opportunities, e, i, j)
    ensures OpportunitiesIn(opportunities, e) == if i == j then [opportunities[i]] else [opportunities[i], opportunities[j]]
  {
    var n := |opportunities| - 1;
    if j < n {
      OffersAreListed(opportunities[..n], e, i, j);
    } else if i < n {
      OffersAreListed(opportunities[..n], e, i, i);
    } else {
      OfferedNone(opportunities[..n], e);
    }
  }

  lemma CapacityIsRoom(o: Opportunity, amount: int)
    ensures Room(o, amount) <==> amount <= Capacity(o)
  {
  }

  lemma PlacedInOne(o: Opportunity, amount: int)
    requires 0 < amount
    ensures var r := WithinCapacities(amount, RouteWeights(1), Capacities([o]));
      && (r.Ok? <==> Room(o, amount))
      && (if r.Ok? then r.value == [amount] else r.error == NoMatchingOpportunities)
  {
    hide WithinCapacities, Capacity;
    var capacities := Capacities([o]);
    CapacityIsRoom(o, amount);
    SumPair(10_000, 0);
    SumPair(Capacity(o), 0);
    SplitsSum(amount, [10_000]);
    assert capacities == [Capacity(o)];
    WithinCapacitiesMeaning(amount, [10_000], capacities, []);
    var r := WithinCapacities(amount, [10_000], capacities);
    if r.Ok? {
      SumPair(r.value[0], 0);
      assert r.value == [r.value[0]];
    }
  }

  lemma PlacedInTwo(first: Opportunity, second: Opportunity, amount: int)
    requires 0 < amount
    ensures var r := WithinCapacities(amount, RouteWeights(2), Capacities([first, second]));
      && (r.Ok? <==> exists x :: Room(first, x) && Room(second, amount - x))
      && (if r.Ok? then
            && r.value == [r.value[0], amount - r.value[0]] && 0 <= r.value[0] <= amount
            && exists share :: SixtyForty(first, second, amount, share, r.value[0])
          else r.error == NoMatchingOpportunities)
  {
    hide WithinCapacities, Capacity, Apportion, Room;
    var capacities := Capacities([first, second]);
    assert capacities == [Capacity(first), Capacity(second)];
    PairWithinCapacities(amount, 6_000, 4_000, capacities);
    PairIsNearest(amount, 6_000, 4_000);
    var r := WithinCapacities(amount, [6_000, 4_000], capacities);
    var share := Apportion(amount, [6_000, 4_000], 10_000)[0];
    forall x ensures Room(first, x) <==> x <= Capacity(first) {
      CapacityIsRoom(first, x);
    }
    forall x ensures Room(second, x) <==> x <= Capacity(second) {
      CapacityIsRoom(second, x);
    }
    if r.Ok? {
      assert Room(first, r.value[0]) && Room(second, amount - r.value[0]);
      assert SixtyForty(first, second, amount, share, r.value[0]);
    }
  }

  /** The ecosystem has nothing to place, or its one or two opportunities have the room. */
  ghost predicate Placeable(opportunities: seq<Opportunity>, e: Ecosystem, amount: int) {
    amount == 0 || exists i, j :: Offers(opportunities, e, i, j) && Fits(opportunities, i, j, amount)
  }

  lemma OfferedPositions(opportunities: seq<Opportunity>, e: Ecosystem, i: int, j: int, amount: int)
    requires Offers(opportunities, e, i, j) && 0 < amount
    ensures var r := PositionsIn(opportunities, e, amount);
      && (r.Ok? <==> Fits(opportunities, i, j, amount))
      && (if r.Ok? then Placed(opportunities, e, amount, r.value) else r.error == NoMatchingOpportunities)
  {
    hide WithinCapacities, Room, OpportunitiesIn, SixtyForty;
    OffersAreListed(opportunities, e, i, j);
    if i == j {
      PlacedInOne(opportunities[i], amount);
    } else {
      PlacedInTwo(opportunities[i], opportunities[j], amount);
    }
  }

  lemma NothingOffered(opportunities: seq<Opportunity>, e: Ecosystem)
    requires !exists i, j :: Offers(opportunities, e, i, j)
    ensures var n := |OpportunitiesIn(opportunities, e)|; n != 1 && n != 2
  {
    OfferedOne(opportunities, e);
    OfferedTwo(opportunities, e);
  }

  lemma PositionsInExactly(opportunities: seq<Opportunity>, e: Ecosystem, amount: int)
    requires 0 <= amount
    ensures var r := PositionsIn(opportunities, e, amount);
      && (r.Ok? <==> Placeable(opportunities, e, amount))
      && (r.Ok? ==> Placed(opportunities, e, amount, r.value))
      && (r.Err? ==> r.error == if exists i, j :: Offers(opportunities, e, i, j) then NoMatchingOpportunities
                                else InvalidOpportunitySelection)
  {
    hide WithinCapacities, OpportunitiesIn, Fits;
    if amount != 0 {
      if exists i, j :: Offers(opportunities, e, i, j) {
        hide PositionsIn, Placed;
        forall i, j | Offers(opportunities, e, i, j)
          ensures PositionsIn(opportunities, e, amount).Ok? <==> Fits(opportunities, i, j, amount)
        {
          OfferedPositions(opportunities, e, i, j, amount);
        }
        var i, j :| Offers(opportunities, e, i, j);
        OfferedPositions(opportunities, e, i, j, amount);
      } else {
        NothingOffered(opportunities, e);
      }
    }
  }

  lemma CapacitiesAreMarkets(candidates: seq<Opportunity>, amounts: seq<int>)
    requires |candidates| == |amounts|
    requires forall i :: 0 <= i < |amounts| ==> 0 <= amounts[i] <= Capacities(candidates)[i]
    ensures WithinMarket(PositionsOf(candidates, amounts))
  {
  }

  lemma RoutesFit(candidates: seq<Opportunity>, amount: int)
    requires 0 <= amount && 1 <= |candidates| <= 2
    ensures var r := WithinCapacities(amount, RouteWeights(|candidates|), Capacities(candidates));
      r.Ok? ==> FitsCapacities(r.value, Capacities(candidates), amount)
  {
    SumPair(10_000, 0);
    SumPair(6_000, 4_000);
    WithinCapacitiesMeaning(amount, RouteWeights(|candidates|), Capacities(candidates), []);
  }

  lemma PositionsInMeaning(opportunities: seq<Opportunity>, e: Ecosystem, amount: int)
    requires 0 <= amount
    ensures var r := PositionsIn(opportunities, e, amount);
      r.Ok? ==> WithinMarket(r.value) && forall x :: TotalIn(r.value, x) == if x == e then amount else 0
  {
    hide WithinMarket, WithinCapacities, Capacities, RouteWeights;
    CapacitiesAreMarkets([], []);
    assert PositionsOf([], []) == [];
    var candidates := OpportunitiesIn(opportunities, e);
    if amount != 0 && 1 <= |candidates| <= 2 {
      RoutesFit(candidates, amount);
      var r := WithinCapacities(amount, RouteWeights(|candidates|), Capacities(candidates));
      if r.Ok? {
        CapacitiesAreMarkets(candidates, r.value);
        forall x ensures TotalIn(PositionsOf(candidates, r.value), x) == if x == e then amount else 0 {
          TotalOfPositions(candidates, r.value, e, x);
        }
      }
    }
  }

  /** The EVM capital's positions come first, the SOLANA capital's follow. */
  ghost predicate PlacedInBoth(opportunities: seq<Opportunity>, managed: PerEcosystem<int>, positions: seq<Position>) {
    exists k :: 0 <= k <= |positions| && Placed(opportunities, EVM, managed.evm, positions[..k])
                && Placed(opportunities, SOLANA, managed.solana, positions[k..])
  }

  /**
   Each ecosystem's managed capital is placed in full, the EVM positions first; two markets share it 60 to 40 as far
   as their room allows, none is filled beyond its exit liquidity or its size, and it fails only for want of one or
   two opportunities or of room.
   */
  lemma PositionsForMeaning(opportunities: seq<Opportunity>, managed: PerEcosystem<int>)
    requires 0 <= managed.evm && 0 <= managed.solana
    ensures var r := PositionsFor(opportunities, managed);
      && (r.Ok? <==> Placeable(opportunities, EVM, managed.evm) && Placeable(opportunities, SOLANA, managed.solana))
      && (r.Err? ==>
            var e := if Placeable(opportunities, EVM, managed.evm) then SOLANA else EVM;
            r.error == if exists i, j :: Offers(opportunities, e, i, j) then NoMatchingOpportunities
                       else InvalidOpportunitySelection)
      && (r.Ok? ==> WithinMarket(r.value) && forall x :: TotalIn(r.value, x) == managed.At(x))
      && (r.Ok? ==> PlacedInBoth(opportunities, managed, r.value))
  {
    hide PositionsIn, Placed, Offers, Fits;
    PositionsInExactly(opportunities, EVM, managed.evm);
    PositionsInExactly(opportunities, SOLANA, managed.solana);
    PositionsInMeaning(opportunities, EVM, managed.evm);
    PositionsInMeaning(opportunities, SOLANA, managed.solana);
    var evm, solana := PositionsIn(opportunities, EVM, managed.evm), PositionsIn(opportunities, SOLANA, managed.solana);
    if evm.Ok? && solana.Ok? {
      var r := evm.value + solana.value;
      forall x ensures TotalIn(r, x) == managed.At(x) {
        TotalInAppend(evm.value, solana.value, x);
      }
      assert r[..|evm.value|] == evm.value && r[|evm.value|..] == solana.value;
    }
  }

  // ---------------------------------------------------------------------------------------------
  // Costs
  // ---------------------------------------------------------------------------------------------

  datatype EcosystemCost = EcosystemCost(network: int, conversion: int, marketImpact: int, platformRouting: int, total: int)

  datatype Classification = DIRECT_COMPATIBLE | MATERIAL_ORCHESTRATION

  /** Answer of the route builder and classifier, which the model leaves arbitrary. */
  datatype RouteAnswer = NoFundedSource | Rejected | Classified(kind: Classification)

  datatype CostPlan = CostPlan(costs: PerEcosystem<EcosystemCost>, classification: Classification)

  function PercentageCost(amount: int, basisPoints: int): int
    requires 0 <= amount && 0 <= basisPoints
  {
    if amount == 0 || basisPoints == 0 then 0 else (amount * basisPoints + 9_999) / 10_000
  }

  /** The modelled cost is the least whole number of cents that covers the exact percentage. */
  lemma PercentageCostIsCeiling(amount: int, basisPoints: int, cents: int)
    requires 0 <= amount && 0 <= basisPoints
    ensures PercentageCost(amount, basisPoints) <= cents <==> amount * basisPoints <= 10_000 * cents
  {
  }

  function ActivationCost(n: NetworkId): int {
    match n
    case ETHEREUM => 150
    case BNB_CHAIN => 5
    case BASE => 25
    case SOLANA_MAINNET => 1
  }

  function VolumeBasisPoints(n: NetworkId): int {
    match n
    case ETHEREUM => 8
    case BNB_CHAIN => 2
    case BASE => 4
    case SOLANA_MAINNET => 1
  }

  const CONVERSION_BASIS_POINTS := 12
  const IMPACT_BASE_BASIS_POINTS := 1
  const UTILIZATION_THRESHOLD := 8_500
  const UTILIZATION_STEP := 500

  function ActiveIn(positions: seq<Position>, e: Ecosystem): (r: seq<Position>)
    ensures forall i :: 0 <= i < |r| ==> r[i].opportunity.ecosystem == e
    ensures (forall i :: 0 <= i < |positions| ==> 0 < positions[i].amount) ==>
      forall i :: 0 <= i < |r| ==> 0 < r[i].amount
  {
    if positions == [] then []
    else
      var n := |positions| - 1;
      ActiveIn(positions[..n], e)
        + if 0 < positions[n].amount && positions[n].opportunity.ecosystem == e then [positions[n]] else []
  }

  function Active(positions: seq<Position>): (r: seq<Position>)
    ensures forall i :: 0 <= i < |r| ==> 0 < r[i].amount
  {
    if positions == [] then []
    else
      var n := |positions| - 1;
      Active(positions[..n]) + if 0 < positions[n].amount then [positions[n]] else []
  }

  predicate AllActive(positions: seq<Position>) {
    forall i :: 0 <= i < |positions| ==> 0 < positions[i].amount
  }

  function Networks(positions: seq<Position>): set<NetworkId> {
    set i | 0 <= i < |positions| :: positions[i].opportunity.network
  }

  /** Each network in use is activated once, however many positions it carries. */
  function NetworkActivation(networks: set<NetworkId>): int {
    (if ETHEREUM in networks then ActivationCost(ETHEREUM) else 0)
    + (if BNB_CHAIN in networks then ActivationCost(BNB_CHAIN) else 0)
    + (if BASE in networks then ActivationCost(BASE) else 0)
    + (if SOLANA_MAINNET in networks then ActivationCost(SOLANA_MAINNET) else 0)
  }

  function NetworkVolume(positions: seq<Position>): (r: int)
    requires AllActive(positions)
    ensures 0 <= r
  {
    if positions == [] then 0
    else
      var p := positions[|positions| - 1];
      NetworkVolume(positions[..|positions| - 1])
        + PercentageCost(p.amount, VolumeBasisPoints(p.opportunity.network))
  }

  function UtilizationPremium(utilizationBasisPoints: int): nat {
    var excess := utilizationBasisPoints - UTILIZATION_THRESHOLD;
    if excess <= 0 then 0 else (excess + UTILIZATION_STEP - 1) / UTILIZATION_STEP
  }

  function MarketImpact(positions: seq<Position>): (r: int)
    requires AllActive(positions)
    ensures 0 <= r
  {
    if positions == [] then 0
    else
      var p := positions[|positions| - 1];
      MarketImpact(positions[..|positions| - 1])
        + PercentageCost(p.amount, IMPACT_BASE_BASIS_POINTS + UtilizationPremium(p.opportunity.utilizationBasisPoints))
  }

  function HeldInAssets(assets: seq<Asset>, symbol: string): nat {
    if assets == [] then 0
    else
      var a := assets[|assets| - 1];
      HeldInAssets(assets[..|assets| - 1], symbol) + if a.stablecoin == symbol then a.buyingPower else 0
  }

  function Held(wallets: seq<Wallet>, e: Ecosystem, symbol: string): nat {
    if wallets == [] then 0
    else
      var w := wallets[|wallets| - 1];
      Held(wallets[..|wallets| - 1], e, symbol) + if w.namespace == e then HeldInAssets(w.assets, symbol) else 0
  }

  function Needed(positions: seq<Position>, symbol: string): int {
    if positions == [] then 0
    else
      var p := positions[|positions| - 1];
      Needed(positions[..|positions| - 1], symbol) + if p.opportunity.assetSymbol == symbol then p.amount else 0
  }

  function Symbols(positions: seq<Position>): seq<string> {
    if positions == [] then []
    else
      var rest, symbol := Symbols(positions[..|positions| - 1]), positions[|positions| - 1].opportunity.assetSymbol;
      if symbol in rest then rest else rest + [symbol]
  }

  /** Per asset, what the positions need beyond what the ecosystem's wallets hold. */
  function Shortfall(wallets: seq<Wallet>, positions: seq<Position>, e: Ecosystem, symbols: seq<string>): (r: int)
    ensures 0 <= r
  {
    if symbols == [] then 0
    else
      var symbol := symbols[|symbols| - 1];
      var needed, held := Needed(positions, symbol), Held(wallets, e, symbol);
      Shortfall(wallets, positions, e, symbols[..|symbols| - 1]) + if held < needed then needed - held else 0
  }

  function RequiredConversion(p: Portfolio, positions: seq<Position>, e: Ecosystem): (r: int)
    ensures 0 <= r
  {
    Shortfall(p.wallets, positions, e, Symbols(positions))
  }

  function CostIn(p: Portfolio, active: seq<Position>, e: Ecosystem, platformRouting: int): (c: EcosystemCost)
    requires AllActive(active)
    ensures c.total == c.network + c.conversion + c.marketImpact
    ensures 0 <= c.network && 0 <= c.conversion && 0 <= c.marketImpact && c.platformRouting == platformRouting
  {
    var here := ActiveIn(active, e);
    var network := NetworkActivation(Networks(here)) + NetworkVolume(here);
    var conversion := PercentageCost(RequiredConversion(p, here, e), CONVERSION_BASIS_POINTS);
    var marketImpact := MarketImpact(here);
    EcosystemCost(network, conversion, marketImpact, platformRouting, network + conversion + marketImpact)
  }

  const FREE_TIER_BASIS_POINTS := 20

  function PlatformFee(
    classify: seq<Position> -> RouteAnswer, active: seq<Position>, managedCapital: int)
    : Result<(nat, Classification), PlanError>
  {
    if managedCapital <= 0 || |active| < 1 then Err(NoMatchingOpportunities)
    else
      match classify(active)
      case NoFundedSource => Err(NoMatchingOpportunities)
      case Rejected => Err(RouteRejected)
      case Classified(kind) =>
        match RoutingFee.FeeAtomicAmount(managedCapital, if kind == DIRECT_COMPATIBLE then 0 else FREE_TIER_BASIS_POINTS)
        case Err(e) => Err(e)
        case Ok(fee) => Ok((fee, kind))
  }

  predicate NonNegativeCost(c: EcosystemCost) {
    0 <= c.network && 0 <= c.conversion && 0 <= c.marketImpact && 0 <= c.platformRouting
    && c.total == c.network + c.conversion + c.marketImpact
  }

  function CostsWith(p: Portfolio, active: seq<Position>, evmShare: int, solanaShare: int)
    : (r: PerEcosystem<EcosystemCost>)
    requires AllActive(active)
    ensures 0 <= evmShare ==> NonNegativeCost(r.evm)
    ensures 0 <= solanaShare ==> NonNegativeCost(r.solana)
    ensures r.evm.platformRouting == evmShare && r.solana.platformRouting == solanaShare
  {
    PerEcosystem(CostIn(p, active, EVM, evmShare), CostIn(p, active, SOLANA, solanaShare))
  }

  function ModeledCosts(p: Portfolio, classify: seq<Position> -> RouteAnswer, positions: seq<Position>)
    : Result<CostPlan, PlanError>
  {
    var active := Active(positions);
    var evm, solana := TotalIn(active, EVM), TotalIn(active, SOLANA);
    match PlatformFee(classify, active, evm + solana)
    case Err(e) => Err(e)
    case Ok((fee, kind)) =>
      match ByAmounts(fee, [evm, solana])
      case Err(e) => Err(e)
      case Ok(shares) => Ok(CostPlan(CostsWith(p, active, shares[0], shares[1]), kind))
  }

  // ---------------------------------------------------------------------------------------------
  // What the costs are
  // ---------------------------------------------------------------------------------------------

  /** What the positions in an ecosystem need of a stablecoin. */
  function Demand(positions: seq<Position>, e: Ecosystem, symbol: string): int {
    SumOf(positions, (p: Position) =>
      if p.opportunity.ecosystem == e && p.opportunity.assetSymbol == symbol then p.amount else 0)
  }

  /** What an ecosystem's wallets hold of a stablecoin. */
  function Supply(wallets: seq<Wallet>, e: Ecosystem, symbol: string): int {
    SumOf(wallets, (w: Wallet) =>
      if w.namespace != e then 0
      else SumOf(w.assets, (a: Asset) => if a.stablecoin == symbol then a.buyingPower else 0))
  }

  datatype Purchase = Purchase(symbol: string, amount: nat)

  function Bought(purchases: seq<Purchase>, symbol: string): int {
    SumOf(purchases, (q: Purchase) => if q.symbol == symbol then q.amount else 0)
  }

  function Spent(purchases: seq<Purchase>): int {
    SumOf(purchases, (q: Purchase) => q.amount)
  }

  /** With these purchases the ecosystem's wallets hold every stablecoin its positions need. */
  ghost predicate Suffice(p: Portfolio, positions: seq<Position>, e: Ecosystem, purchases: seq<Purchase>) {
    forall symbol :: Demand(positions, e, symbol) <= Supply(p.wallets, e, symbol) + Bought(purchases, symbol)
  }

  /** `amount` is the least that must be converted, in all, for the positions to be opened. */
  ghost predicate LeastConversion(p: Portfolio, positions: seq<Position>, e: Ecosystem, amount: int) {
    && (exists purchases :: Suffice(p, positions, e, purchases) && Spent(purchases) == amount)
    && (forall purchases :: Suffice(p, positions, e, purchases) ==> amount <= Spent(purchases))
  }

  /** The least number of cents that covers a percentage of an amount. */
  function LeastCents(amount: int, basisPoints: int): (cents: int)
    ensures 10_000 * (cents - 1) < amount * basisPoints <= 10_000 * cents
  {
    -(-(amount * basisPoints) / 10_000)
  }

  /** The least number of steps of 500 basis points that takes 85 percent to the utilization or beyond. */
  function LeastSteps(utilizationBasisPoints: int): (k: nat)
    ensures utilizationBasisPoints <= 8_500 + 500 * k
    ensures 0 < k ==> 8_500 + 500 * (k - 1) < utilizationBasisPoints
  {
    if utilizationBasisPoints <= 8_500 then 0 else -((8_500 - utilizationBasisPoints) / 500)
  }

  /** Some capital of the ecosystem goes to the network. */
  predicate Uses(positions: seq<Position>, e: Ecosystem, n: NetworkId) {
    exists i :: 0 <= i < |positions| && 0 < positions[i].amount
                && positions[i].opportunity.ecosystem == e && positions[i].opportunity.network == n
  }

  function VolumeCents(positions: seq<Position>, e: Ecosystem): int {
    SumOf(positions, (p: Position) =>
      if p.opportunity.ecosystem != e then 0
      else if p.opportunity.network == ETHEREUM then LeastCents(p.amount, 8)
      else if p.opportunity.network == BNB_CHAIN then LeastCents(p.amount, 2)
      else if p.opportunity.network == BASE then LeastCents(p.amount, 4)
      else LeastCents(p.amount, 1))
  }

  function ImpactCents(positions: seq<Position>, e: Ecosystem): int {
    SumOf(positions, (p: Position) =>
      if p.opportunity.ecosystem != e then 0
      else LeastCents(p.amount, 1 + LeastSteps(p.opportunity.utilizationBasisPoints)))
  }

  /**
   What an ecosystem is charged for its positions: every network it uses once and every position by its size, twelve
   basis points of the least conversion, and the market impact of every position.
   */
  ghost predicate Charged(p: Portfolio, positions: seq<Position>, e: Ecosystem, c: EcosystemCost) {
    && c.network == (if Uses(positions, e, ETHEREUM) then 150 else 0)
                    + (if Uses(positions, e, BNB_CHAIN) then 5 else 0)
                    + (if Uses(positions, e, BASE) then 25 else 0)
                    + (if Uses(positions, e, SOLANA_MAINNET) then 1 else 0)
                    + VolumeCents(positions, e)
    && (exists amount :: LeastConversion(p, positions, e, amount) && c.conversion == LeastCents(amount, 12))
    && c.marketImpact == ImpactCents(positions, e)
    && c.total == c.network + c.conversion + c.marketImpact
  }

  lemma PercentageIsLeast(amount: int, basisPoints: int)
    requires 0 <= amount && 0 <= basisPoints
    ensures PercentageCost(amount, basisPoints) == LeastCents(amount, basisPoints)
  {
  }

  lemma PremiumIsLeast(utilizationBasisPoints: int)
    ensures UtilizationPremium(utilizationBasisPoints) == LeastSteps(utilizationBasisPoints)
  {
  }

  /** The active positions of one ecosystem. */
  function Here(positions: seq<Position>, e: Ecosystem): seq<Position> {
    ActiveIn(Active(positions), e)
  }

  lemma HereStep(positions: seq<Position>, p: Position, e: Ecosystem)
    ensures Here(positions + [p], e)
         == Here(positions, e) + if 0 < p.amount && p.opportunity.ecosystem == e then [p] else []
  {
    var all := positions + [p];
    assert all[..|all| - 1] == positions;
    if 0 < p.amount {
      assert (Active(positions) + [p])[..|Active(positions)|] == Active(positions);
    } else {
      assert Active(all) == Active(positions);
    }
  }

  lemma {:induction false} NeededIsDemand(positions: seq<Position>, e: Ecosystem, symbol: string)
    requires NonNegativeAmounts(positions)
    ensures Needed(Here(positions, e), symbol) == Demand(positions, e, symbol)
  {
    hide Here;
    if positions == [] {
      HereEmpty(e);
    } else {
      var n := |positions| - 1;
      NeededIsDemand(positions[..n], e, symbol);
      assert positions == positions[..n] + [positions[n]];
      HereStep(positions[..n], positions[n], e);
      var here := Here(positions[..n], e);
      assert (here + [positions[n]])[..|here|] == here && here + [] == here;
    }
  }

  lemma HereEmpty(e: Ecosystem)
    ensures Here([], e) == []
  {
  }

  lemma {:induction false} VolumeIsCharged(positions: seq<Position>, e: Ecosystem)
    requires NonNegativeAmounts(positions)
    ensures NetworkVolume(Here(positions, e)) == VolumeCents(positions, e)
  {
    hide Here, PercentageCost, LeastCents;
    if positions == [] {
      HereEmpty(e);
    } else {
      var n := |positions| - 1;
      var p := positions[n];
      VolumeIsCharged(positions[..n], e);
      assert positions == positions[..n] + [p];
      HereStep(positions[..n], p, e);
      var here := Here(positions[..n], e);
      assert (here + [p])[..|here|] == here && here + [] == here;
      PercentageIsLeast(p.amount, VolumeBasisPoints(p.opportunity.network));
    }
  }

  lemma {:induction false} ImpactIsCharged(positions: seq<Position>, e: Ecosystem)
    requires NonNegativeAmounts(positions)
    ensures MarketImpact(Here(positions, e)) == ImpactCents(positions, e)
  {
    hide Here, PercentageCost, LeastCents, UtilizationPremium, LeastSteps;
    if positions == [] {
      HereEmpty(e);
    } else {
      var n := |positions| - 1;
      var p := positions[n];
      ImpactIsCharged(positions[..n], e);
      assert positions == positions[..n] + [p];
      HereStep(positions[..n], p, e);
      var here := Here(positions[..n], e);
      assert (here + [p])[..|here|] == here && here + [] == here;
      PremiumIsLeast(p.opportunity.utilizationBasisPoints);
      PercentageIsLeast(p.amount, 1 + LeastSteps(p.opportunity.utilizationBasisPoints));
    }
  }

  lemma {:induction false} NetworksAreUsed(positions: seq<Position>, e: Ecosystem, n: NetworkId)
    ensures n in Networks(Here(positions, e)) <==> Uses(positions, e, n)
  {
    hide Here;
    if positions == [] {
      HereEmpty(e);
    } else {
      var k := |positions| - 1;
      var p := positions[k];
      NetworksAreUsed(positions[..k], e, n);
      assert positions == positions[..k] + [p];
      HereStep(positions[..k], p, e);
      NetworksStep(Here(positions[..k], e), p, n);
      assert Here(positions[..k], e) + [] == Here(positions[..k], e);
    }
  }

  lemma NetworksStep(here: seq<Position>, p: Position, n: NetworkId)
    ensures n in Networks(here + [p]) <==> n in Networks(here) || n == p.opportunity.network
  {
    if n in Networks(here) {
      var i :| 0 <= i < |here| && here[i].opportunity.network == n;
      assert (here + [p])[i].opportunity.network == n;
    }
    assert (here + [p])[|here|] == p;
  }

  lemma {:induction false} HeldIsSupply(wallets: seq<Wallet>, e: Ecosystem, symbol: string)
    ensures Held(wallets, e, symbol) == Supply(wallets, e, symbol)
  {
    if wallets != [] {
      HeldIsSupply(wallets[..|wallets| - 1], e, symbol);
      AssetsAreSummed(wallets[|wallets| - 1].assets, symbol);
    }
  }

  lemma {:induction false} AssetsAreSummed(assets: seq<Asset>, symbol: string)
    ensures HeldInAssets(assets, symbol)
         == SumOf(assets, (a: Asset) => if a.stablecoin == symbol then a.buyingPower else 0)
  {
    if assets != [] {
      AssetsAreSummed(assets[..|assets| - 1], symbol);
    }
  }

  // ---------------------------------------------------------------------------------------------
  // The least conversion
  // ---------------------------------------------------------------------------------------------

  predicate Distinct(symbols: seq<string>) {
    forall i, j :: 0 <= i < j < |symbols| ==> symbols[i] != symbols[j]
  }

  /** Buys of each listed stablecoin what it lacks. */
  function Purchases(symbols: seq<string>, lacking: string -> int): seq<Purchase>
    requires forall symbol :: 0 <= lacking(symbol)
  {
    if symbols == [] then []
    else
      var last := symbols[|symbols| - 1];
      Purchases(symbols[..|symbols| - 1], lacking) + [Purchase(last, lacking(last))]
  }

  lemma {:induction false} PurchasesMeaning(symbols: seq<string>, lacking: string -> int, symbol: string)
    requires Distinct(symbols) && forall s :: 0 <= lacking(s)
    ensures Spent(Purchases(symbols, lacking)) == SumOf(symbols, lacking)
    ensures Bought(Purchases(symbols, lacking), symbol) == if symbol in symbols then lacking(symbol) else 0
  {
    if symbols != [] {
      var n := |symbols| - 1;
      PurchasesMeaning(symbols[..n], lacking, symbol);
      var rest := Purchases(symbols[..n], lacking);
      assert (rest + [Purchase(symbols[n], lacking(symbols[n]))])[..|rest|] == rest;
      assert symbols == symbols[..n] + [symbols[n]];
    }
  }

  function BoughtAcross(symbols: seq<string>, purchases: seq<Purchase>): int {
    if symbols == [] then 0
    else BoughtAcross(symbols[..|symbols| - 1], purchases) + Bought(purchases, symbols[|symbols| - 1])
  }

  /** Of distinct stablecoins no more is bought in all than is spent. */
  lemma {:induction false} BoughtWithinSpent(symbols: seq<string>, purchases: seq<Purchase>)
    requires Distinct(symbols)
    ensures BoughtAcross(symbols, purchases) <= Spent(purchases)
  {
    hide Distinct, BoughtAcross;
    if purchases == [] {
      NothingBought(symbols);
    } else {
      BoughtWithinSpent(symbols, purchases[..|purchases| - 1]);
      OneBought(symbols, purchases);
    }
  }

  lemma {:induction false} NothingBought(symbols: seq<string>)
    ensures BoughtAcross(symbols, []) == 0
  {
    if symbols != [] {
      NothingBought(symbols[..|symbols| - 1]);
    }
  }

  lemma {:induction false} OneBought(symbols: seq<string>, purchases: seq<Purchase>)
    requires Distinct(symbols) && purchases != []
    ensures var last := purchases[|purchases| - 1];
      BoughtAcross(symbols, purchases)
      == BoughtAcross(symbols, purchases[..|purchases| - 1]) + if last.symbol in symbols then last.amount else 0
  {
    if symbols != [] {
      var n := |symbols| - 1;
      OneBought(symbols[..n], purchases);
      assert symbols == symbols[..n] + [symbols[n]];
    }
  }

  function Lacking(p: Portfolio, positions: seq<Position>, e: Ecosystem, symbol: string): nat {
    var demand, supply := Demand(positions, e, symbol), Supply(p.wallets, e, symbol);
    if supply < demand then demand - supply else 0
  }

  lemma {:induction false} ShortfallIsLacking(
    p: Portfolio, positions: seq<Position>, e: Ecosystem, symbols: seq<string>, lacking: string -> int)
    requires NonNegativeAmounts(positions)
    requires forall symbol :: lacking(symbol) == Lacking(p, positions, e, symbol)
    ensures Shortfall(p.wallets, Here(positions, e), e, symbols) == SumOf(symbols, lacking)
  {
    hide Here, Demand, Supply, NonNegativeAmounts;
    if symbols != [] {
      var n := |symbols| - 1;
      ShortfallIsLacking(p, positions, e, symbols[..n], lacking);
      NeededIsDemand(positions, e, symbols[n]);
      HeldIsSupply(p.wallets, e, symbols[n]);
    }
  }

  lemma {:induction false} LackingIsBought(
    p: Portfolio, positions: seq<Position>, e: Ecosystem, symbols: seq<string>, lacking: string -> int,
    purchases: seq<Purchase>)
    requires Suffice(p, positions, e, purchases)
    requires forall symbol :: lacking(symbol) == Lacking(p, positions, e, symbol)
    ensures SumOf(symbols, lacking) <= BoughtAcross(symbols, purchases)
  {
    hide Demand, Supply, Bought;
    if symbols != [] {
      var n := |symbols| - 1;
      LackingIsBought(p, positions, e, symbols[..n], lacking, purchases);
      BoughtNonNegative(purchases, symbols[n]);
    }
  }

  lemma {:induction false} BoughtNonNegative(purchases: seq<Purchase>, symbol: string)
    ensures 0 <= Bought(purchases, symbol)
  {
    if purchases != [] {
      BoughtNonNegative(purchases[..|purchases| - 1], symbol);
    }
  }

  /** The listed symbols are distinct, and nothing is needed of any other. */
  lemma {:induction false} SymbolsMeaning(positions: seq<Position>, symbol: string)
    ensures Distinct(Symbols(positions))
    ensures symbol !in Symbols(positions) ==> Needed(positions, symbol) == 0
  {
    if positions != [] {
      SymbolsMeaning(positions[..|positions| - 1], symbol);
    }
  }

  lemma {:induction false} SupplyNonNegative(wallets: seq<Wallet>, e: Ecosystem, symbol: string)
    ensures 0 <= Supply(wallets, e, symbol)
  {
    HeldIsSupply(wallets, e, symbol);
  }

  /** The amount the conversion cost is taken of is the least total that, bought, covers what the wallets lack. */
  lemma ConversionIsLeast(p: Portfolio, positions: seq<Position>, e: Ecosystem)
    requires NonNegativeAmounts(positions)
    ensures LeastConversion(p, positions, e, RequiredConversion(p, Here(positions, e), e))
  {
    hide Here, Demand, Supply, Bought, Spent, Purchases, NonNegativeAmounts, Suffice, Distinct;
    var symbols := Symbols(Here(positions, e));
    var lacking := (symbol: string) => Lacking(p, positions, e, symbol);
    SymbolsMeaning(Here(positions, e), "");
    ShortfallIsLacking(p, positions, e, symbols, lacking);
    PurchasesMeaning(symbols, lacking, "");
    PurchasesSuffice(p, positions, e, lacking);
    forall purchases | Suffice(p, positions, e, purchases) ensures SumOf(symbols, lacking) <= Spent(purchases) {
      LackingIsBought(p, positions, e, symbols, lacking, purchases);
      BoughtWithinSpent(symbols, purchases);
    }
  }

  lemma PurchasesSuffice(p: Portfolio, positions: seq<Position>, e: Ecosystem, lacking: string -> int)
    requires NonNegativeAmounts(positions) && forall symbol :: 0 <= lacking(symbol)
    requires forall symbol :: lacking(symbol) == Lacking(p, positions, e, symbol)
    ensures Suffice(p, positions, e, Purchases(Symbols(Here(positions, e)), lacking))
  {
    hide Here, Demand, Supply, Bought, Purchases, NonNegativeAmounts, Distinct, Needed, Symbols;
    var symbols := Symbols(Here(positions, e));
    forall symbol
      ensures Demand(positions, e, symbol) <= Supply(p.wallets, e, symbol) + Bought(Purchases(symbols, lacking), symbol)
    {
      SymbolsMeaning(Here(positions, e), symbol);
      PurchasesMeaning(symbols, lacking, symbol);
      NeededIsDemand(positions, e, symbol);
      SupplyNonNegative(p.wallets, e, symbol);
    }
  }

  // ---------------------------------------------------------------------------------------------
  // The platform fee, and the whole cost
  // ---------------------------------------------------------------------------------------------

  /** What the platform fee must be: nothing for a direct settlement, otherwise 20 basis points, half to even. */
  predicate PlatformFeeOf(kind: Classification, managedCapital: int, fee: int) {
    if kind == DIRECT_COMPATIBLE then fee == 0 else RoutingFee.NearestTiesToEven(managedCapital * 20, 10_000, fee)
  }

  lemma PlatformFeeMeaning(classify: seq<Position> -> RouteAnswer, active: seq<Position>, managedCapital: int)
    ensures var r, answer := PlatformFee(classify, active, managedCapital), classify(active);
      if managedCapital <= 0 || active == [] || answer == NoFundedSource then r == Err(NoMatchingOpportunities)
      else if answer == Rejected then r == Err(RouteRejected)
      else if 0xffff_ffff_ffff_ffff_ffff_ffff_ffff_ffff_ffff_ffff_ffff_ffff_ffff_ffff_ffff_ffff < managedCapital
      then r == Err(NumericLimitExceeded)
      else r.Ok? && r.value.1 == answer.kind && PlatformFeeOf(answer.kind, managedCapital, r.value.0)
  {
    hide RoutingFee.RoundRatio, RoutingFee.LendingRoutingFee;
    if 0 < managedCapital {
      RoutingFee.LendingFeeMatchesRoutingRule(managedCapital, 0);
      RoutingFee.LendingFeeMatchesRoutingRule(managedCapital, 20);
      ZeroIsNearest(RoutingFee.LendingRoutingFee(managedCapital, 0).value);
    }
  }

  lemma ZeroIsNearest(fee: int)
    ensures RoutingFee.NearestTiesToEven(0, 10_000, fee) ==> fee == 0
  {
  }

  /** Active positions are the positive ones, in their order. */
  lemma {:induction false} ActiveFilters(a: seq<Position>, b: seq<Position>, p: Position)
    ensures Active(a + b) == Active(a) + Active(b)
    ensures Active([p]) == if 0 < p.amount then [p] else []
  {
    assert [p][..0] == [];
    if b == [] {
      assert a + b == a;
    } else {
      var n := |b| - 1;
      assert (a + b)[..|a + b| - 1] == a + b[..n];
      ActiveFilters(a, b[..n], p);
    }
  }

  lemma {:induction false} ActiveTotal(positions: seq<Position>, e: Ecosystem)
    requires WithinMarket(positions)
    ensures TotalIn(Active(positions), e) == TotalIn(positions, e)
    ensures 0 <= TotalIn(positions, e)
  {
    hide Capacity;
    if positions != [] {
      var n := |positions| - 1;
      ActiveTotal(positions[..n], e);
      var last := if 0 < positions[n].amount then [positions[n]] else [];
      assert Active(positions) == Active(positions[..n]) + last;
      TotalInAppend(Active(positions[..n]), last, e);
      assert last != [] ==> last[..0] == [];
    }
  }

  /** The split of a fee over the two ecosystems' managed capital: nearest for EVM, the rest for SOLANA. */
  lemma FeeSplit(fee: nat, evm: int, solana: int)
    requires 0 <= evm && 0 <= solana && 0 < evm + solana
    ensures var r, all := ByAmounts(fee, [evm, solana]), evm + solana;
      && r.Ok?
      && 0 <= r.value[0] && 0 <= r.value[1] && r.value[0] + r.value[1] == fee
      && -all < 2 * (r.value[0] * all - fee * evm) <= all
      && (evm == 0 ==> r.value[0] == 0) && (solana == 0 ==> r.value[1] == 0)
  {
    hide Apportion;
    SumPair(evm, solana);
    PairIsNearest(fee, evm, solana);
  }

  /** Everything a plan of costs says about the positions it was modelled for. */
  ghost predicate Modeled(
    p: Portfolio, classify: seq<Position> -> RouteAnswer, positions: seq<Position>, plan: CostPlan)
  {
    var c, evm, solana := plan.costs, TotalIn(positions, EVM), TotalIn(positions, SOLANA);
    var fee, all := c.evm.platformRouting + c.solana.platformRouting, evm + solana;
    && NonNegativeCost(c.evm) && NonNegativeCost(c.solana)
    && Charged(p, positions, EVM, c.evm) && Charged(p, positions, SOLANA, c.solana)
    && classify(Active(positions)) == Classified(plan.classification)
    && PlatformFeeOf(plan.classification, all, fee)
    && -all < 2 * (c.evm.platformRouting * all - fee * evm) <= all
    && (evm == 0 ==> c.evm.platformRouting == 0) && (solana == 0 ==> c.solana.platformRouting == 0)
  }

  lemma CostInIsCharged(p: Portfolio, positions: seq<Position>, e: Ecosystem, platformRouting: int)
    requires NonNegativeAmounts(positions)
    ensures Charged(p, positions, e, CostIn(p, Active(positions), e, platformRouting))
  {
    hide Networks, Uses, NetworkVolume, VolumeCents, MarketImpact, ImpactCents, RequiredConversion, LeastConversion,
         NonNegativeAmounts, Active, ActiveIn, PercentageCost, LeastCents;
    var here := Here(positions, e);
    NetworksAreUsed(positions, e, ETHEREUM);
    NetworksAreUsed(positions, e, BNB_CHAIN);
    NetworksAreUsed(positions, e, BASE);
    NetworksAreUsed(positions, e, SOLANA_MAINNET);
    VolumeIsCharged(positions, e);
    ImpactIsCharged(positions, e);
    ConversionIsLeast(p, positions, e);
    PercentageIsLeast(RequiredConversion(p, here, e), 12);
  }

  lemma MarketAmounts(positions: seq<Position>)
    requires WithinMarket(positions)
    ensures NonNegativeAmounts(positions)
  {
  }

  /**
   Modelling the costs never trips an arithmetic guard. It fails only without capital, on the classifier's word, or on
   capital beyond 256 bits, and what it returns is charged position by position and network by network.
   */
  lemma ModeledCostsMeaning(p: Portfolio, classify: seq<Position> -> RouteAnswer, positions: seq<Position>)
    requires WithinMarket(positions)
    ensures var r, answer := ModeledCosts(p, classify, positions), classify(Active(positions));
      var all := TotalIn(positions, EVM) + TotalIn(positions, SOLANA);
      if all == 0 || answer == NoFundedSource then r == Err(NoMatchingOpportunities)
      else if answer == Rejected then r == Err(RouteRejected)
      else if 0xffff_ffff_ffff_ffff_ffff_ffff_ffff_ffff_ffff_ffff_ffff_ffff_ffff_ffff_ffff_ffff < all
      then r == Err(NumericLimitExceeded)
      else r.Ok? && Modeled(p, classify, positions, r.value)
  {
    hide ByAmounts, PlatformFee, PlatformFeeOf, CostIn, Charged, NonNegativeCost, Active, TotalIn, WithinMarket;
    ActiveTotal(positions, EVM);
    ActiveTotal(positions, SOLANA);
    MarketAmounts(positions);
    var evm, solana := TotalIn(positions, EVM), TotalIn(positions, SOLANA);
    PlatformFeeMeaning(classify, Active(positions), evm + solana);
    var fee := PlatformFee(classify, Active(positions), evm + solana);
    NoActiveCapital(Active(positions));
    if fee.Ok? {
      FeeSplit(fee.value.0, evm, solana);
      var shares := ByAmounts(fee.value.0, [evm, solana]).value;
      CostInIsCharged(p, positions, EVM, shares[0]);
      CostInIsCharged(p, positions, SOLANA, shares[1]);
    }
  }

  lemma NoActiveCapital(active: seq<Position>)
    ensures active == [] ==> TotalIn(active, EVM) + TotalIn(active, SOLANA) == 0
  {
  }
}
