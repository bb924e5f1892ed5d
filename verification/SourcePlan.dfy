/** The plan of one bridge transfer: which plans can be created, and what every created plan satisfies. */
module SourcePlan {
  import opened FixedWidth
  import opened RoutingFee
  import opened TextForms
  import opened Wrappers

  datatype Network = ETHEREUM | SOLANA

  function NetworkId(n: Network): string {
    match n
    case ETHEREUM => "eip155:1"
    case SOLANA => "solana:5eykt4UsFv8P8NJdTREpY1vzqKqZKvdp"
  }

  function UsdcAsset(n: Network): string {
    match n
    case ETHEREUM => "0xA0b86991c6218b36c1d19D4a2e9Eb0cE3606eB48"
    case SOLANA => "EPjFWdd5AufqSSqeM2qN1xzybapC8G4wEGGkZwyTDt1v"
  }

  function NetworkOf(id: string): Option<Network> {
    if id == NetworkId(ETHEREUM) then Some(ETHEREUM)
    else if id == NetworkId(SOLANA) then Some(SOLANA)
    else None
  }

  lemma NetworkIdsTellApart(n: Network, id: string)
    ensures NetworkOf(id) == Some(n) <==> id == NetworkId(n)
  {
    assert |NetworkId(ETHEREUM)| != |NetworkId(SOLANA)|;
  }

  function Opposite(n: Network): Network {
    if n == ETHEREUM then SOLANA else ETHEREUM
  }

  const MAX_U64: nat := 0xffff_ffff_ffff_ffff

  /**
   What the address libraries answer. `normalEthereum` is the checksummed form, or nothing for a malformed or
   zero address; `isSolana` says whether a text is the base58 form of a key, on the curve where it has to sign.
   */
  datatype Accounts = Accounts(
    normalEthereum: string -> Option<string>,
    isSolana: (string, bool) -> bool,
    ethereumBytes: string -> Bytes32,
    solanaBytes: string -> Bytes32,
    usdcAccount: string -> Bytes32)

  /** The checksummed form of an address is its own checksummed form. */
  ghost predicate Idempotent(a: Accounts) {
    forall x :: a.normalEthereum(x).Some? ==>
                a.normalEthereum(a.normalEthereum(x).value) == a.normalEthereum(x)
  }

  datatype SourceError =
    | UnsupportedSourceChain
    | InvalidFeeTier
    | InvalidAmountOrTime
    | InvalidBridgeLimits
    | AmountOverflow
    | InvalidEthereumAddress
    | InvalidSolanaAddress
    | TreasuryEqualsSourceWallet
    | InvalidIntentId
    | InvalidStoredNetwork
    | InvalidStoredFee
    | InvalidStoredInteger
    | StoredPlanMismatch

  datatype Treasuries = Treasuries(ethereum: string, solana: string)

  datatype Tier = FREE | INDIVIDUAL | PRO | Unlisted(name: string)

  datatype PlanInput = PlanInput(
    sourceNetwork: string,
    sourceWallet: string,
    destinationWallet: string,
    principal: int,
    maxBridgeFee: int,
    minimumDestinationAmount: int,
    tier: Option<Tier>,
    treasuries: Treasuries,
    nowSeconds: int,
    deadline: int,
    intentId: Option<string>)

  datatype SourceBridgePlan = SourceBridgePlan(
    intentId: string,
    sourceNetwork: Network,
    destinationNetwork: Network,
    sourceWallet: string,
    destinationWallet: string,
    sourceAsset: string,
    treasury: string,
    mintRecipient: string,
    principal: nat,
    platformFee: nat,
    totalSourceDebit: nat,
    maxBridgeFee: nat,
    minimumDestinationAmount: nat,
    feeBps: nat,
    deadline: nat)

  function BasisPoints(tier: Tier): Option<nat> {
    match tier
    case FREE => Some(20)
    case INDIVIDUAL => Some(12)
    case PRO => Some(8)
    case Unlisted(_) => None
  }

  predicate IsU64(n: int) {
    0 <= n <= MAX_U64
  }

  predicate AmountsInRange(input: PlanInput) {
    && IsU64(input.principal) && IsU64(input.maxBridgeFee) && IsU64(input.minimumDestinationAmount)
    && IsU64(input.nowSeconds) && IsU64(input.deadline)
  }

  predicate BreaksLimits(input: PlanInput) {
    || input.principal == 0
    || input.maxBridgeFee >= input.principal
    || input.minimumDestinationAmount == 0
    || input.minimumDestinationAmount > input.principal - input.maxBridgeFee
    || input.deadline <= input.nowSeconds
    || input.deadline > input.nowSeconds + 300
  }

  /** The fee the routing rule gives at this rate; it never meets that rule's numeric limit. */
  function PlatformFee(principal: nat, basisPoints: nat): (fee: nat)
    requires principal <= MAX_U64 && basisPoints <= 10_000
    ensures FeeAtomicAmount(principal, basisPoints) == Ok(fee) && fee <= principal
  {
    LendingFeeMatchesRoutingRule(principal, basisPoints);
    FeeAtomicAmount(principal, basisPoints).value
  }

  function Address(a: Accounts, network: Network, value: string, signer: bool): Result<string, SourceError> {
    match network
    case ETHEREUM =>
      (match a.normalEthereum(value)
       case None => Err(InvalidEthereumAddress)
       case Some(normal) => Ok(normal))
    case SOLANA => if a.isSolana(value, signer) then Ok(value) else Err(InvalidSolanaAddress)
  }

  function TreasuryOn(t: Treasuries, network: Network): string {
    if network == ETHEREUM then t.ethereum else t.solana
  }

  function MintRecipient(a: Accounts, destination: Network, wallet: string): string {
    HexText(if destination == SOLANA then a.usdcAccount(wallet) else a.ethereumBytes(wallet))
  }

  /** 32 bytes in lower-case hexadecimal, not all zero. */
  predicate IsIntentId(id: string) {
    IsHex32(id) && exists i :: 2 <= i < 66 && id[i] != '0'
  }

  /** `drawn` is the identifier drawn at random for an input that brings none. */
  function CreatePlan(a: Accounts, input: PlanInput, drawn: string): Result<SourceBridgePlan, SourceError> {
    match NetworkOf(input.sourceNetwork)
    case None => Err(UnsupportedSourceChain)
    case Some(network) =>
      match BasisPoints(if input.tier.Some? then input.tier.value else FREE)
      case None => Err(InvalidFeeTier)
      case Some(feeBps) =>
        if !AmountsInRange(input) then Err(InvalidAmountOrTime)
        else if BreaksLimits(input) then Err(InvalidBridgeLimits)
        else if input.principal + PlatformFee(input.principal, feeBps) > MAX_U64 then Err(AmountOverflow)
        else Assemble(a, input, drawn, network, feeBps)
  }

  function Assemble(a: Accounts, input: PlanInput, drawn: string, network: Network, feeBps: nat)
    : Result<SourceBridgePlan, SourceError>
    requires AmountsInRange(input) && feeBps <= 10_000
  {
    var source := Address(a, network, input.sourceWallet, true);
    var destination := Address(a, Opposite(network), input.destinationWallet, true);
    var treasury := Address(a, network, TreasuryOn(input.treasuries, network), false);
    var intentId := if input.intentId.Some? then input.intentId.value else drawn;
    if source.Err? then Err(source.error)
    else if destination.Err? then Err(destination.error)
    else if treasury.Err? then Err(treasury.error)
    else if treasury.value == source.value then Err(TreasuryEqualsSourceWallet)
    else if !IsIntentId(intentId) then Err(InvalidIntentId)
    else
      var fee := PlatformFee(input.principal, feeBps);
      Ok(SourceBridgePlan(
           intentId, network, Opposite(network), source.value, destination.value, UsdcAsset(network), treasury.value,
           MintRecipient(a, Opposite(network), destination.value), input.principal, fee, input.principal + fee,
           input.maxBridgeFee, input.minimumDestinationAmount, feeBps, input.deadline))
  }

  // ---------------------------------------------------------------------------------------------
  // Which plans can be created
  // ---------------------------------------------------------------------------------------------

  predicate ValidParties(a: Accounts, plan: SourceBridgePlan) {
    && plan.destinationNetwork == Opposite(plan.sourceNetwork)
    && Address(a, plan.sourceNetwork, plan.sourceWallet, true) == Ok(plan.sourceWallet)
    && Address(a, plan.destinationNetwork, plan.destinationWallet, true) == Ok(plan.destinationWallet)
    && Address(a, plan.sourceNetwork, plan.treasury, false) == Ok(plan.treasury)
    && plan.treasury != plan.sourceWallet
    && plan.sourceAsset == UsdcAsset(plan.sourceNetwork)
    && plan.mintRecipient == MintRecipient(a, plan.destinationNetwork, plan.destinationWallet)
    && IsIntentId(plan.intentId)
  }

  predicate ValidAmounts(plan: SourceBridgePlan) {
    && 0 < plan.minimumDestinationAmount <= plan.principal - plan.maxBridgeFee
    && plan.feeBps in {20, 12, 8}
    && NearestTiesToEven(plan.principal * plan.feeBps, RATE_DENOMINATOR, plan.platformFee)
    && plan.totalSourceDebit == plan.principal + plan.platformFee <= MAX_U64
    && 0 < plan.deadline <= MAX_U64
  }

  predicate ValidPlan(a: Accounts, plan: SourceBridgePlan) {
    ValidParties(a, plan) && ValidAmounts(plan)
  }

  /** An input that leads to `plan`: the plan's own fields beside a clock and the treasuries it was made with. */
  function InputFor(plan: SourceBridgePlan, treasuries: Treasuries, nowSeconds: int): PlanInput {
    var tier := if plan.feeBps == 20 then FREE else if plan.feeBps == 12 then INDIVIDUAL else PRO;
    PlanInput(
      NetworkId(plan.sourceNetwork), plan.sourceWallet, plan.destinationWallet, plan.principal, plan.maxBridgeFee,
      plan.minimumDestinationAmount, Some(tier), treasuries, nowSeconds, plan.deadline, Some(plan.intentId))
  }

  /** The treasuries the plan's own treasury comes from. */
  predicate FromTreasuries(a: Accounts, plan: SourceBridgePlan, t: Treasuries) {
    Address(a, plan.sourceNetwork, TreasuryOn(t, plan.sourceNetwork), false) == Ok(plan.treasury)
  }

  lemma CreatedIsValid(a: Accounts, input: PlanInput, drawn: string)
    requires Idempotent(a)
    ensures CreatePlan(a, input, drawn).Ok? ==>
              var plan := CreatePlan(a, input, drawn).value;
              && ValidPlan(a, plan) && FromTreasuries(a, plan, input.treasuries)
              && 0 <= input.nowSeconds < plan.deadline <= input.nowSeconds + 300
  {
    hide NetworkId, UsdcAsset, IsIntentId, MintRecipient, FeeAtomicAmount, NearestTiesToEven;
    if CreatePlan(a, input, drawn).Ok? {
      var plan := CreatePlan(a, input, drawn).value;
      FeeMeaning(plan.principal, plan.feeBps);
    }
  }

  lemma FeeMeaning(principal: nat, basisPoints: nat)
    requires principal <= MAX_U64 && basisPoints <= 10_000
    ensures forall fee: nat ::
              fee == PlatformFee(principal, basisPoints) <==>
              NearestTiesToEven(principal * basisPoints, RATE_DENOMINATOR, fee)
  {
    forall fee: nat
      ensures fee == PlatformFee(principal, basisPoints) <==>
              NearestTiesToEven(principal * basisPoints, RATE_DENOMINATOR, fee)
    {
      HalfEvenIsNearest(principal * basisPoints, RATE_DENOMINATOR, fee);
    }
  }

  lemma Recreated(a: Accounts, plan: SourceBridgePlan, t: Treasuries, nowSeconds: int, drawn: string)
    requires ValidPlan(a, plan) && FromTreasuries(a, plan, t)
    requires 0 <= nowSeconds < plan.deadline <= nowSeconds + 300
    ensures CreatePlan(a, InputFor(plan, t, nowSeconds), drawn) == Ok(plan)
  {
    hide NetworkId, UsdcAsset, IsIntentId, MintRecipient, FeeAtomicAmount, NearestTiesToEven, NetworkOf;
    NetworkIdsTellApart(plan.sourceNetwork, NetworkId(plan.sourceNetwork));
    FeeMeaning(plan.principal, plan.feeBps);
  }

  /** A plan can be created exactly when its parties are valid addresses and its amounts keep every limit. */
  lemma CreatedExactly(a: Accounts, plan: SourceBridgePlan)
    requires Idempotent(a)
    ensures (exists input, drawn :: CreatePlan(a, input, drawn) == Ok(plan)) <==> ValidPlan(a, plan)
  {
    hide CreatePlan, ValidParties;
    if input, drawn :| CreatePlan(a, input, drawn) == Ok(plan) {
      CreatedIsValid(a, input, drawn);
    }
    if ValidPlan(a, plan) {
      OwnTreasury(a, plan);
      Recreated(a, plan, Treasuries(plan.treasury, plan.treasury), plan.deadline - 1, "");
    }
  }

  lemma OwnTreasury(a: Accounts, plan: SourceBridgePlan)
    requires ValidParties(a, plan)
    ensures FromTreasuries(a, plan, Treasuries(plan.treasury, plan.treasury))
  {
  }

  // ---------------------------------------------------------------------------------------------
  // What an input leads to, field by field
  // ---------------------------------------------------------------------------------------------

  /** From Ethereum: checksummed sender and treasury, a Solana key that can sign, and that key's USDC account. */
  predicate LeavesEthereum(a: Accounts, input: PlanInput, plan: SourceBridgePlan) {
    && plan.sourceNetwork == ETHEREUM && plan.destinationNetwork == SOLANA
    && a.normalEthereum(input.sourceWallet) == Some(plan.sourceWallet)
    && a.normalEthereum(input.treasuries.ethereum) == Some(plan.treasury)
    && plan.destinationWallet == input.destinationWallet && a.isSolana(input.destinationWallet, true)
    && plan.sourceAsset == "0xA0b86991c6218b36c1d19D4a2e9Eb0cE3606eB48"
    && plan.mintRecipient == HexText(a.usdcAccount(plan.destinationWallet))
  }

  /** From Solana: a sender that can sign, any key as treasury, and a checksummed Ethereum address as recipient. */
  predicate LeavesSolana(a: Accounts, input: PlanInput, plan: SourceBridgePlan) {
    && plan.sourceNetwork == SOLANA && plan.destinationNetwork == ETHEREUM
    && plan.sourceWallet == input.sourceWallet && a.isSolana(input.sourceWallet, true)
    && plan.treasury == input.treasuries.solana && a.isSolana(input.treasuries.solana, false)
    && a.normalEthereum(input.destinationWallet) == Some(plan.destinationWallet)
    && plan.sourceAsset == "EPjFWdd5AufqSSqeM2qN1xzybapC8G4wEGGkZwyTDt1v"
    && plan.mintRecipient == HexText(a.ethereumBytes(plan.destinationWallet))
  }

  /** Twenty basis points unless a tier says otherwise. */
  predicate Rate(tier: Option<Tier>, feeBps: nat) {
    match tier
    case None => feeBps == 20
    case Some(FREE) => feeBps == 20
    case Some(INDIVIDUAL) => feeBps == 12
    case Some(PRO) => feeBps == 8
    case Some(Unlisted(_)) => false
  }

  /** Every field of a created plan, and every limit its input keeps. */
  predicate MadeFrom(a: Accounts, input: PlanInput, drawn: string, plan: SourceBridgePlan) {
    && (if input.sourceNetwork == "eip155:1" then LeavesEthereum(a, input, plan)
        else input.sourceNetwork == "solana:5eykt4UsFv8P8NJdTREpY1vzqKqZKvdp" && LeavesSolana(a, input, plan))
    && plan.treasury != plan.sourceWallet
    && plan.intentId == (if input.intentId.Some? then input.intentId.value else drawn)
    && IsHex32(plan.intentId) && (exists i :: 2 <= i < 66 && plan.intentId[i] != '0')
    && Rate(input.tier, plan.feeBps)
    && 0 < plan.principal == input.principal
    && NearestTiesToEven(plan.principal * plan.feeBps, 10_000, plan.platformFee)
    && plan.totalSourceDebit == plan.principal + plan.platformFee <= 0xffff_ffff_ffff_ffff
    && plan.maxBridgeFee == input.maxBridgeFee && plan.minimumDestinationAmount == input.minimumDestinationAmount
    && 0 < plan.minimumDestinationAmount <= plan.principal - plan.maxBridgeFee
    && plan.deadline == input.deadline
    && 0 <= input.nowSeconds < plan.deadline <= input.nowSeconds + 300 && plan.deadline <= 0xffff_ffff_ffff_ffff
  }

  lemma NetworkOfExactly(id: string)
    ensures NetworkOf(id) == if id == "eip155:1" then Some(ETHEREUM)
                             else if id == "solana:5eykt4UsFv8P8NJdTREpY1vzqKqZKvdp" then Some(SOLANA) else None
  {
  }

  lemma AssembledExactly(
    a: Accounts, input: PlanInput, drawn: string, network: Network, feeBps: nat, plan: SourceBridgePlan)
    requires AmountsInRange(input) && feeBps <= 10_000
    ensures Assemble(a, input, drawn, network, feeBps) == Ok(plan) <==>
      && (if network == ETHEREUM then LeavesEthereum(a, input, plan) else LeavesSolana(a, input, plan))
      && plan.treasury != plan.sourceWallet
      && plan.intentId == (if input.intentId.Some? then input.intentId.value else drawn)
      && IsHex32(plan.intentId) && (exists i :: 2 <= i < 66 && plan.intentId[i] != '0')
      && plan.feeBps == feeBps && plan.principal == input.principal
      && plan.platformFee == PlatformFee(input.principal, feeBps)
      && plan.totalSourceDebit == plan.principal + plan.platformFee
      && plan.maxBridgeFee == input.maxBridgeFee && plan.minimumDestinationAmount == input.minimumDestinationAmount
      && plan.deadline == input.deadline
  {
    hide PlatformFee, HexText, IsHex32, IsIntentId;
    IntentIdExactly(if input.intentId.Some? then input.intentId.value else drawn);
  }

  lemma IntentIdExactly(id: string)
    ensures IsIntentId(id) <==> IsHex32(id) && exists i :: 2 <= i < 66 && id[i] != '0'
  {
  }

  /** Creating yields a plan exactly when there is one with these fields within these limits, and yields that one. */
  lemma CreationExactly(a: Accounts, input: PlanInput, drawn: string, plan: SourceBridgePlan)
    ensures CreatePlan(a, input, drawn) == Ok(plan) <==> MadeFrom(a, input, drawn, plan)
  {
    hide NetworkOf, NearestTiesToEven, IsHex32, Assemble, LeavesEthereum, LeavesSolana;
    NetworkOfExactly(input.sourceNetwork);
    var network := NetworkOf(input.sourceNetwork);
    var rate := BasisPoints(if input.tier.Some? then input.tier.value else FREE);
    if network.Some? && rate.Some? && AmountsInRange(input) {
      AssembledExactly(a, input, drawn, network.value, rate.value, plan);
      FeeMeaning(input.principal, rate.value);
    }
  }

  /** The first thing wrong with the parties of a transfer that makes no plan. */
  function PartyRefusal(a: Accounts, input: PlanInput, ethereum: bool): SourceError {
    if ethereum && a.normalEthereum(input.sourceWallet).None? then InvalidEthereumAddress
    else if ethereum && !a.isSolana(input.destinationWallet, true) then InvalidSolanaAddress
    else if ethereum && a.normalEthereum(input.treasuries.ethereum).None? then InvalidEthereumAddress
    else if !ethereum && !a.isSolana(input.sourceWallet, true) then InvalidSolanaAddress
    else if !ethereum && a.normalEthereum(input.destinationWallet).None? then InvalidEthereumAddress
    else if !ethereum && !a.isSolana(input.treasuries.solana, false) then InvalidSolanaAddress
    else if (if ethereum then a.normalEthereum(input.sourceWallet) == a.normalEthereum(input.treasuries.ethereum)
             else input.sourceWallet == input.treasuries.solana) then TreasuryEqualsSourceWallet
    else InvalidIntentId
  }

  /** Principal and fee together exceed 64 bits. */
  ghost predicate FeeOverflows(principal: int, rate: nat) {
    exists fee: nat :: NearestTiesToEven(principal * rate, 10_000, fee) && 0xffff_ffff_ffff_ffff < principal + fee
  }

  /** The first thing wrong with an input that makes no plan. */
  ghost function Refusal(a: Accounts, input: PlanInput): SourceError {
    var ethereum := input.sourceNetwork == "eip155:1";
    var numbers := [input.principal, input.maxBridgeFee, input.minimumDestinationAmount, input.nowSeconds, input.deadline];
    var rate := if Rate(input.tier, 12) then 12 else if Rate(input.tier, 8) then 8 else 20;
    if !ethereum && input.sourceNetwork != "solana:5eykt4UsFv8P8NJdTREpY1vzqKqZKvdp" then UnsupportedSourceChain
    else if input.tier.Some? && input.tier.value.Unlisted? then InvalidFeeTier
    else if exists i :: 0 <= i < 5 && !(0 <= numbers[i] <= 0xffff_ffff_ffff_ffff) then InvalidAmountOrTime
    else if input.principal == 0 || input.minimumDestinationAmount == 0
            || input.principal < input.maxBridgeFee + input.minimumDestinationAmount
            || !(input.nowSeconds < input.deadline <= input.nowSeconds + 300) then InvalidBridgeLimits
    else if FeeOverflows(input.principal, rate) then AmountOverflow
    else PartyRefusal(a, input, ethereum)
  }

  lemma PartyRefusedExactly(a: Accounts, input: PlanInput, drawn: string, network: Network, feeBps: nat)
    requires AmountsInRange(input) && feeBps <= 10_000
    ensures var r := Assemble(a, input, drawn, network, feeBps);
      r.Err? ==> r.error == PartyRefusal(a, input, network == ETHEREUM)
  {
    hide PlatformFee, HexText, IsIntentId;
  }

  lemma RangeExactly(input: PlanInput, numbers: seq<int>)
    requires numbers == [input.principal, input.maxBridgeFee, input.minimumDestinationAmount, input.nowSeconds, input.deadline]
    ensures AmountsInRange(input) <==> forall i :: 0 <= i < 5 ==> 0 <= numbers[i] <= 0xffff_ffff_ffff_ffff
  {
    assert numbers[0] == input.principal && numbers[1] == input.maxBridgeFee && numbers[2] == input.minimumDestinationAmount;
    assert numbers[3] == input.nowSeconds && numbers[4] == input.deadline;
  }

  /** How an input that makes no plan is refused: by the first thing wrong with it. */
  lemma RefusedExactly(a: Accounts, input: PlanInput, drawn: string)
    ensures CreatePlan(a, input, drawn).Err? ==> CreatePlan(a, input, drawn).error == Refusal(a, input)
  {
    hide NetworkOf, Assemble, PartyRefusal, FeeOverflows, PlatformFee, AmountsInRange;
    NetworkOfExactly(input.sourceNetwork);
    RangeExactly(input, [input.principal, input.maxBridgeFee, input.minimumDestinationAmount, input.nowSeconds, input.deadline]);
    var network := NetworkOf(input.sourceNetwork);
    var rate := BasisPoints(if input.tier.Some? then input.tier.value else FREE);
    if network.Some? && rate.Some? && AmountsInRange(input) {
      InRange(input);
      NearestOverflows(input.principal, rate.value);
      PartyRefusedExactly(a, input, drawn, network.value, rate.value);
    }
  }

  lemma InRange(input: PlanInput)
    requires AmountsInRange(input)
    ensures 0 <= input.principal <= MAX_U64 && 0 <= input.maxBridgeFee && 0 <= input.minimumDestinationAmount
  {
  }

  lemma NearestOverflows(principal: nat, rate: nat)
    requires principal <= MAX_U64 && rate <= 10_000
    ensures FeeOverflows(principal, rate) <==> MAX_U64 < principal + PlatformFee(principal, rate)
  {
    hide NearestTiesToEven, PlatformFee;
    FeeMeaning(principal, rate);
    var due := PlatformFee(principal, rate);
    assert NearestTiesToEven(principal * rate, 10_000, due);
    if fee: nat :| NearestTiesToEven(principal * rate, 10_000, fee) && MAX_U64 < principal + fee {
      NearestUnique(principal * rate, 10_000, fee, due);
    }
  }
}
