/** Saving a plan as a flat record and restoring it after a restart. */
module PlanStorage {
  import opened FixedWidth
  import opened RoutingFee
  import opened Sequences
  import opened SourcePlan
  import opened TextForms
  import opened Wrappers

  datatype Stored = Text(text: string) | Number(number: int)

  /** The property names of a plan, and any other name a saved record may carry. */
  datatype Key =
    | IntentId | SourceNetwork | DestinationNetwork | SourceWallet | DestinationWallet | SourceAsset | Treasury
    | MintRecipient | Principal | PlatformFee | TotalSourceDebit | MaxBridgeFee | MinimumDestinationAmount | FeeBps
    | Deadline | Other(name: string)

  type Record = map<Key, Stored>

  function Serialize(plan: SourceBridgePlan): Record {
    map[
      IntentId := Text(plan.intentId),
      SourceNetwork := Text(NetworkId(plan.sourceNetwork)),
      DestinationNetwork := Text(NetworkId(plan.destinationNetwork)),
      SourceWallet := Text(plan.sourceWallet),
      DestinationWallet := Text(plan.destinationWallet),
      SourceAsset := Text(plan.sourceAsset),
      Treasury := Text(plan.treasury),
      MintRecipient := Text(plan.mintRecipient),
      Principal := Text(Decimal(plan.principal)),
      PlatformFee := Text(Decimal(plan.platformFee)),
      TotalSourceDebit := Text(Decimal(plan.totalSourceDebit)),
      MaxBridgeFee := Text(Decimal(plan.maxBridgeFee)),
      MinimumDestinationAmount := Text(Decimal(plan.minimumDestinationAmount)),
      FeeBps := Number(plan.feeBps),
      Deadline := Text(Decimal(plan.deadline))
    ]
  }

  /** What a string conversion makes of a property. */
  function AsText(saved: Record, key: Key): string {
    if key !in saved then "undefined"
    else
      match saved[key]
      case Text(t) => t
      case Number(n) => if n < 0 then "-" + Decimal(-n) else Decimal(n)
  }

  /** The number a stored integer stands for; nothing for a property of another form. */
  function Integer(saved: Record, key: Key): Option<nat> {
    if key in saved && saved[key].Text? && IsStoredInteger(saved[key].text) then
      Some(ParseDecimal(saved[key].text))
    else None
  }

  function StoredNetwork(saved: Record): Option<Network> {
    if SourceNetwork in saved && saved[SourceNetwork].Text? then NetworkOf(saved[SourceNetwork].text) else None
  }

  function StoredTier(saved: Record): Option<Tier> {
    if FeeBps !in saved then None
    else if saved[FeeBps] == Number(20) then Some(FREE)
    else if saved[FeeBps] == Number(12) then Some(INDIVIDUAL)
    else if saved[FeeBps] == Number(8) then Some(PRO)
    else None
  }

  predicate HasIntegers(saved: Record) {
    && Integer(saved, Deadline).Some? && Integer(saved, Principal).Some?
    && Integer(saved, MaxBridgeFee).Some? && Integer(saved, MinimumDestinationAmount).Some?
  }

  function StoredInput(saved: Record, t: Treasuries): PlanInput
    requires HasIntegers(saved) && StoredNetwork(saved).Some?
  {
    var deadline := Integer(saved, Deadline).value;
    PlanInput(
      NetworkId(StoredNetwork(saved).value),
      AsText(saved, SourceWallet),
      AsText(saved, DestinationWallet),
      Integer(saved, Principal).value,
      Integer(saved, MaxBridgeFee).value,
      Integer(saved, MinimumDestinationAmount).value,
      StoredTier(saved),
      t,
      deadline - 300,
      deadline,
      if IntentId in saved then Some(AsText(saved, IntentId)) else None)
  }

  /** The saved record has as many properties as `record` and agrees with it on each of those. */
  predicate Agrees(saved: Record, record: Record) {
    |saved| == |record| && forall k | k in record :: k in saved && saved[k] == record[k]
  }

  function Restore(a: Accounts, saved: Record, t: Treasuries, drawn: string): Result<SourceBridgePlan, SourceError> {
    if StoredNetwork(saved).None? then Err(InvalidStoredNetwork)
    else if StoredTier(saved).None? then Err(InvalidStoredFee)
    else if !HasIntegers(saved) then Err(InvalidStoredInteger)
    else
      match CreatePlan(a, StoredInput(saved, t), drawn)
      case Err(e) => Err(e)
      case Ok(plan) => if Agrees(saved, Serialize(plan)) then Ok(plan) else Err(StoredPlanMismatch)
  }

  // ---------------------------------------------------------------------------------------------
  // Round trips
  // ---------------------------------------------------------------------------------------------

  lemma AgreesExactly(saved: Record, record: Record)
    ensures Agrees(saved, record) <==> saved == record
  {
    if Agrees(saved, record) {
      SubsetCardinality(record.Keys, saved.Keys);
      assert |record.Keys| == |record| && |saved.Keys| == |saved|;
    }
  }

  lemma StoredInteger(saved: Record, key: Key, n: nat)
    requires key in saved && saved[key] == Text(Decimal(n)) && n <= MAX_U64
    ensures Integer(saved, key) == Some(n)
  {
    DecimalReadsBack(n);
  }

  /** What is read off a saved plan is the input the plan would be created from again. */
  lemma StoredInputOfPlan(plan: SourceBridgePlan, t: Treasuries)
    requires ValidAmounts(plan)
    ensures var saved := Serialize(plan);
      && StoredNetwork(saved).Some? && StoredTier(saved).Some? && HasIntegers(saved)
      && StoredInput(saved, t) == InputFor(plan, t, plan.deadline - 300)
  {
    hide NetworkId, NetworkOf, Decimal, ParseDecimal, IsStoredInteger, NearestTiesToEven;
    var saved := Serialize(plan);
    NetworkIdsTellApart(plan.sourceNetwork, NetworkId(plan.sourceNetwork));
    StoredInteger(saved, Deadline, plan.deadline);
    StoredInteger(saved, Principal, plan.principal);
    StoredInteger(saved, MaxBridgeFee, plan.maxBridgeFee);
    StoredInteger(saved, MinimumDestinationAmount, plan.minimumDestinationAmount);
  }

  /**
   A created plan restores to itself, even after its deadline has passed; only a deadline below 300 is refused,
   because the clock it is re-created at would be negative.
   */
  lemma RestoresOwn(a: Accounts, plan: SourceBridgePlan, t: Treasuries, drawn: string)
    requires ValidPlan(a, plan) && FromTreasuries(a, plan, t)
    ensures Restore(a, Serialize(plan), t, drawn) ==
            if plan.deadline < 300 then Err(InvalidAmountOrTime) else Ok(plan)
  {
    hide NetworkId, NetworkOf, Serialize, StoredInput, StoredNetwork, StoredTier, HasIntegers, ValidParties,
      Assemble, BreaksLimits, FromTreasuries;
    StoredInputOfPlan(plan, t);
    AgreesExactly(Serialize(plan), Serialize(plan));
    if plan.deadline < 300 {
      NetworkIdsTellApart(plan.sourceNetwork, NetworkId(plan.sourceNetwork));
    } else {
      Recreated(a, plan, t, plan.deadline - 300, drawn);
    }
  }

  function ChainName(n: Network): string {
    if n == ETHEREUM then "eip155:1" else "solana:5eykt4UsFv8P8NJdTREpY1vzqKqZKvdp"
  }

  /** The record has the plan's fifteen fields and no others, amounts and times in decimal text, the rate as a number. */
  predicate Records(saved: Record, plan: SourceBridgePlan) {
    && saved.Keys == {IntentId, SourceNetwork, DestinationNetwork, SourceWallet, DestinationWallet, SourceAsset, Treasury,
                      MintRecipient, Principal, PlatformFee, TotalSourceDebit, MaxBridgeFee, MinimumDestinationAmount,
                      FeeBps, Deadline}
    && RecordsRoute(saved[IntentId], saved[SourceNetwork], saved[DestinationNetwork], saved[SourceAsset], saved[FeeBps], plan)
    && RecordsParties(saved[SourceWallet], saved[DestinationWallet], saved[Treasury], saved[MintRecipient], plan)
    && RecordsAmounts(saved[Principal], saved[PlatformFee], saved[TotalSourceDebit], saved[MaxBridgeFee],
                      saved[MinimumDestinationAmount], saved[Deadline], plan)
  }

  predicate RecordsRoute(
    intent: Stored, source: Stored, destination: Stored, asset: Stored, rate: Stored, plan: SourceBridgePlan)
  {
    && intent == Text(plan.intentId)
    && source == Text(ChainName(plan.sourceNetwork))
    && destination == Text(ChainName(plan.destinationNetwork))
    && asset == Text(plan.sourceAsset)
    && rate == Number(plan.feeBps)
  }

  predicate RecordsParties(
    source: Stored, destination: Stored, treasury: Stored, recipient: Stored, plan: SourceBridgePlan)
  {
    && source == Text(plan.sourceWallet)
    && destination == Text(plan.destinationWallet)
    && treasury == Text(plan.treasury)
    && recipient == Text(plan.mintRecipient)
  }

  predicate RecordsAmounts(
    principal: Stored, fee: Stored, debit: Stored, maxFee: Stored, minimum: Stored, deadline: Stored, plan: SourceBridgePlan)
  {
    && RecordsInteger(principal, plan.principal)
    && RecordsInteger(fee, plan.platformFee)
    && RecordsInteger(debit, plan.totalSourceDebit)
    && RecordsInteger(maxFee, plan.maxBridgeFee)
    && RecordsInteger(minimum, plan.minimumDestinationAmount)
    && RecordsInteger(deadline, plan.deadline)
  }

  /** Decimal text without leading zeros that reads as the number. */
  predicate RecordsInteger(s: Stored, n: nat) {
    s.Text? && IsStoredInteger(s.text) && ParseDecimal(s.text) == n
  }

  lemma IntegerExactly(s: Stored, n: nat)
    requires n <= MAX_U64
    ensures RecordsInteger(s, n) <==> s == Text(Decimal(n))
  {
    hide IsStoredInteger, ParseDecimal, Decimal;
    DecimalReadsBack(n);
    if RecordsInteger(s, n) {
      DecimalIsUnique(s.text);
    }
  }

  lemma SerializeKeys(plan: SourceBridgePlan)
    ensures Serialize(plan).Keys == {
      IntentId, SourceNetwork, DestinationNetwork, SourceWallet, DestinationWallet, SourceAsset, Treasury, MintRecipient,
      Principal, PlatformFee, TotalSourceDebit, MaxBridgeFee, MinimumDestinationAmount, FeeBps, Deadline}
  {
    hide Decimal, NetworkId;
  }

  lemma AmountsRecorded(plan: SourceBridgePlan)
    requires ValidAmounts(plan)
    ensures RecordsAmounts(Text(Decimal(plan.principal)), Text(Decimal(plan.platformFee)),
                           Text(Decimal(plan.totalSourceDebit)), Text(Decimal(plan.maxBridgeFee)),
                           Text(Decimal(plan.minimumDestinationAmount)), Text(Decimal(plan.deadline)), plan)
  {
    hide RecordsInteger, Decimal, NearestTiesToEven;
    IntegerExactly(Text(Decimal(plan.principal)), plan.principal);
    IntegerExactly(Text(Decimal(plan.platformFee)), plan.platformFee);
    IntegerExactly(Text(Decimal(plan.totalSourceDebit)), plan.totalSourceDebit);
    IntegerExactly(Text(Decimal(plan.maxBridgeFee)), plan.maxBridgeFee);
    IntegerExactly(Text(Decimal(plan.minimumDestinationAmount)), plan.minimumDestinationAmount);
    IntegerExactly(Text(Decimal(plan.deadline)), plan.deadline);
  }

  lemma RouteRecorded(plan: SourceBridgePlan)
    ensures RecordsRoute(Text(plan.intentId), Text(NetworkId(plan.sourceNetwork)), Text(NetworkId(plan.destinationNetwork)),
                         Text(plan.sourceAsset), Number(plan.feeBps), plan)
  {
  }

  lemma SerializeRecords(plan: SourceBridgePlan)
    requires ValidAmounts(plan)
    ensures Records(Serialize(plan), plan)
  {
    hide RecordsRoute, RecordsAmounts, Decimal, ValidAmounts, NetworkId;
    SerializeKeys(plan);
    RouteRecorded(plan);
    AmountsRecorded(plan);
  }

  lemma RecordedField(saved: Record, record: Record, plan: SourceBridgePlan, key: Key)
    requires ValidAmounts(plan) && Records(saved, plan) && Records(record, plan) && key in saved && key in record
    ensures saved[key] == record[key]
  {
    hide RecordsInteger, Decimal, ValidAmounts;
    IntegerOf(saved[key], plan);
    IntegerOf(record[key], plan);
  }

  lemma RecordsExactly(saved: Record, plan: SourceBridgePlan)
    requires ValidAmounts(plan)
    ensures Records(saved, plan) <==> saved == Serialize(plan)
  {
    hide Records, Serialize, ValidAmounts;
    var record := Serialize(plan);
    SerializeRecords(plan);
    if Records(saved, plan) {
      SameKeys(saved, record, plan);
      forall key | key in saved ensures key in record && saved[key] == record[key] {
        RecordedField(saved, record, plan, key);
      }
      assert saved == record;
    }
  }

  lemma SameKeys(saved: Record, record: Record, plan: SourceBridgePlan)
    requires Records(saved, plan) && Records(record, plan)
    ensures saved.Keys == record.Keys
  {
    hide RecordsRoute, RecordsParties, RecordsAmounts;
  }

  lemma IntegerOf(s: Stored, plan: SourceBridgePlan)
    requires ValidAmounts(plan)
    ensures RecordsInteger(s, plan.principal) <==> s == Text(Decimal(plan.principal))
    ensures RecordsInteger(s, plan.platformFee) <==> s == Text(Decimal(plan.platformFee))
    ensures RecordsInteger(s, plan.totalSourceDebit) <==> s == Text(Decimal(plan.totalSourceDebit))
    ensures RecordsInteger(s, plan.maxBridgeFee) <==> s == Text(Decimal(plan.maxBridgeFee))
    ensures RecordsInteger(s, plan.minimumDestinationAmount) <==> s == Text(Decimal(plan.minimumDestinationAmount))
    ensures RecordsInteger(s, plan.deadline) <==> s == Text(Decimal(plan.deadline))
  {
    hide RecordsInteger, Decimal, NearestTiesToEven;
    IntegerExactly(s, plan.principal);
    IntegerExactly(s, plan.platformFee);
    IntegerExactly(s, plan.totalSourceDebit);
    IntegerExactly(s, plan.maxBridgeFee);
    IntegerExactly(s, plan.minimumDestinationAmount);
    IntegerExactly(s, plan.deadline);
  }

  /**
   Restoring accepts exactly the records that show a created plan of these treasuries field by field: nothing altered,
   missing or added gets through, and saving the restored plan gives the record back.
   */
  lemma RestoresExactly(a: Accounts, saved: Record, t: Treasuries, drawn: string, plan: SourceBridgePlan)
    requires Idempotent(a)
    ensures Restore(a, saved, t, drawn) == Ok(plan) <==>
            (ValidPlan(a, plan) && FromTreasuries(a, plan, t) && 300 <= plan.deadline && Records(saved, plan))
    ensures Restore(a, saved, t, drawn) == Ok(plan) ==> saved == Serialize(plan)
  {
    hide Serialize, StoredNetwork, StoredTier, HasIntegers, ValidParties, ValidAmounts, CreatePlan, FromTreasuries, Agrees, Records;
    if ValidAmounts(plan) {
      RecordsExactly(saved, plan);
    }
    if Restore(a, saved, t, drawn) == Ok(plan) {
      CreatedIsValid(a, StoredInput(saved, t), drawn);
      AgreesExactly(saved, Serialize(plan));
    }
    if ValidPlan(a, plan) && FromTreasuries(a, plan, t) {
      RestoresOwn(a, plan, t, drawn);
    }
  }

  function EarlyId(): string {
    HexText(seq(32, _ => 0x11))
  }

  function EarlyAccounts(): Accounts {
    var zeros: Bytes32 := seq(32, _ => 0);
    Accounts(x => Some(x), (_, _) => true, _ => zeros, _ => zeros, _ => zeros)
  }

  function EarlyPlan(): SourceBridgePlan {
    SourceBridgePlan(
      EarlyId(), ETHEREUM, SOLANA, "s", "d", UsdcAsset(ETHEREUM), "t",
      SourcePlan.MintRecipient(EarlyAccounts(), SOLANA, "d"), 1, 0, 1, 0, 1, 8, 1)
  }

  lemma FirstDigit(b: Bytes)
    requires b != [] && b[0] == 0x11
    ensures HexDigits(b)[0] == '1'
  {
  }

  lemma EarlyIdIsValid()
    ensures IsIntentId(EarlyId())
  {
    hide HexDigits;
    var ones: Bytes := seq(32, _ => 0x11);
    HexReadsBack(ones);
    FirstDigit(ones);
    assert EarlyId()[2] == HexDigits(ones)[0];
  }

  lemma EarlyPlanIsValid()
    ensures Idempotent(EarlyAccounts()) && ValidPlan(EarlyAccounts(), EarlyPlan())
    ensures FromTreasuries(EarlyAccounts(), EarlyPlan(), Treasuries("t", "t")) && EarlyPlan().deadline == 1
  {
    hide SourcePlan.MintRecipient, UsdcAsset, EarlyId, IsIntentId;
    EarlyIdIsValid();
    assert "t"[0] != "s"[0];
  }

  /** Such a plan exists: created at second 0 with deadline 1, it is saved and can never be restored. */
  lemma EarlyPlanIsLost(drawn: string)
    ensures Idempotent(EarlyAccounts()) && ValidPlan(EarlyAccounts(), EarlyPlan())
    ensures CreatePlan(EarlyAccounts(), InputFor(EarlyPlan(), Treasuries("t", "t"), 0), drawn) == Ok(EarlyPlan())
    ensures Restore(EarlyAccounts(), Serialize(EarlyPlan()), Treasuries("t", "t"), drawn) == Err(InvalidAmountOrTime)
  {
    hide Serialize, Restore, EarlyPlan, EarlyAccounts, ValidPlan, CreatePlan, InputFor, FromTreasuries;
    EarlyPlanIsValid();
    Recreated(EarlyAccounts(), EarlyPlan(), Treasuries("t", "t"), 0, drawn);
    RestoresOwn(EarlyAccounts(), EarlyPlan(), Treasuries("t", "t"), drawn);
  }
}
