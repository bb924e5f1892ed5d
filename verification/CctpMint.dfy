/** The attested transfer message a plan may be minted with, byte by byte. */
module CctpMint {
  import opened Arithmetic
  import opened FixedWidth
  import opened Positional
  import opened SourcePlan
  import opened TextForms
  import opened Wrappers

  const MESSAGE_LENGTH: nat := 412
  const FINALITY_THRESHOLD: nat := 2000
  const ETHEREUM_DOMAIN: nat := 0
  const SOLANA_DOMAIN: nat := 5
  const HOOK: Bytes := [66, 78, 83, 49]

  datatype CctpError =
    | InvalidDeploymentAddress
    | InvalidMessageEncoding
    | InvalidMessageLength
    | InvalidAttestationLength
    | MessageDoesNotMatchIntent
    | InvalidSourceMessage
    | SourceMessageMismatch

  datatype Deployment = Deployment(
    ethereumTokenMessenger: string,
    ethereumMessageTransmitter: string,
    ethereumSourceRouter: string,
    solanaTokenMessenger: Bytes32)

  datatype BoundMessage = BoundMessage(
    plan: SourceBridgePlan,
    message: string,
    attestation: string,
    nonce: string,
    expectedReceivedAmount: int,
    circleFee: nat,
    ethereumMessageTransmitter: string)

  predicate IsDeployed(a: Accounts, address: string) {
    a.normalEthereum(address).Some?
  }

  /** An even, positive number of hexadecimal digits of either case behind the prefix. */
  predicate IsHexMessage(t: string) {
    && 4 <= |t| && |t| % 2 == 0 && t[0] == '0' && t[1] in {'x', 'X'}
    && forall i :: 2 <= i < |t| ==> IsHex(t[i])
  }

  function ReadHex(t: string, minimum: nat, maximum: nat): Result<Bytes, CctpError> {
    if !IsHexMessage(t) then Err(InvalidMessageEncoding)
    else
      var bytes := HexBytes(t);
      if |bytes| < minimum || maximum < |bytes| then Err(InvalidMessageLength) else Ok(bytes)
  }

  function Domain(n: Network): nat {
    if n == ETHEREUM then ETHEREUM_DOMAIN else SOLANA_DOMAIN
  }

  /** The token messenger of the named chain, as the message spells it. */
  function Messenger(a: Accounts, d: Deployment, n: Network): Bytes32 {
    if n == ETHEREUM then a.ethereumBytes(d.ethereumTokenMessenger) else d.solanaTokenMessenger
  }

  function SourceSender(a: Accounts, d: Deployment, plan: SourceBridgePlan): Bytes32 {
    if plan.sourceNetwork == ETHEREUM then a.ethereumBytes(d.ethereumSourceRouter) else a.solanaBytes(plan.sourceWallet)
  }

  function SourceToken(a: Accounts, plan: SourceBridgePlan): Bytes32 {
    if plan.sourceNetwork == ETHEREUM then a.ethereumBytes(UsdcAsset(ETHEREUM)) else a.solanaBytes(UsdcAsset(SOLANA))
  }

  function Zero32(): Bytes32 {
    seq(32, _ => 0)
  }

  /** The big-endian number in a slice. */
  function Word(m: Bytes, start: nat, end: nat): (n: nat)
    requires start <= end <= |m|
  {
    assert AreDigits(m[start..end], 256);
    Number(m[start..end], 256)
  }

  /** The comparisons the program makes, at its own offsets. */
  predicate MatchesPlan(a: Accounts, d: Deployment, plan: SourceBridgePlan, m: Bytes)
    requires |m| == MESSAGE_LENGTH
  {
    && Word(m, 0, 4) == 1
    && Word(m, 148, 152) == 1
    && Word(m, 4, 8) == Domain(plan.sourceNetwork)
    && Word(m, 8, 12) == Domain(Opposite(plan.sourceNetwork))
    && m[12..44] != Zero32()
    && m[44..76] == Messenger(a, d, plan.sourceNetwork)
    && m[76..108] == Messenger(a, d, Opposite(plan.sourceNetwork))
    && m[108..140] == Zero32()
    && Word(m, 140, 144) == FINALITY_THRESHOLD
    && Word(m, 144, 148) >= FINALITY_THRESHOLD
    && m[152..184] == SourceToken(a, plan)
    && m[184..216] == HexBytes(plan.mintRecipient)
    && Word(m, 216, 248) == plan.principal
    && m[248..280] == SourceSender(a, d, plan)
    && Word(m, 280, 312) == plan.maxBridgeFee
    && Word(m, 312, 344) <= plan.maxBridgeFee
    && plan.principal - Word(m, 312, 344) >= plan.minimumDestinationAmount
    && Word(m, 344, 376) == 0
    && m[376..380] == HOOK
    && m[380..412] == HexBytes(plan.intentId)
  }

  function Bind(a: Accounts, d: Deployment, plan: SourceBridgePlan, message: string, attestation: string)
    : Result<BoundMessage, CctpError>
    requires ValidPlan(a, plan)
  {
    if !IsDeployed(a, d.ethereumMessageTransmitter) then Err(InvalidDeploymentAddress)
    else
      match ReadHex(message, MESSAGE_LENGTH, MESSAGE_LENGTH)
      case Err(e) => Err(e)
      case Ok(m) =>
        match ReadHex(attestation, 65, 650)
        case Err(e) => Err(e)
        case Ok(signatures) =>
          if |signatures| % 65 != 0 then Err(InvalidAttestationLength)
          else if !IsDeployed(a, d.ethereumTokenMessenger) then Err(InvalidDeploymentAddress)
          else if plan.sourceNetwork == ETHEREUM && !IsDeployed(a, d.ethereumSourceRouter) then
            Err(InvalidDeploymentAddress)
          else if !MatchesPlan(a, d, plan, m) then Err(MessageDoesNotMatchIntent)
          else
            var circleFee := Word(m, 312, 344);
            Ok(BoundMessage(plan, message, attestation, HexText(m[12..44]), plan.principal - circleFee, circleFee,
                            d.ethereumMessageTransmitter))
  }

  // ---------------------------------------------------------------------------------------------
  // The one message a plan allows
  // ---------------------------------------------------------------------------------------------

  /** What the attestation fills in, beside the fields the plan fixes. */
  datatype Filled = Filled(nonce: Bytes, finality: Bytes, fee: Bytes, expiration: Bytes)

  predicate RightWidths(f: Filled) {
    |f.nonce| == 32 && |f.finality| == 4 && |f.fee| == 32 && |f.expiration| == 32
  }

  /** The 19 fields of a message for this plan. */
  function Parts(a: Accounts, d: Deployment, plan: SourceBridgePlan, f: Filled): (r: seq<Bytes>)
    ensures |r| == 19
  {
    [ Fixed(1, 4), Fixed(Domain(plan.sourceNetwork), 4), Fixed(Domain(Opposite(plan.sourceNetwork)), 4),
      f.nonce, Messenger(a, d, plan.sourceNetwork), Messenger(a, d, Opposite(plan.sourceNetwork)), Zero32(),
      Fixed(FINALITY_THRESHOLD, 4), f.finality, Fixed(1, 4), SourceToken(a, plan), HexBytes(plan.mintRecipient),
      Fixed(plan.principal, 32), SourceSender(a, d, plan), Fixed(plan.maxBridgeFee, 32), f.fee, f.expiration,
      HOOK, HexBytes(plan.intentId) ]
  }

  function Message(a: Accounts, d: Deployment, plan: SourceBridgePlan, f: Filled): Bytes
  {
    Concat(Parts(a, d, plan, f))
  }

  /** Whether attestation may fill the open fields this way. */
  predicate Attestable(plan: SourceBridgePlan, f: Filled) {
    && RightWidths(f)
    && f.nonce != Zero32()
    && Number(f.finality, 256) >= FINALITY_THRESHOLD
    && Number(f.fee, 256) <= plan.maxBridgeFee
    && f.expiration == Zero32()
  }

  /** Widths of the 19 fields, in order. */
  predicate Widths(p: seq<Bytes>) {
    && |p| == 19
    && |p[0]| == |p[1]| == |p[2]| == 4
    && |p[3]| == |p[4]| == |p[5]| == |p[6]| == 32
    && |p[7]| == |p[8]| == |p[9]| == 4
    && |p[10]| == |p[11]| == |p[12]| == |p[13]| == |p[14]| == |p[15]| == |p[16]| == 32
    && |p[17]| == 4 && |p[18]| == 32
  }

  /** The offsets the program reads at are the places where these fields start. */
  lemma Offsets(p: seq<Bytes>)
    requires Widths(p)
    ensures Offset(p, 0) == 0 && Offset(p, 1) == 4 && Offset(p, 2) == 8 && Offset(p, 3) == 12 && Offset(p, 4) == 44
    ensures Offset(p, 5) == 76 && Offset(p, 6) == 108 && Offset(p, 7) == 140 && Offset(p, 8) == 144
    ensures Offset(p, 9) == 148 && Offset(p, 10) == 152 && Offset(p, 11) == 184 && Offset(p, 12) == 216
    ensures Offset(p, 13) == 248 && Offset(p, 14) == 280 && Offset(p, 15) == 312 && Offset(p, 16) == 344
    ensures Offset(p, 17) == 376 && Offset(p, 18) == 380 && Offset(p, 19) == 412
  {
    hide Offset;
    OffsetZero(p);
    OffsetStep(p, 0);
    OffsetStep(p, 1);
    OffsetStep(p, 2);
    OffsetStep(p, 3);
    OffsetStep(p, 4);
    OffsetStep(p, 5);
    OffsetStep(p, 6);
    OffsetStep(p, 7);
    OffsetStep(p, 8);
    OffsetStep(p, 9);
    OffsetStep(p, 10);
    OffsetStep(p, 11);
    OffsetStep(p, 12);
    OffsetStep(p, 13);
    OffsetStep(p, 14);
    OffsetStep(p, 15);
    OffsetStep(p, 16);
    OffsetStep(p, 17);
    OffsetStep(p, 18);
  }

  lemma OffsetZero(p: seq<Bytes>)
    ensures Offset(p, 0) == 0
  {
  }

  /** The fields of a message as the program slices it. */
  predicate Sliced(m: Bytes, p: seq<Bytes>)
    requires |p| == 19
  {
    && |m| == MESSAGE_LENGTH
    && m[0..4] == p[0] && m[4..8] == p[1] && m[8..12] == p[2] && m[12..44] == p[3] && m[44..76] == p[4]
    && m[76..108] == p[5] && m[108..140] == p[6] && m[140..144] == p[7] && m[144..148] == p[8]
    && m[148..152] == p[9] && m[152..184] == p[10] && m[184..216] == p[11] && m[216..248] == p[12]
    && m[248..280] == p[13] && m[280..312] == p[14] && m[312..344] == p[15] && m[344..376] == p[16]
    && m[376..380] == p[17] && m[380..412] == p[18]
  }

  lemma SlicedExactly(m: Bytes, p: seq<Bytes>)
    requires Widths(p)
    ensures m == Concat(p) <==> Sliced(m, p)
  {
    hide Offset, Concat;
    ConcatExactly(m, p);
    Offsets(p);
    if Shows(m, p) {
      ShownSlices(m, p);
    }
    if Sliced(m, p) {
      forall k | 0 <= k < 19 ensures ShowsField(m, p, k) {
        SliceShown(m, p, k);
      }
    }
  }

  lemma ShownSlices(m: Bytes, p: seq<Bytes>)
    requires Widths(p) && Shows(m, p)
    ensures Sliced(m, p)
  {
    hide Offset;
    Offsets(p);
    assert ShowsField(m, p, 0) && ShowsField(m, p, 1) && ShowsField(m, p, 2) && ShowsField(m, p, 3);
    assert ShowsField(m, p, 4) && ShowsField(m, p, 5) && ShowsField(m, p, 6) && ShowsField(m, p, 7);
    assert ShowsField(m, p, 8) && ShowsField(m, p, 9) && ShowsField(m, p, 10) && ShowsField(m, p, 11);
    assert ShowsField(m, p, 12) && ShowsField(m, p, 13) && ShowsField(m, p, 14) && ShowsField(m, p, 15);
    assert ShowsField(m, p, 16) && ShowsField(m, p, 17) && ShowsField(m, p, 18);
  }

  lemma SliceShown(m: Bytes, p: seq<Bytes>, k: nat)
    requires Widths(p) && Sliced(m, p) && k < 19
    ensures ShowsField(m, p, k)
  {
    hide Offset;
    Offsets(p);
  }

  lemma NumberIs(s: Bytes, n: nat)
    requires n < Power(256, |s|)
    ensures Number(s, 256) == n <==> s == Fixed(n, |s|)
  {
    NumberFixed(s);
    FixedNumber(n, |s|);
  }

  lemma WordSizes()
    ensures MAX_U64 < Power(256, 32) && FINALITY_THRESHOLD < Power(256, 4)
  {
    assert Power(256, 4) == 0x1_0000_0000;
    assert Power(256, 8) == 0x1_0000_0000_0000_0000;
    PowerGrows(8, 32);
  }

  lemma PartWidths(a: Accounts, d: Deployment, plan: SourceBridgePlan, f: Filled)
    requires ValidPlan(a, plan) && RightWidths(f)
    ensures Widths(Parts(a, d, plan, f))
  {
    hide Fixed, NetworkId, UsdcAsset, Address;
  }

  lemma ZeroNumber(s: Bytes)
    requires |s| == 32
    ensures Number(s, 256) == 0 <==> s == Zero32()
  {
    hide Number, Fixed, Power;
    NumberIs(s, 0);
    forall i: nat | i < 32 ensures Fixed(0, 32)[i] == 0 {
      FixedZero(32, i);
    }
    assert Fixed(0, 32) == Zero32();
  }

  lemma {:induction false} FixedZero(width: nat, i: nat)
    requires i < width
    ensures Fixed(0, width)[i] == 0
  {
    if i < width - 1 {
      FixedZero(width - 1, i);
    }
  }

  /** What attestation has filled in, read off the message. */
  function Open(m: Bytes): Filled
    requires |m| == MESSAGE_LENGTH
  {
    Filled(m[12..44], m[144..148], m[312..344], m[344..376])
  }

  /**
   The program's comparisons accept exactly the message built from the plan, the deployment and what attestation
   may fill in. The comparison with the minimum amount never decides: it follows from the limits of the plan.
   */
  lemma MatchesExactly(a: Accounts, d: Deployment, plan: SourceBridgePlan, m: Bytes)
    requires ValidPlan(a, plan) && |m| == MESSAGE_LENGTH
    ensures MatchesPlan(a, d, plan, m) <==> Attestable(plan, Open(m)) && m == Message(a, d, plan, Open(m))
  {
    hide Number, Fixed, Concat, Power, ValidParties, Messenger, SourceToken, SourceSender, HexBytes;
    var f := Open(m);
    PartWidths(a, d, plan, f);
    SlicedExactly(m, Parts(a, d, plan, f));
    WordSizes();
    NumberIs(m[0..4], 1);
    NumberIs(m[148..152], 1);
    NumberIs(m[4..8], Domain(plan.sourceNetwork));
    NumberIs(m[8..12], Domain(Opposite(plan.sourceNetwork)));
    NumberIs(m[140..144], FINALITY_THRESHOLD);
    NumberIs(m[216..248], plan.principal);
    NumberIs(m[280..312], plan.maxBridgeFee);
    ZeroNumber(m[344..376]);
  }

  lemma OpenReadsBack(a: Accounts, d: Deployment, plan: SourceBridgePlan, f: Filled)
    requires ValidPlan(a, plan) && RightWidths(f)
    ensures |Message(a, d, plan, f)| == MESSAGE_LENGTH && Open(Message(a, d, plan, f)) == f
  {
    hide Concat, Fixed, ValidPlan, Messenger, SourceToken, SourceSender, HexBytes;
    PartWidths(a, d, plan, f);
    SlicedExactly(Message(a, d, plan, f), Parts(a, d, plan, f));
  }

  /** `0x` in either case and at least one pair of hexadecimal digits, in either case. */
  predicate HexEncoded(t: string) {
    && 4 <= |t| && |t| % 2 == 0 && t[0] == '0' && (t[1] == 'x' || t[1] == 'X')
    && forall i :: 2 <= i < |t| ==> '0' <= t[i] <= '9' || 'a' <= t[i] <= 'f' || 'A' <= t[i] <= 'F'
  }

  lemma EncodedExactly(t: string)
    ensures IsHexMessage(t) <==> HexEncoded(t)
  {
  }

  predicate GoodAttestation(attestation: string) {
    && HexEncoded(attestation)
    && 65 <= |HexBytes(attestation)| <= 650 && |HexBytes(attestation)| % 65 == 0
  }

  predicate GoodDeployment(a: Accounts, d: Deployment, source: Network) {
    && a.normalEthereum(d.ethereumMessageTransmitter).Some? && a.normalEthereum(d.ethereumTokenMessenger).Some?
    && (source == ETHEREUM ==> a.normalEthereum(d.ethereumSourceRouter).Some?)
  }

  /** A well-formed message binds to a plan exactly when it is the plan's message for some attestable filling. */
  lemma BindExactly(a: Accounts, d: Deployment, plan: SourceBridgePlan, message: string, attestation: string)
    requires ValidPlan(a, plan)
    ensures Bind(a, d, plan, message, attestation).Ok? <==>
            (GoodDeployment(a, d, plan.sourceNetwork) && HexEncoded(message) && GoodAttestation(attestation)
             && exists f :: Attestable(plan, f) && HexBytes(message) == Message(a, d, plan, f))
  {
    hide ValidPlan, MatchesPlan, Message, Attestable, IsHexMessage, HexEncoded, HexBytes, HexText;
    EncodedExactly(message);
    EncodedExactly(attestation);
    var m := HexBytes(message);
    if |m| == MESSAGE_LENGTH {
      MatchesExactly(a, d, plan, m);
    }
    if f :| Attestable(plan, f) && m == Message(a, d, plan, f) {
      AttestableWidths(plan, f);
      OpenReadsBack(a, d, plan, f);
    }
  }

  lemma AttestableWidths(plan: SourceBridgePlan, f: Filled)
    requires Attestable(plan, f)
    ensures RightWidths(f)
  {
  }

  /**
   What a bound message conserves: the source debit is what arrives, Circle's fee and the platform fee together;
   what arrives is at least the minimum, and the nonce is 32 bytes that are not all zero.
   */
  lemma BoundConserves(a: Accounts, d: Deployment, plan: SourceBridgePlan, message: string, attestation: string)
    requires ValidPlan(a, plan)
    ensures Bind(a, d, plan, message, attestation).Ok? ==>
      var bound := Bind(a, d, plan, message, attestation).value;
      && bound.expectedReceivedAmount + bound.circleFee + plan.platformFee == plan.totalSourceDebit
      && plan.minimumDestinationAmount <= bound.expectedReceivedAmount
      && bound.circleFee <= plan.maxBridgeFee
      && |HexBytes(bound.nonce)| == 32 && HexBytes(bound.nonce) != Zero32()
  {
    hide Number, ValidParties, Messenger, SourceToken, SourceSender, HexBytes, HexText;
    var m := HexBytes(message);
    if |m| == MESSAGE_LENGTH {
      HexReadsBack(m[12..44]);
    }
  }

  // ---------------------------------------------------------------------------------------------
  // The accepted bytes, direction by direction
  // ---------------------------------------------------------------------------------------------

  predicate AllZero(b: Bytes) {
    forall i :: 0 <= i < |b| ==> b[i] == 0
  }

  /** Version, finality and hook, and what the message takes from the plan, whichever way it goes. */
  predicate CarriesPlan(plan: SourceBridgePlan, m: Bytes)
    requires |m| == 412
  {
    && m[0..4] == [0, 0, 0, 1] && m[148..152] == [0, 0, 0, 1]
    && m[140..144] == [0, 0, 7, 208] && 2000 <= Word(m, 144, 148)
    && !AllZero(m[12..44]) && AllZero(m[108..140]) && AllZero(m[344..376])
    && m[184..216] == HexBytes(plan.mintRecipient)
    && Word(m, 216, 248) == plan.principal
    && Word(m, 280, 312) == plan.maxBridgeFee
    && Word(m, 312, 344) <= plan.maxBridgeFee
    && m[376..380] == [66, 78, 83, 49]
    && m[380..412] == HexBytes(plan.intentId)
  }

  /** Domain 0 to domain 5: Ethereum's messenger to Solana's, Ethereum's USDC, sent by the router. */
  predicate FromEthereum(a: Accounts, d: Deployment, m: Bytes)
    requires |m| == 412
  {
    && m[4..8] == [0, 0, 0, 0] && m[8..12] == [0, 0, 0, 5]
    && m[44..76] == a.ethereumBytes(d.ethereumTokenMessenger) && m[76..108] == d.solanaTokenMessenger
    && m[152..184] == a.ethereumBytes("0xA0b86991c6218b36c1d19D4a2e9Eb0cE3606eB48")
    && m[248..280] == a.ethereumBytes(d.ethereumSourceRouter)
  }

  /** Domain 5 to domain 0: Solana's messenger to Ethereum's, Solana's USDC, sent by the source wallet. */
  predicate FromSolana(a: Accounts, d: Deployment, plan: SourceBridgePlan, m: Bytes)
    requires |m| == 412
  {
    && m[4..8] == [0, 0, 0, 5] && m[8..12] == [0, 0, 0, 0]
    && m[44..76] == d.solanaTokenMessenger && m[76..108] == a.ethereumBytes(d.ethereumTokenMessenger)
    && m[152..184] == a.solanaBytes("EPjFWdd5AufqSSqeM2qN1xzybapC8G4wEGGkZwyTDt1v")
    && m[248..280] == a.solanaBytes(plan.sourceWallet)
  }

  lemma FourBytes(s: Bytes)
    requires |s| == 4
    ensures Number(s, 256) == 16777216 * (s[0] as int) + 65536 * (s[1] as int) + 256 * (s[2] as int) + s[3] as int
  {
    var one, two, three := s[..1], s[..2], s[..3];
    assert three[..2] == two && two[..1] == one && one[..0] == [];
    assert Number(one, 256) == s[0] as int;
    assert Number(two, 256) == 256 * (s[0] as int) + s[1] as int;
    assert Number(three, 256) == 65536 * (s[0] as int) + 256 * (s[1] as int) + s[2] as int;
  }

  lemma SameDigits(a: int, b: int, c: int, d: int, w: int, x: int, y: int, z: int)
    requires 0 <= a < 256 && 0 <= b < 256 && 0 <= c < 256 && 0 <= d < 256
    requires 0 <= w < 256 && 0 <= x < 256 && 0 <= y < 256 && 0 <= z < 256
    requires 16777216 * a + 65536 * b + 256 * c + d == 16777216 * w + 65536 * x + 256 * y + z
    ensures a == w && b == x && c == y && d == z
  {
  }

  lemma WordIs(s: Bytes, b: Bytes)
    requires |s| == |b| == 4
    ensures Number(s, 256) == Number(b, 256) <==> s == b
  {
    hide Number;
    FourBytes(s);
    FourBytes(b);
    if Number(s, 256) == Number(b, 256) {
      SameDigits(s[0], s[1], s[2], s[3], b[0], b[1], b[2], b[3]);
      assert s == b;
    }
  }

  lemma ZeroIsAllZero(s: Bytes)
    requires |s| == 32
    ensures s == Zero32() <==> AllZero(s)
  {
  }

  lemma HeaderIs(m: Bytes)
    requires |m| == 412
    ensures Word(m, 0, 4) == 1 <==> m[0..4] == [0, 0, 0, 1]
    ensures Word(m, 148, 152) == 1 <==> m[148..152] == [0, 0, 0, 1]
    ensures Word(m, 140, 144) == 2000 <==> m[140..144] == [0, 0, 7, 208]
    ensures Word(m, 4, 8) == 0 <==> m[4..8] == [0, 0, 0, 0]
    ensures Word(m, 4, 8) == 5 <==> m[4..8] == [0, 0, 0, 5]
    ensures Word(m, 8, 12) == 0 <==> m[8..12] == [0, 0, 0, 0]
    ensures Word(m, 8, 12) == 5 <==> m[8..12] == [0, 0, 0, 5]
  {
    hide Number;
    FourBytes([0, 0, 0, 0]);
    FourBytes([0, 0, 0, 1]);
    FourBytes([0, 0, 0, 5]);
    FourBytes([0, 0, 7, 208]);
    WordIs(m[0..4], [0, 0, 0, 1]);
    WordIs(m[148..152], [0, 0, 0, 1]);
    WordIs(m[140..144], [0, 0, 7, 208]);
    WordIs(m[4..8], [0, 0, 0, 0]);
    WordIs(m[4..8], [0, 0, 0, 5]);
    WordIs(m[8..12], [0, 0, 0, 0]);
    WordIs(m[8..12], [0, 0, 0, 5]);
  }

  /** The comparisons come down to these bytes, in each direction. */
  lemma BytesExactly(a: Accounts, d: Deployment, plan: SourceBridgePlan, m: Bytes)
    requires ValidPlan(a, plan) && |m| == 412
    ensures MatchesPlan(a, d, plan, m) <==>
      CarriesPlan(plan, m) && if plan.sourceNetwork == ETHEREUM then FromEthereum(a, d, m) else FromSolana(a, d, plan, m)
  {
    hide ValidParties, HexBytes, Zero32, AllZero, Number;
    HeaderIs(m);
    ZeroIsAllZero(m[12..44]);
    ZeroIsAllZero(m[108..140]);
    ZeroIsAllZero(m[344..376]);
    ZeroNumber(m[344..376]);
  }

  /**
   What binds is exactly what carries these bytes beside 1 to 10 signatures of 65 bytes on a complete deployment. The
   bound message keeps the plan, the message, the attestation and the transmitter, and reads the nonce and Circle's fee
   off the message.
   */
  lemma BoundExactly(a: Accounts, d: Deployment, plan: SourceBridgePlan, message: string, attestation: string)
    requires ValidPlan(a, plan)
    ensures var r, m := Bind(a, d, plan, message, attestation), HexBytes(message);
      && (r.Ok? <==>
           (GoodDeployment(a, d, plan.sourceNetwork) && HexEncoded(message) && GoodAttestation(attestation)
            && |m| == 412 && CarriesPlan(plan, m)
            && if plan.sourceNetwork == ETHEREUM then FromEthereum(a, d, m) else FromSolana(a, d, plan, m)))
      && (r.Ok? ==>
            && r.value.plan == plan && r.value.message == message && r.value.attestation == attestation
            && r.value.ethereumMessageTransmitter == d.ethereumMessageTransmitter
            && HexBytes(r.value.nonce) == m[12..44]
            && r.value.circleFee == Word(m, 312, 344)
            && r.value.expectedReceivedAmount == plan.principal - Word(m, 312, 344))
  {
    hide ValidPlan, MatchesPlan, CarriesPlan, FromEthereum, FromSolana, HexBytes, HexText, IsHexMessage, HexEncoded;
    EncodedExactly(message);
    EncodedExactly(attestation);
    var m := HexBytes(message);
    if |m| == 412 {
      BytesExactly(a, d, plan, m);
      HexReadsBack(m[12..44]);
    }
  }

  /** The first thing wrong with a message that does not bind. */
  function Refusal(a: Accounts, d: Deployment, plan: SourceBridgePlan, message: string, attestation: string): CctpError {
    var signatures := |HexBytes(attestation)|;
    if a.normalEthereum(d.ethereumMessageTransmitter).None? then InvalidDeploymentAddress
    else if !HexEncoded(message) then InvalidMessageEncoding
    else if |HexBytes(message)| != 412 then InvalidMessageLength
    else if !HexEncoded(attestation) then InvalidMessageEncoding
    else if signatures < 65 || 650 < signatures then InvalidMessageLength
    else if signatures % 65 != 0 then InvalidAttestationLength
    else if !GoodDeployment(a, d, plan.sourceNetwork) then InvalidDeploymentAddress
    else MessageDoesNotMatchIntent
  }

  lemma RefusedExactly(a: Accounts, d: Deployment, plan: SourceBridgePlan, message: string, attestation: string)
    requires ValidPlan(a, plan)
    ensures Bind(a, d, plan, message, attestation).Err? ==>
      Bind(a, d, plan, message, attestation).error == Refusal(a, d, plan, message, attestation)
  {
    hide ValidPlan, MatchesPlan, HexBytes, HexText, IsHexMessage, HexEncoded;
    EncodedExactly(message);
    EncodedExactly(attestation);
  }

  // ---------------------------------------------------------------------------------------------
  // The message the source transaction emitted
  // ---------------------------------------------------------------------------------------------

  predicate IsEmittedForm(t: string) {
    |t| == 826 && t[0] == '0' && t[1] == 'x' && forall i :: 2 <= i < |t| ==> IsHex(t[i])
  }

  predicate SameRange(e: Bytes, m: Bytes, start: nat, end: nat)
    requires start <= end <= |e| && end <= |m|
  {
    e[start..end] == m[start..end]
  }

  predicate SameFixedFields(e: Bytes, m: Bytes)
    requires |e| == |m| == MESSAGE_LENGTH
  {
    SameRange(e, m, 0, 12) && SameRange(e, m, 44, 144) && SameRange(e, m, 148, 312) && SameRange(e, m, 376, 412)
  }

  /** The error, if any; nothing when the emitted message agrees with the attested one. */
  function VerifyEmitted(emitted: string, attested: string): Option<CctpError> {
    if !IsEmittedForm(emitted) || !IsEmittedForm(attested) then Some(InvalidSourceMessage)
    else if !SameFixedFields(HexBytes(emitted), HexBytes(attested)) then Some(SourceMessageMismatch)
    else None
  }

  lemma Within(e: Bytes, m: Bytes, start: nat, end: nat, i: nat, j: nat)
    requires start <= i <= j <= end <= |e| && end <= |m| && SameRange(e, m, start, end)
    ensures SameRange(e, m, i, j)
  {
    forall k | 0 <= k < j - i ensures e[i..j][k] == m[i..j][k] {
      assert e[start..end][i - start + k] == m[start..end][i - start + k];
    }
  }

  lemma Glue(e: Bytes, m: Bytes, i: nat, j: nat, k: nat)
    requires i <= j <= k <= |e| && k <= |m| && SameRange(e, m, i, j) && SameRange(e, m, j, k)
    ensures SameRange(e, m, i, k)
  {
    assert e[i..k] == e[i..j] + e[j..k] && m[i..k] == m[i..j] + m[j..k];
  }

  /** Agreement on the compared ranges is agreement on every field that attestation does not fill in. */
  predicate SameFields(e: Bytes, m: Bytes)
    requires |e| == |m| == MESSAGE_LENGTH
  {
    && SameRange(e, m, 0, 4) && SameRange(e, m, 4, 8) && SameRange(e, m, 8, 12)
    && SameRange(e, m, 44, 76) && SameRange(e, m, 76, 108) && SameRange(e, m, 108, 140) && SameRange(e, m, 140, 144)
    && SameRange(e, m, 148, 152) && SameRange(e, m, 152, 184) && SameRange(e, m, 184, 216)
    && SameRange(e, m, 216, 248) && SameRange(e, m, 248, 280) && SameRange(e, m, 280, 312)
    && SameRange(e, m, 376, 380) && SameRange(e, m, 380, 412)
  }

  lemma RangesCoverFields(e: Bytes, m: Bytes)
    requires |e| == |m| == MESSAGE_LENGTH
    ensures SameFixedFields(e, m) <==> SameFields(e, m)
  {
    hide SameRange;
    if SameFixedFields(e, m) {
      Within(e, m, 0, 12, 0, 4);
      Within(e, m, 0, 12, 4, 8);
      Within(e, m, 0, 12, 8, 12);
      Within(e, m, 44, 144, 44, 76);
      Within(e, m, 44, 144, 76, 108);
      Within(e, m, 44, 144, 108, 140);
      Within(e, m, 44, 144, 140, 144);
      Within(e, m, 148, 312, 148, 152);
      Within(e, m, 148, 312, 152, 184);
      Within(e, m, 148, 312, 184, 216);
      Within(e, m, 148, 312, 216, 248);
      Within(e, m, 148, 312, 248, 280);
      Within(e, m, 148, 312, 280, 312);
      Within(e, m, 376, 412, 376, 380);
      Within(e, m, 376, 412, 380, 412);
    }
    if SameFields(e, m) {
      Glue(e, m, 0, 4, 8);
      Glue(e, m, 0, 8, 12);
      Glue(e, m, 44, 76, 108);
      Glue(e, m, 44, 108, 140);
      Glue(e, m, 44, 140, 144);
      Glue(e, m, 148, 152, 184);
      Glue(e, m, 148, 184, 216);
      Glue(e, m, 148, 216, 248);
      Glue(e, m, 148, 248, 280);
      Glue(e, m, 148, 280, 312);
      Glue(e, m, 376, 380, 412);
    }
  }

  /** Messages of one plan differ only where attestation fills in. */
  lemma SameFieldsExactly(a: Accounts, d: Deployment, plan: SourceBridgePlan, m: Bytes, e: Bytes)
    requires ValidPlan(a, plan) && |e| == |m| == MESSAGE_LENGTH && m == Message(a, d, plan, Open(m))
    ensures SameFields(e, m) <==> e == Message(a, d, plan, Open(e))
  {
    hide Concat, Fixed, ValidPlan, Messenger, SourceToken, SourceSender, HexBytes, Widths;
    PartWidths(a, d, plan, Open(m));
    PartWidths(a, d, plan, Open(e));
    SlicedExactly(m, Parts(a, d, plan, Open(m)));
    SlicedExactly(e, Parts(a, d, plan, Open(e)));
  }

  /**
   Beside a bound message, the emitted message passes exactly when it is a message of the same plan and
   deployment, whatever its nonce, finality, fee and expiration.
   */
  lemma EmittedExactly(
    a: Accounts, d: Deployment, plan: SourceBridgePlan, attested: string, attestation: string, emitted: string)
    requires ValidPlan(a, plan)
    ensures Bind(a, d, plan, attested, attestation).Ok? ==>
              (VerifyEmitted(emitted, attested).None? <==>
               (IsEmittedForm(attested) && IsEmittedForm(emitted)
                && exists f :: RightWidths(f) && HexBytes(emitted) == Message(a, d, plan, f)))
    ensures VerifyEmitted(emitted, attested).Some? ==>
              VerifyEmitted(emitted, attested).value ==
                if IsEmittedForm(emitted) && IsEmittedForm(attested) then SourceMessageMismatch else InvalidSourceMessage
  {
    hide ValidPlan, MatchesPlan, Message, Attestable, SameFields, SameFixedFields, HexBytes, HexText, IsHexMessage;
    var m, e := HexBytes(attested), HexBytes(emitted);
    if Bind(a, d, plan, attested, attestation).Ok? {
      MatchesExactly(a, d, plan, m);
      if IsEmittedForm(emitted) {
        SameFieldsExactly(a, d, plan, m, e);
        RangesCoverFields(e, m);
      }
      if f :| RightWidths(f) && e == Message(a, d, plan, f) {
        OpenReadsBack(a, d, plan, f);
      }
    }
  }
}
