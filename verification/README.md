# Verified model of the lending system's core

A Dafny model of five parts of the system and proofs of what they promise. `dafny verify dfyconfig.toml` verifies the
whole project.

**The allocation planner** (`Sorting`, `PlanErrors`, `Apportionment`, `RoutingFee`, `CostModel`, `Planner`,
`PlanTheorems`, `YieldProjection`, `Preview`). The preview splits integer cents by largest remainder, caps positions
by market capacity, models costs with ceilings, and searches up to 16 rounds for an allocation whose costs agree with
the estimate it was made from. `Apportion` defines the split by the rank of a remainder; the loops are proved to
compute it and it is proved to be the least-squares integer split. `RunRounds` is the search without any early exit;
`ConvergePlan`, with all of them, is proved to return the same plan, and every plan it returns is proved solvent, best
and accounted for to the cent. What a plan costs is stated without the cost functions: the least conversion, the least
cents that cover each percentage, and every network once. The route classifier and the yield catalogue are arbitrary
functions and values.

**The intent ledger** (`LedgerSpec`, `LedgerInvariants`, `LedgerTheorems`, `LedgerEvents`, `IntentLedger`).
`LedgerSpec` is a state machine whose events are the stretches of requests between two awaits; the RPC may answer
anything and clocks may read anything, in any order. The class `IntentLedger` keeps mutable intents and maps as the
services do, and each of its methods is proved to take the step the state machine prescribes. The deposit service and
its withdrawal twin differ in `kind` alone. The code promises that an accepted hash of a stored intent is owned by it;
the converse fails, and the event that breaks it is stated exactly, for one step and over whole runs. `LedgerEvents`
states what every event does to the fields of the intents it meets.

**The codecs** (`Positional`, `Base58`, `JsonText`, `JsonReader`, `CanonicalJson`, `CanonicalGraph`). Three Base58
encoders and one decoder are proved against one definition by positional numbers. A reader written from the grammar of
RFC 8259 is proved to read back whatever is written, so canonical text determines the value up to key insertion order;
its key order is that of section 3.2.3 of RFC 8785. The serializer is modelled on object graphs with the set of
objects it is inside of, in the two forms the scripts give it: the evidence bundle takes an object off the set only
after success, the launch decision always.

**The CCTP plan, message and submission chain** (`FixedWidth`, `TextForms`, `SourcePlan`, `PlanStorage`, `CctpMint`,
`MintInstruction`, `SourceSubmission`, `BridgeProgress`). Which plans can be created, which saved records restore,
which 412-byte messages bind and which emitted messages agree with them are each stated as an equivalence. The comment
at onchain/src/plan-storage.ts:12 promises that a plan restores even after its source has expired; the code refuses a
plan whose deadline is below 300, because it re-creates it 300 seconds earlier. Submission is a state machine of
concurrent calls over a journal whose reservation is atomic; a call may fail or crash at any await. Half-even rounding
is roundTiesToEven of section 4.3.1 of IEEE 754-2019, on integers.

**Node seeding** (`FixtureWallets`, `NodeSeeding`). A pipeline remembers which wallets it has seeded on which instance
of a node that may restart, with a new identifier every time, or fail at any await. Requests are sorted by wallet
identifier before the demo balances are split, and the split is proved not to depend on the order of a request.

## Model

| member | source | states |
|---|---|---|
| Apportionment.ApportionSums | apps/api/src/local-demo/local-demo-allocation.service.ts:1350-1375 | The shares of a largest-remainder split add up to the total exactly. |
| Apportionment.LeftoverBounds | apps/api/src/local-demo/local-demo-allocation.service.ts:1264-1278 | After flooring, the cents left over are at least none and fewer than the shares, so each share gets at most one. |
| Apportionment.RankIsPosition | apps/api/src/local-demo/local-demo-allocation.service.ts:1365-1367 | In the sorted remainder list a share stands at the position given by how many remainders come before its own. |
| Apportionment.BumpedIsApportion | apps/api/src/local-demo/local-demo-allocation.service.ts:1364-1373 | One cent to each of the first entries of any list sorted by that comparator is the split defined by rank. |
| Apportionment.HandOutLeftover | apps/api/src/local-demo/local-demo-allocation.service.ts:1359-1374 | The two loops return that split; the throw for an undistributed remainder is unreachable. |
| Apportionment.QuotaRule | apps/api/src/local-demo/local-demo-allocation.service.ts:1359-1374 | Every share is less than one cent away from its exact quota, on either side. |
| Apportionment.ApportionIsOptimal | apps/api/src/local-demo/local-demo-allocation.service.ts:1350-1375 | No integer split with the same total, negative shares included, has a smaller sum of squared deviations from the exact quotas. |
| Apportionment.RoundedUpFirst | apps/api/src/local-demo/local-demo-allocation.service.ts:1365-1372 | Where one share gets a leftover cent and another does not, the remainder of total times weight is larger for the first, or equal at a lower index. |
| Apportionment.WholeQuotaIsExact | apps/api/src/local-demo/local-demo-allocation.service.ts:1359-1374 | A share whose quota is whole never gets a leftover cent. |
| Apportionment.ShareWithinWeight | apps/api/src/local-demo/local-demo-allocation.service.ts:571-584 | Shares are never negative, zero weight gets zero, and when the total is at most the sum of weights no share exceeds its weight. |
| Apportionment.ShareMonotone | apps/api/src/local-demo/local-demo-allocation.service.ts:1350-1375 | A larger weight never gets a smaller share. |
| Apportionment.PairIsNearest | apps/api/src/local-demo/local-demo-allocation.service.ts:1350-1375 | Of two shares the first is the integer nearest to its quota, a half counting up, and the second is the rest; neither is negative, a zero weight gets zero, and neither exceeds its weight when the total fits. |
| Apportionment.DistributeByAmounts | apps/api/src/local-demo/local-demo-allocation.service.ts:1350-1375 | Refuses negative totals, missing or negative weights and a positive total over zero weights; otherwise splits in proportion to the weights. |
| Apportionment.Distribute | apps/api/src/local-demo/local-demo-allocation.service.ts:1253-1280 | The same split by basis points, refused exactly when the total is negative, a weight is out of range or the weights are not 10,000 in all. |
| Apportionment.SplitsSum | apps/api/src/local-demo/local-demo-allocation.service.ts:1350-1375 | Exactly when either kind of split succeeds, which error it ends with otherwise, and that its shares sum to the total. |
| Apportionment.DistributeWithinCapacities | apps/api/src/local-demo/local-demo-allocation.service.ts:510-541 | The capping and top-up loops return the capacity-limited split or its error, in the order of the checks. |
| Apportionment.WithinCapacitiesMeaning | apps/api/src/local-demo/local-demo-allocation.service.ts:510-541 | For valid weights the split exists exactly when the total fits the capacities together; it then sums to the total within every capacity and no other such split is nearer to the uncapped one. |
| Apportionment.PairWithinCapacities | apps/api/src/local-demo/local-demo-allocation.service.ts:510-541 | Two shares exist exactly when the total fits both capacities; the first is the nearest share of the percentages, moved only as far as its own capacity or that of the other demands. |
| RoutingFee.HalfEvenIsNearest | apps/api/src/routing-fees/domain/routing-fee.ts:636-649 | Half-even rounding returns the nearest integer, the even one on a tie, and no other integer qualifies. |
| RoutingFee.DirectedRounding | apps/api/src/routing-fees/domain/routing-fee.ts:636-649 | Rounding down gives the floor of the ratio and rounding up its ceiling. |
| RoutingFee.RoundingIsMonotone | apps/api/src/routing-fees/domain/routing-fee.ts:636-649 | In every rounding mode a larger amount never rounds to less. |
| RoutingFee.LendingFeeMatchesRoutingRule | onchain/src/lending-fee.ts:4-14 | The lending fee exists exactly for non-negative principal and 0 to 10,000 basis points; it is the nearest-ties-to-even fee, at most the principal, and equals the routing-fee rule. |
| CostModel.PositionsForCapital | apps/api/src/local-demo/local-demo-allocation.service.ts:474-508 | The loop over ecosystems returns the positions, or the first error, of the specification. |
| CostModel.PositionsForMeaning | apps/api/src/local-demo/local-demo-allocation.service.ts:474-508 | Each ecosystem's managed capital is placed in full, EVM first: one market takes all of it, two take the shares nearest to 60 and 40 percent, moved only when a market's exit liquidity or size is too small. It fails exactly when an ecosystem with capital offers no or more than two opportunities, or too little room, each with its own error. |
| CostModel.PercentageCostIsCeiling | apps/api/src/local-demo/local-demo-allocation.service.ts:1140-1146 | The percentage cost is the least number of cents that covers the exact percentage. |
| CostModel.ConversionIsLeast | apps/api/src/local-demo/local-demo-allocation.service.ts:1104-1134 | The amount the conversion cost is taken of is the least total that, spent on stablecoins in any way, lets the ecosystem's wallets hold what its positions need of each; some purchase attains it. |
| CostModel.ActiveFilters | apps/api/src/local-demo/local-demo-allocation.service.ts:791 | Active positions are the positive ones in their order. |
| CostModel.FeeSplit | apps/api/src/local-demo/local-demo-allocation.service.ts:808-811 | The platform fee is split in full: EVM gets the nearest whole part, a half counting up, SOLANA the rest, and an ecosystem without managed capital nothing. |
| CostModel.ModeledCostsMeaning | apps/api/src/local-demo/local-demo-allocation.service.ts:787-875 | Costs fail only without capital, on the classifier's answer or beyond 256 bits. Each ecosystem is charged every network it uses once, at its price in cents, the least cents covering 8, 2, 4 or 1 basis points of each position, 12 basis points of the least conversion, and 1 basis point plus one for every started 5 percent of utilization above 85 for each position. The platform fee is nothing for a direct settlement and otherwise 20 basis points of the managed capital, half to even, split as above. |
| Planner.ExecutionCostAddsUp | apps/api/src/local-demo/local-demo-allocation.service.ts:712-785 | The summary lists the five components with their amounts and funding, transfers none between ecosystems, deducts the ecosystem totals, adds the platform fee on top, and requires gross capital and platform fee together. |
| Planner.BucketsMeaning | apps/api/src/local-demo/local-demo-allocation.service.ts:1239-1251 | The liquid reserve is the whole number of cents nearest to its basis points of the capital, a half counting up, and the managed capital is the rest. |
| Planner.SplitManagedMeaning | apps/api/src/local-demo/local-demo-allocation.service.ts:571-584 | Managed capital that fits what the ecosystems have left is split in full and in proportion, EVM's part being the nearest, no ecosystem above what it has left. |
| Planner.AttemptMeaning | apps/api/src/local-demo/local-demo-allocation.service.ts:563-587 | A round from any estimate below the gross capital ends with a planning error or divides its capital as the reserve and what the ecosystems have left demand, places it, and charges the costs of just those positions; no guard on its own arithmetic fires. |
| Planner.AttemptExactly | apps/api/src/local-demo/local-demo-allocation.service.ts:563-587 | Exactly how a round ends, given the reserve and the EVM part as nearest integers: which error, or which attempt. |
| Planner.CandidateExactly | apps/api/src/local-demo/local-demo-allocation.service.ts:588-619 | A round yields a candidate exactly when its estimate covers the new costs by 0 to 3 cents and each ecosystem pays its own way; the reconciliation half of the solvency test never decides. |
| Planner.FixedPointIsFeasible | apps/api/src/local-demo/local-demo-allocation.service.ts:620-622 | When costs equal their estimate the round yields a candidate with residual 0. |
| Planner.BestIndex | apps/api/src/local-demo/local-demo-allocation.service.ts:647-661 | The chosen candidate is the first one that none beats on managed capital, then residual. |
| Planner.BestAbsorbs | apps/api/src/local-demo/local-demo-allocation.service.ts:639-675 | Candidates that were there before do not change the choice. |
| Planner.CycleRepeats | apps/api/src/local-demo/local-demo-allocation.service.ts:623-626 | From a visited cost state on, every further round repeats a candidate already kept and none fails. |
| Planner.EarlyStop | apps/api/src/local-demo/local-demo-allocation.service.ts:620-626 | Stopping at a fixed point or a repeated cost state returns the plan of all 16 rounds. |
| Planner.Attempted | apps/api/src/local-demo/local-demo-allocation.service.ts:563-587 | The allocation half of the loop body depends on the past only through the per-ecosystem cost totals. |
| Planner.ConvergePlan | apps/api/src/local-demo/local-demo-allocation.service.ts:543-631 | The search loop with its three early exits returns, for every input, what running all 16 rounds and choosing the best candidate returns. |
| PlanTheorems.PlanIsSolvent | apps/api/src/local-demo/local-demo-allocation.service.ts:543-675 | Every returned plan is solvent per ecosystem, keeps a residual of 0 to 3 cents, accounts for the gross capital to the cent, reserves the nearest cents to the requested basis points, and carries the costs its own positions are charged; otherwise the error is a planning error and no internal guard. |
| PlanTheorems.PlannedBuckets | apps/api/src/local-demo/local-demo-allocation.service.ts:305-318 | Dividing a plan's capital again gives the plan's own reserve and managed capital, so the preview's check never fails. |
| PlanTheorems.PlanIsBest | apps/api/src/local-demo/local-demo-allocation.service.ts:639-675 | Exactly when the 16 rounds give a plan and with which error they do not; the plan is the first candidate with the most managed capital and, among those, the least residual. |
| PlanTheorems.PlanOfTrace | apps/api/src/local-demo/local-demo-allocation.service.ts:543-631 | There is a sequence of estimates, each the costs of the round before, that ends after 16 rounds, when the estimate reaches the gross capital, or in a failing round; any such sequence decides the outcome: the failing round's error, the first best of its candidates, or that nothing matches. |
| PlanTheorems.FixedPointAlwaysPlans | apps/api/src/local-demo/local-demo-allocation.service.ts:555-631 | If the costs of any of the 16 rounds equal the estimate it started from, a plan is returned. |
| YieldProjection.ProjectionIsConservative | apps/api/src/local-demo/local-demo-allocation.service.ts:1148-1186 | With positive capital the public rate is a multiple of 25 basis points, never above the exact position-weighted yield and less than 25 basis points below it; the annual yield in cents is never above the exact yield. |
| YieldProjection.ProjectionIgnoresScale | apps/api/src/local-demo/local-demo-allocation.service.ts:1148-1165 | The projection depends on the exact yield alone, not on how many digits the rates are written with. |
| YieldProjection.ProjectionNonNegative | apps/api/src/local-demo/local-demo-allocation.service.ts:1166-1185 | Projected rates lie in 0 to 10,000 basis points and projected yields are not negative. |
| YieldProjection.RateLimitExactly | apps/api/src/local-demo/local-demo-allocation.service.ts:1164-1170 | The rate of positive capital is refused exactly when the exact yield reaches 100.01 percent of it. |
| YieldProjection.BreakEvenIsLeastDay | apps/api/src/local-demo/local-demo-allocation.service.ts:1188-1218 | The reported day is the least whole day whose visible yield exceeds the fees, no day of the horizon does when none is reported, and recovery is reported exactly when annual yield after fees is positive. |
| Preview.CompositionMeaning | apps/api/src/local-demo/local-demo-allocation.service.ts:1321-1348 | The public composition of positive managed capital always succeeds, is 10,000 basis points in all, gives EVM the nearest ones and nothing to an empty ecosystem. |
| Preview.CapitalIsSum | apps/api/src/local-demo/local-demo-allocation.service.ts:1288-1304 | The source capital of an ecosystem is what its wallets hold together. |
| Preview.PreviewPlan | apps/api/src/local-demo/local-demo-allocation.service.ts:284-392 | After its input checks the preview succeeds exactly when the search finds a plan whose exact yield stays below 100.01 percent of its capital; it reports the requested reserve and the cents nearest to it, the nearest composition, the projection and break-even day of the plan's positions, and figures that account for every cent, and all later reconciliation throws are unreachable. |
| Preview.PreviewAllocation | apps/api/src/local-demo/local-demo-allocation.service.ts:269-393 | For every portfolio, selection, catalogue and classifier answer: exactly when the preview succeeds, which check fails first, and that a result keeps the requested reserve to the nearest cent, accounts for the gross capital, comes from a sound plan and projects the yield of its positions. |
| IntentLedger.IntentLedger.RemoveIntent | apps/api/src/evm-public-testnet/evm-public-testnet.service.ts:598-605 | Deletes the intent and exactly those ownership entries of its accepted hashes that point at it. |
| IntentLedger.IntentLedger.Prune | apps/api/src/evm-public-testnet/evm-public-testnet.service.ts:566-580 | The pruning loop drops exactly the stored intents past their retention deadline, or past their evidence deadline and untouched. |
| IntentLedger.IntentLedger.RemoveSuperseded | apps/api/src/evm-public-testnet/evm-public-testnet.service.ts:582-596 | The deposit service drops exactly the account's untouched unfunded intents; the withdrawal service drops none. |
| IntentLedger.IntentLedger.AssertCapacity | apps/api/src/evm-public-testnet/evm-public-testnet.service.ts:554-564 | Passes exactly when both caps leave room for one more intent. |
| IntentLedger.IntentLedger.BeginCreate | apps/api/src/evm-public-testnet/evm-public-testnet.service.ts:256-264 | The first stretch of a creation takes the ledger to the state the state machine prescribes. |
| IntentLedger.IntentLedger.FinishCreate | apps/api/src/evm-public-testnet/evm-public-testnet.service.ts:354-360 | The last stretch prunes, supersedes, tests capacity and inserts, in one atomic step; a full ledger inserts nothing. |
| IntentLedger.IntentLedger.VerifySubmission | apps/api/src/evm-public-testnet/evm-public-testnet.service.ts:362-423 | A verification request answers, declares, binds, joins or starts a poll as the state machine prescribes, and changes nothing else. |
| IntentLedger.IntentLedger.Settle | apps/api/src/evm-public-testnet/evm-public-testnet.service.ts:483-527 | The answer of the RPC binds, lands, verifies or fails the intent as prescribed, also when the intent has been dropped meanwhile. |
| IntentLedger.IntentLedger.Release | apps/api/src/evm-public-testnet/evm-public-testnet.service.ts:418-420 | The finally callback ends the verification and clears it from its intent. |
| LedgerInvariants.RemoveKeeps | apps/api/src/evm-public-testnet/evm-public-testnet-withdrawal.service.ts:412-429 | Dropping landed or untouched intents keeps the invariant, and no account's active intents grow. |
| LedgerInvariants.ClearedKeeps | apps/api/src/evm-public-testnet/evm-public-testnet.service.ts:355-356 | Pruning and superseding keep the invariant and leave the account no untouched unfunded deposit intent. |
| LedgerInvariants.FinishCreateKeeps | apps/api/src/evm-public-testnet/evm-public-testnet-withdrawal.service.ts:270-273 | Inserting after the second capacity check keeps the invariant, caps included, whatever happened since the first check. |
| LedgerInvariants.VerifyKeeps | apps/api/src/evm-public-testnet/evm-public-testnet-withdrawal.service.ts:276-322 | A verification request keeps the invariant: ownership, at most one running poll, one outcome. |
| LedgerInvariants.SettleKeeps | apps/api/src/evm-public-testnet/evm-public-testnet-withdrawal.service.ts:324-372 | Any answer of the RPC keeps the invariant, replacement hashes and dropped intents included. |
| LedgerInvariants.ReleaseKeepsRuns | apps/api/src/evm-public-testnet/evm-public-testnet.service.ts:418-420 | The guard of the finally callback always holds: nothing can have replaced the verification meanwhile. |
| LedgerInvariants.StepKeeps | apps/api/src/evm-public-testnet/evm-public-testnet.service.ts:256-605 | Every event keeps the invariant. |
| LedgerTheorems.EveryInterleaving | apps/api/src/evm-public-testnet/evm-public-testnet.service.ts:256-605 | After every interleaving: accepted hashes of stored intents are owned by them alone, an intent has at most one verification running and never both a verified result and a failure, both caps hold, and an account has at most one untouched unfunded deposit intent. |
| LedgerTheorems.RunProgresses | apps/api/src/evm-public-testnet/evm-public-testnet.service.ts:487-526 | Over every continuation accepted sets only grow, landing, retention deadline, verified result and failure are written once, and an un-landed intent with a bound hash or declared recovery is never removed. |
| LedgerTheorems.LandedIsRetained | apps/api/src/evm-public-testnet/evm-public-testnet-withdrawal.service.ts:412-429 | A landed intent stays until a clock reading reaches its retention deadline. |
| LedgerTheorems.OutcomeForEveryAlias | apps/api/src/evm-public-testnet/evm-public-testnet.service.ts:373-393 | A final outcome is the answer to every hash the intent ever accepted, replaced ones included, and to none; any other hash of a bound intent is a conflict. |
| LedgerTheorems.StaleOwnerExactly | apps/api/src/evm-public-testnet/evm-public-testnet.service.ts:487-506 | Exactly which event leaves an ownership entry without a stored owner: the answer to a poll of a dropped intent that names a free hash. |
| LedgerTheorems.StaleOwnersExactly | apps/api/src/evm-public-testnet/evm-public-testnet.service.ts:487-506 | Over every run, all ownership entries point at stored intents exactly when no event of the run is such an answer at its point. |
| LedgerTheorems.StaleIsForGood | apps/api/src/evm-public-testnet/evm-public-testnet.service.ts:373-380 | Whatever follows, an entry without a stored owner is never removed and its hash stays refused to every stored intent. |
| LedgerTheorems.StaleOwnerIsReachable | apps/api/src/evm-public-testnet/evm-public-testnet.service.ts:487-506 | A concrete run from the empty ledger reaches such an entry. |
| LedgerEvents.ClearedExactly | apps/api/src/evm-public-testnet/evm-public-testnet.service.ts:566-605 | A creation drops exactly the landed intents past their retention deadline, the unused ones past their evidence deadline, and in the deposit service the account's unused unfunded ones; an ownership entry goes exactly with its intent. |
| LedgerEvents.CreationExactly | apps/api/src/evm-public-testnet/evm-public-testnet.service.ts:256-360 | A creation is admitted and stored exactly when, after clearing, fewer than 256 intents are stored and fewer than 8 of the account have not landed; the new intent is unused and its evidence deadline is an hour after its clock. |
| LedgerEvents.RequestExactly | apps/api/src/evm-public-testnet/evm-public-testnet.service.ts:362-423 | Exactly how a verification request is answered: refused for a hash of another intent or not among the accepted ones, answered from a final outcome, or recorded; it joins only a verification that polls the hash the intent is bound to, and touches nothing else. |
| LedgerEvents.AnswerExactly | apps/api/src/evm-public-testnet/evm-public-testnet.service.ts:483-527 | Exactly what an RPC answer does: an error nothing, a failure lands the intent for good, a pending observation never replaces a bound hash, a confirmed one lands the intent and keeps it an hour from its first landing, a verified one is its result. |
| LedgerEvents.ReleaseExactly | apps/api/src/evm-public-testnet/evm-public-testnet.service.ts:418-420 | The finally callback forgets the verification and changes nothing else. |
| LedgerEvents.FreshIsRetained | apps/api/src/evm-public-testnet/evm-public-testnet.service.ts:566-596 | While creations prune with clocks before its evidence deadline and no answer carries a clock from before its creation, a stored intent that has not landed stays stored, if it is funded or used, or no deposit creation of its own account follows. |
| Base58.DigitCharIsAlphabet | apps/api/src/local-demo/local-demo-chain.runtime.ts:68 | The digit arithmetic of the model is indexing the 58-character alphabet. |
| Positional.ConvertBack | scripts/production-evidence-bundle.ts:799-851 | Converting digits between bases and back gives the same digits, leading zeros included. |
| Positional.MulAddStored | scripts/production-evidence-bundle.ts:833-842 | One pass of the carry loops takes the digit array of n to that of n times the factor plus the digit. |
| Base58.MultiplyAndAdd | scripts/production-evidence-bundle.ts:829-838 | The two carry loops over one input digit compute that pass. |
| Base58.CarryFits | scripts/production-evidence-bundle.ts:805-813 | The carry stays below the factor and every sum below 2^31, so the 32-bit operators of the source lose nothing. |
| Base58.EncodeBase58 | scripts/production-evidence-bundle.ts:826-851 | The digit-array encoder computes the specification for every byte string. |
| Base58.EncodeBigInteger | apps/api/src/local-demo/local-demo-chain.runtime.ts:671-682 | The big-integer encoder computes the same text for every byte string. |
| Base58.WalletBase58 | apps/api/src/local-demo/local-demo-wallet.service.ts:131-155 | The wallet encoder computes its own specification, which writes a lone zero digit. |
| Base58.DecodeBase58 | scripts/production-evidence-bundle.ts:799-824 | The decoder rejects exactly texts of another length or alphabet and otherwise computes the specification. |
| Base58.DecodeEncode | scripts/production-evidence-bundle.ts:799-851 | Decoding undoes encoding for every byte string. |
| Base58.EncodeDecode | scripts/production-evidence-bundle.ts:864-868 | Encoding undoes decoding for every text over the alphabet, of any length. |
| Base58.KnownText | scripts/production-evidence-bundle.ts:826-851 | A known text: the bytes 0, 255 are written 15Q. |
| Base58.WalletAgreesExactly | apps/api/src/local-demo/local-demo-wallet.service.ts:131-155 | The wallet encoder agrees with the other two exactly on inputs with a nonzero byte. |
| JsonReader.QuotedReads | scripts/production-evidence-bundle.ts:617-619 | A reader of JSON strings, with the escapes of section 7 of RFC 8259, reads the quoted form of any string as that string and leaves what follows it. |
| JsonReader.WriteReads | scripts/production-evidence-bundle.ts:613-638 | A reader of JSON values, with the literal names, arrays, objects and numbers of sections 3 to 6 of RFC 8259, reads the text of any value as that value and leaves what follows it. |
| JsonReader.EscapesExactly | scripts/production-evidence-bundle.ts:617-619 | Exactly which units are escaped: seven have a two-unit escape, other control characters and lone surrogates the six-unit one in lower case, everything else stands for itself. |
| JsonReader.QuotedDetermines | scripts/production-evidence-bundle.ts:617-619 | A quoted string, escapes and lone surrogates included, is determined by the text it starts. |
| JsonReader.WriteDetermines | scripts/production-evidence-bundle.ts:613-638 | A value and what follows it are determined by the text, so no two values have one text. |
| CanonicalJson.LessExactly | scripts/production-evidence-bundle.ts:631 | Keys are ordered by the first code unit in which they differ, a proper prefix first. |
| CanonicalJson.OrderAscends | scripts/production-evidence-bundle.ts:631-632 | Sorted keys ascend by code units and none is left out. |
| CanonicalJson.NormalAgrees | scripts/production-evidence-bundle.ts:630-634 | Sorting keys identifies exactly the values that differ only in key insertion order. |
| CanonicalJson.CanonicalDetermines | scripts/production-evidence-bundle.ts:613-638 | Two values have one canonical text exactly when they differ in nothing but key insertion order. |
| CanonicalJson.OneTextPerValue | scripts/production-evidence-bundle.ts:1719-1720 | Among texts that equal the canonical text of what they parse to, there is one per value. |
| CanonicalJson.AcceptedExactly | scripts/production-evidence-bundle.ts:1719-1720 | Among the texts that parse to a value, exactly its canonical text passes the check. |
| CanonicalJson.CanonicalIsAccepted | scripts/production-evidence-bundle.ts:1719-1720 | The canonical text of any value reads, by the JSON grammar, as the value up to key insertion order, and passes its own check. |
| CanonicalGraph.CanonicalSerializer.Serialize | scripts/public-launch-authority-decision.ts:275-289 | The recursive serializer terminates on every finite graph, returns the canonical text of the value's tree or fails when it has none, and leaves the set of open objects as it found it: on success always, on failure in the launch decision's form. |
| CanonicalGraph.CanonicalSerializer.SerializeArray | scripts/public-launch-authority-decision.ts:253-257 | Elements are written in order and joined; the result is the array's canonical text. |
| CanonicalGraph.CanonicalSerializer.SerializeObject | scripts/production-evidence-bundle.ts:629-634 | Properties are written in key order and joined; the result is the object's canonical text. |
| CanonicalGraph.WalkAvoids | scripts/production-evidence-bundle.ts:624-625 | From a value that serializes, no walk meets an unwritable value or a node it is still inside of. |
| CanonicalGraph.FailureWalk | scripts/production-evidence-bundle.ts:624-625 | From a value that does not serialize there is such a walk. |
| CanonicalGraph.SucceedsExactly | scripts/public-launch-authority-decision.ts:275-289 | Serialization succeeds exactly when no cycle and nothing unwritable is reachable; shared acyclic nodes are allowed. |
| CanonicalGraph.TextsAgree | scripts/production-evidence-bundle.ts:613-638 | Two serializable graphs have one text exactly when the trees they unfold to differ only in key order. |
| CanonicalGraph.TextDenotes | scripts/production-evidence-bundle.ts:613-638 | Read by the JSON grammar, the text of an object graph is the value its arrays and properties denote, up to key insertion order. |
| TextForms.DecimalReadsBack | onchain/src/plan-storage.ts:21-26 | Every number below 10^20 is printed as text the stored-integer pattern accepts and reads back as itself. |
| TextForms.DecimalIsUnique | onchain/src/plan-storage.ts:21-26 | No other text that the pattern accepts reads as the same number. |
| TextForms.DecimalUnfolds | onchain/src/plan-storage.ts:21-26 | Numbers are printed in the usual decimal digits, most significant first. |
| TextForms.HexPlaces | onchain/src/source-plan.ts:125-127 | Every byte is written as two of the usual sixteen digits in its place. |
| TextForms.PairPlaces | onchain/src/cctp-mint.ts:39-45 | Every byte is read from its own two digits. |
| TextForms.HexReadsBack | onchain/src/source-plan.ts:125-127 | Lower-case hexadecimal text reads back as the bytes it was written from. |
| TextForms.HexIsUnique | onchain/src/source-plan.ts:128-130 | Every text of the identifier pattern is the text of the bytes it stands for. |
| SourcePlan.PlatformFee | onchain/src/source-plan.ts:106-113 | The fee of a 64-bit principal never meets the rule's numeric limit and never exceeds the principal. |
| SourcePlan.CreatedIsValid | onchain/src/source-plan.ts:69-150 | Every created plan has valid, checksummed parties, the treasury of its input, amounts within every limit, the nearest-ties-to-even fee, and a deadline within 300 seconds of the clock. |
| SourcePlan.Recreated | onchain/src/source-plan.ts:69-150 | A valid plan is created again from its own fields, its treasuries and any clock within 300 seconds before its deadline. |
| SourcePlan.CreatedExactly | onchain/src/source-plan.ts:69-150 | A plan can be created from some input exactly when its parties and amounts are valid. |
| SourcePlan.CreationExactly | onchain/src/source-plan.ts:69-150 | An input yields a plan exactly when one with these fields exists, and yields that one: per direction the networks, the asset, which addresses are checksummed and which keys must sign, treasury and mint recipient; 20 basis points unless the tier says 12 or 8; and every limit in numbers. |
| SourcePlan.RefusedExactly | onchain/src/source-plan.ts:85-130 | Every other input is refused for the first thing wrong with it. |
| PlanStorage.StoredInputOfPlan | onchain/src/plan-storage.ts:13-39 | What is read off a saved plan is the input the plan would be created from. |
| PlanStorage.RestoresOwn | onchain/src/plan-storage.ts:12-48 | Restoring a saved plan with its treasuries gives the plan back exactly when its deadline is at least 300, and the amount-or-time error otherwise. |
| PlanStorage.RestoresExactly | onchain/src/plan-storage.ts:12-48 | Restoring accepts exactly the records that show a valid plan of these treasuries with deadline at least 300, field by field under its fifteen names, and saving the result gives the record back. |
| PlanStorage.EarlyPlanIsLost | onchain/src/plan-storage.ts:12-48 | A concrete plan that is created at second 0 with deadline 1, saved, and never restored. |
| FixedWidth.ConcatExactly | onchain/src/cctp-mint.ts:82-109 | A byte record is the concatenation of given fields exactly when it shows each of them at its offset and is no longer. |
| CctpMint.Offsets | onchain/src/cctp-mint.ts:88-109 | The offsets in the source are where the 19 fields start, and their widths add up to 412. |
| CctpMint.MatchesExactly | onchain/src/cctp-mint.ts:82-110 | The comparisons accept exactly the one message fixed by plan, deployment, a nonzero nonce, finality at least 2000 and a fee up to the maximum; the minimum-amount comparison never decides. |
| CctpMint.BindExactly | onchain/src/cctp-mint.ts:64-122 | Binding succeeds exactly for valid deployment addresses, an attestation of 1 to 10 signatures, and a message that is the plan's for some permitted nonce, finality and fee. |
| CctpMint.BytesExactly | onchain/src/cctp-mint.ts:82-109 | The comparisons come down to given bytes in each direction: from Ethereum domain 0 then 5, Ethereum's messenger then Solana's, Ethereum's USDC, the router as sender; from Solana 5 then 0, the messengers exchanged, Solana's USDC, the source wallet; in both version, finality and hook bytes, zero caller and expiration, and the plan's amounts, recipient and identifier. |
| CctpMint.BoundExactly | onchain/src/cctp-mint.ts:64-122 | Binding succeeds exactly for those bytes beside 65 to 650 bytes of whole signatures on a complete deployment; the result keeps plan, message, attestation and transmitter and reads nonce and fee off the message. |
| CctpMint.RefusedExactly | onchain/src/cctp-mint.ts:64-122 | Everything else is refused for the first thing wrong with it. |
| CctpMint.BoundConserves | onchain/src/cctp-mint.ts:111-121 | Source debit is received amount, Circle fee and platform fee; the received amount is at least the minimum and the returned nonce is 32 bytes, not all zero. |
| CctpMint.SameFieldsExactly | onchain/src/plan-storage.ts:56-64 | Two messages agree on the fixed fields exactly when they are messages of one plan and deployment. |
| CctpMint.EmittedExactly | onchain/src/plan-storage.ts:51-65 | Beside a bound message, an emitted one passes exactly when it is well formed and a message of the same plan and deployment for any nonce, finality, fee and expiration. |
| MintInstruction.WriteInstructionData | onchain/src/cctp-mint.ts:161-168 | The buffer written in place holds discriminator, length, message, length, attestation. |
| MintInstruction.InstructionLayout | onchain/src/cctp-mint.ts:161-168 | The data shows eight bytes of discriminator, then message and attestation, each behind its length in four little-endian bytes. |
| MintInstruction.DataDetermines | onchain/src/cctp-mint.ts:161-168 | The instruction data determines message and attestation. |
| SourceSubmission.StepKeeps | onchain/src/source-submission.ts:17-39 | Every atomic step of any call keeps the protocol's invariant. |
| SourceSubmission.WalletInvokedOncePerIntent | onchain/src/source-submission.ts:17-39 | In every interleaving of concurrent, failing and crashing calls the wallet is invoked at most once per intent, by the call that holds the reservation. |
| SourceSubmission.OnlyTheReserverRecords | onchain/src/source-submission.ts:31-38 | Only the reserving call records an identifier, the valid one the wallet answered it; an intent has at most one, and a returned identifier is recorded. |
| SourceSubmission.ReservationIsForGood | onchain/src/source-submission.ts:11-16 | Whatever follows, a reservation is neither taken back nor passed on. |
| SourceSubmission.SubmissionHost.SubmitSourceOnce | onchain/src/source-submission.ts:17-39 | An uninterrupted call takes a prefix of the prescribed steps, journal before wallet before record, and returns the wallet's identifier exactly when the intent was free and nothing failed; otherwise exactly which error it ends with, and in every case exactly what it has reserved, sent and recorded. |
| BridgeProgress.NeverBackToSource | onchain/src/source-submission.ts:54-73 | Once a transfer has left the source states no accepted run returns to one. |
| BridgeProgress.EnteredFromExactly | onchain/src/source-submission.ts:58-73 | From which states each state can be entered, and that none enters SOURCE_PENDING. |
| BridgeProgress.TerminalExactly | onchain/src/source-submission.ts:58-71 | Exactly LENT and SOURCE_FAILED have no successor. |
| BridgeProgress.LentStaysReachable | onchain/src/source-submission.ts:58-71 | LENT can be reached from every state except SOURCE_FAILED. |
| BridgeProgress.BoundedWithoutRecovery | onchain/src/source-submission.ts:58-71 | A run without recovery never repeats its start and has at most six steps. |
| FixtureWallets.AssertWallets | apps/api/src/local-demo/local-demo-chain.runtime.ts:571-580 | The loop accepts exactly lists of acceptable wallets without a repeated identifier or identity. |
| FixtureWallets.Allocate | apps/api/src/local-demo/local-demo-chain.runtime.ts:582-595 | Every wallet of the namespace gets its share and no other wallet's amount changes. |
| FixtureWallets.BuildFixtureWallets | apps/api/src/local-demo/local-demo-chain.runtime.ts:563-607 | Sorts the request by identifier; fixtures exist exactly for at most 32 acceptable distinct wallets, each with its share and position in that order. |
| FixtureWallets.RequestOrderIsIgnored | apps/api/src/local-demo/local-demo-chain.runtime.ts:568-570 | Two requests with the same wallets get the same fixtures, in whatever order they list them, as soon as the comparison orders the identifiers of an accepted request. |
| FixtureWallets.SplitIsExactAndEven | apps/api/src/local-demo/local-demo-chain.runtime.ts:582-595 | The wallets of a namespace share its total exactly, earlier ones at most one cent more than later ones. |
| FixtureWallets.FixturesMeaning | apps/api/src/local-demo/local-demo-chain.runtime.ts:563-607 | Fixtures exist exactly for at most 32 acceptable wallets without a repeated identifier or address of a chain: one per wallet, numbered in the order of the identifiers, the EVM wallets with 7,000,000,000 units together and the Solana ones with 4,000,000,000, none more than a cent apart. |
| NodeSeeding.EvmNode.SeedWalletBalances | apps/api/src/local-demo/local-demo-chain.runtime.ts:149-158 | A seeding that reports success gave every wallet its balance on an instance running at some time during the call. |
| NodeSeeding.LocalDemoChainPipeline.SynchronizeWithinNodeInstance | apps/api/src/local-demo/local-demo-chain.runtime.ts:120-225 | A request succeeds exactly when it is valid and its own calls to the node are undisturbed: none fails and both reads give one instance. It then has read the instance, seeded exactly when an EVM address was not known there, observed every wallet on that instance and read it again last; its EVM wallets are marked and seeded on it, new ones with their share of the sorted request. Marked addresses are seeded on the remembered instance through any restarts, and a failure clears what was remembered. |
| NodeSeeding.CalmIsUndisturbed | apps/api/src/local-demo/local-demo-chain.runtime.ts:205-211 | Calls that all succeed while the node does not restart are undisturbed. |
| NodeSeeding.LocalDemoChainPipeline.RunQueue | apps/api/src/local-demo/local-demo-chain.runtime.ts:105-118 | Queued requests and those that arrive meanwhile are served one by one in order. Every call of the node belongs to one request, and its validity and those calls alone decide its outcome, whatever earlier requests did; in particular a valid request without a failed call or restart of its own succeeds. Successes carry the seeding, shares and calls above, and no request reports an older instance than an earlier one. |

## Left out

- HTTP controllers, modules, configuration, RPC clients, Circle's client, file readers and user interfaces: their
  answers are arbitrary inputs of the model.
- Cryptography and chain SDKs: address checks, address bytes, associated token accounts and the instruction
  discriminator are arbitrary functions or values; the checksummed form of an address is assumed to be its own
  checksummed form. The token messenger address on Solana is a field of the modelled deployment.
- The on-chain APY in basis points (`supplyApyBasisPoints`): it is floating point.
- JavaScript descriptors, prototypes, freezing, sparse arrays and the WeakSet brands: a plan that carries a brand is
  one that satisfies `ValidPlan`, which is what creating it guarantees.
- Parsing of decimal rate texts: rates enter as a numerator and a number of fractional digits; the 96-digit limit is
  not modelled.
- Route construction and classification, and the ranking of the yield catalogue: arbitrary functions of the positions.
- Error texts that a type rules out: the per-ecosystem lists are records with one entry each, so the throws for a
  missing ecosystem, amount or bucket have no counterpart. The cost state key is the pair of totals it prints.
- Preview: the 2^53 limit of the effective rate is implied by the 10,000 limit; labels and echoed metadata are omitted.
- JSON numbers are identified with the decimal text the language prints for them, so -0 and 0 are one number. The reader
  takes the longest run of number characters for a number and knows no insignificant whitespace; where a statement is
  about the language's own parser, that is an arbitrary function.
- IntentLedger: one class stands for both services; the response bodies, transaction inputs and the preview binding
  are reduced to identifier, status, hash and an evidence text. Random identifiers are inputs that were not used
  before. Reading a position changes nothing and is not modelled.
- PlanStorage: property names are enumerated, with one constructor for any other name; values are texts or integers.
- SourcePlan: the order in which properties are listed is not modelled, and malformed base58 is an invalid address.
- CctpMint: the lists of accounts of the mint instructions and the Ethereum call data are not modelled.
- SourceSubmission: a readiness test is its answer; the fingerprint is checked for its form and otherwise unused.
- FixtureWallets: the comparison of texts is arbitrary, required only to order the identifiers of an accepted
  request, and the check of a single wallet is arbitrary.
- NodeSeeding: observations, checkpoints, jobs and metrics are reduced to whether a wallet's synchronization succeeds.
  Instances are numbered in the order in which they start, which stands for identifiers that never repeat.
- Field-by-field evidence validators and destination lending: one-branch conditions that would only add
  easy members.
