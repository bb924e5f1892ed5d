/**
 The intent ledger as a state machine on values. One event is one stretch of a request between two
 `await`s; the RPC's answers and all clock readings are arbitrary event arguments.
 */
module LedgerSpec {
  import opened Wrappers

  type AccountId = string
  type IntentId = string
  type Hash = string

  /** The deposit service supersedes untouched unfunded intents; its withdrawal twin does not. */
  datatype Kind = Deposit | Withdrawal

  datatype Status = PENDING | CONFIRMED | VERIFIED
  datatype Failure = REPLACED | REVERTED

  datatype Observation = Observation(status: Status, transactionHash: Option<Hash>, evidence: string)

  datatype Answer = Observed(observation: Observation) | TransactionFailed(failure: Failure) | RpcFailed

  datatype Response = Response(intentId: IntentId, status: Status, transactionHash: Option<Hash>, evidence: string, consumed: bool)

  /** The running verification of an intent: the hash it polls, if any, and its promise. */
  datatype InFlight = InFlight(key: Option<Hash>, run: nat)

  datatype Intent = Intent(
    account: AccountId,
    funded: bool,
    evidenceDeadline: int,
    accepted: set<Hash>,
    transactionHash: Option<Hash>,
    recoveryAttempted: bool,
    landed: bool,
    retentionDeadline: Option<int>,
    terminalFailure: Option<Failure>,
    inFlight: Option<InFlight>,
    verified: Option<Response>)

  datatype Phase = Awaiting | Settling

  /** A verification that has not finished: it waits for the RPC, or only for its `finally` step. */
  datatype Run = Run(intentId: IntentId, hash: Option<Hash>, phase: Phase)

  /**
   `objects` holds every intent ever created, because a verification keeps its intent alive after the
   ledger has dropped it; `stored` are the keys of the `intents` map and `owners` is `transactionIntents`.
   */
  datatype Ledger = Ledger(
    objects: map<IntentId, Intent>,
    stored: set<IntentId>,
    owners: map<Hash, IntentId>,
    runs: map<nat, Run>)

  const EMPTY := Ledger(map[], {}, map[], map[])

  const RETENTION_MILLISECONDS := 3_600_000
  const MAX_INTENTS := 256
  const MAX_ACTIVE_PER_ACCOUNT := 8

  predicate Touched(i: Intent) {
    i.transactionHash.Some? || i.recoveryAttempted
  }

  predicate Removable(i: Intent, now: int) {
    || (i.retentionDeadline.Some? && i.retentionDeadline.value <= now)
    || (i.retentionDeadline.None? && i.evidenceDeadline <= now && !Touched(i))
  }

  predicate UntouchedUnfunded(i: Intent, account: AccountId) {
    i.account == account && !i.funded && !Touched(i)
  }

  predicate WellStored(l: Ledger) {
    l.stored <= l.objects.Keys
  }

  /** Drops intents and the ownership entries of their accepted hashes. */
  function Remove(l: Ledger, ids: set<IntentId>): Ledger
    requires ids <= l.objects.Keys
  {
    l.(stored := l.stored - ids,
       owners := map h | h in l.owners && !(l.owners[h] in ids && h in l.objects[l.owners[h]].accepted) :: l.owners[h])
  }

  function Prunable(l: Ledger, now: int): (r: set<IntentId>)
    requires WellStored(l)
    ensures r <= l.stored
  {
    set id | id in l.stored && Removable(l.objects[id], now)
  }

  function Prune(l: Ledger, now: int): (r: Ledger)
    requires WellStored(l)
    ensures WellStored(r) && r.objects == l.objects && r.runs == l.runs
  {
    Remove(l, Prunable(l, now))
  }

  function Supersedable(l: Ledger, account: AccountId): (r: set<IntentId>)
    requires WellStored(l)
    ensures r <= l.stored
  {
    set id | id in l.stored && UntouchedUnfunded(l.objects[id], account)
  }

  function Supersede(kind: Kind, l: Ledger, account: AccountId): (r: Ledger)
    requires WellStored(l)
    ensures WellStored(r) && r.objects == l.objects && r.runs == l.runs
  {
    if kind == Deposit then Remove(l, Supersedable(l, account)) else l
  }

  function Active(l: Ledger, account: AccountId): set<IntentId>
    requires WellStored(l)
  {
    set id | id in l.stored && l.objects[id].account == account && !l.objects[id].landed
  }

  predicate HasCapacity(l: Ledger, account: AccountId)
    requires WellStored(l)
  {
    |l.stored| < MAX_INTENTS && |Active(l, account)| < MAX_ACTIVE_PER_ACCOUNT
  }

  function Cleared(kind: Kind, l: Ledger, account: AccountId, now: int): (r: Ledger)
    requires WellStored(l)
    ensures WellStored(r) && r.objects == l.objects && r.runs == l.runs
  {
    Supersede(kind, Prune(l, now), account)
  }

  function NewIntent(account: AccountId, funded: bool, now: int): Intent {
    Intent(account, funded, now + RETENTION_MILLISECONDS, {}, None, false, false, None, None, None, None)
  }

  datatype Reply =
    | Admitted
    | CapacityError
    | Created
    | NotFound
    | Conflict
    | FailedWith(failure: Failure)
    | Cached(response: Response)
    | Joined(run: nat)
    | Started(run: nat)
    | Answered(response: Response)
    | RpcError
    | Ignored

  datatype Event =
    | BeginCreate(account: AccountId, now: int)
    | FinishCreate(account: AccountId, id: IntentId, funded: bool, now: int, pruneNow: int)
    | Verify(account: AccountId, id: IntentId, hash: Option<Hash>, run: nat)
    | Settle(run: nat, answer: Answer, now: int)
    | Release(run: nat)

  // ---------------------------------------------------------------------------------------------
  // Creating an intent
  // ---------------------------------------------------------------------------------------------

  /** Up to the first `await` of a creation. */
  function BeginCreateStep(kind: Kind, l: Ledger, account: AccountId, now: int): (Ledger, Reply)
    requires WellStored(l)
  {
    var cleared := Cleared(kind, l, account, now);
    (cleared, if HasCapacity(cleared, account) then Admitted else CapacityError)
  }

  /** After the last `await` of a creation; `id` is a random UUID, never issued before. */
  function FinishCreateStep(kind: Kind, l: Ledger, account: AccountId, id: IntentId, funded: bool, now: int, pruneNow: int)
    : (Ledger, Reply)
    requires WellStored(l)
  {
    if id in l.objects then (l, Ignored)
    else
      var cleared := Cleared(kind, l, account, pruneNow);
      if HasCapacity(cleared, account) then
        (cleared.(objects := cleared.objects[id := NewIntent(account, funded, now)], stored := cleared.stored + {id}), Created)
      else (cleared, CapacityError)
  }

  // ---------------------------------------------------------------------------------------------
  // Verifying a submission
  // ---------------------------------------------------------------------------------------------

  /** A supplied hash belongs to another intent, or is not an accepted alias of a bound one. */
  predicate HashConflicts(l: Ledger, id: IntentId, hash: Option<Hash>)
    requires id in l.objects
  {
    hash.Some? &&
    (|| (hash.value in l.owners && l.owners[hash.value] != id)
     || (l.objects[id].transactionHash.Some? && hash.value !in l.objects[id].accepted))
  }

  /** Records the recovery declaration, or binds the first hash. */
  function Declared(i: Intent, hash: Option<Hash>): Intent {
    if hash.None? then i.(recoveryAttempted := true)
    else if i.transactionHash.None? then i.(transactionHash := hash, accepted := i.accepted + {hash.value})
    else i
  }

  function DeclaredOwners(owners: map<Hash, IntentId>, i: Intent, id: IntentId, hash: Option<Hash>): map<Hash, IntentId> {
    if hash.Some? && i.transactionHash.None? then owners[hash.value := id] else owners
  }

  function VerifyStep(l: Ledger, account: AccountId, id: IntentId, hash: Option<Hash>, run: nat): (Ledger, Reply)
    requires WellStored(l)
  {
    if id !in l.stored || l.objects[id].account != account then (l, NotFound)
    else
      var i := l.objects[id];
      if HashConflicts(l, id, hash) then (l, Conflict)
      else if i.terminalFailure.Some? then (l, FailedWith(i.terminalFailure.value))
      else if i.verified.Some? then (l, Cached(i.verified.value))
      else
        var declared := Declared(i, hash);
        var owners := DeclaredOwners(l.owners, i, id, hash);
        var key := declared.transactionHash;
        if declared.inFlight.Some? then
          (l.(objects := l.objects[id := declared], owners := owners),
           if declared.inFlight.value.key == key then Joined(declared.inFlight.value.run) else Conflict)
        else if run in l.runs then (l, Ignored)
        else
          (l.(objects := l.objects[id := declared.(inFlight := Some(InFlight(key, run)))],
              owners := owners,
              runs := l.runs[run := Run(id, key, Awaiting)]),
           Started(run))
  }

  // ---------------------------------------------------------------------------------------------
  // The RPC answers
  // ---------------------------------------------------------------------------------------------

  function ResponseOf(id: IntentId, o: Observation): Response {
    Response(id, o.status, o.transactionHash, o.evidence, o.status != PENDING)
  }

  /** The observation names a hash the intent is not currently bound to. */
  predicate Rebinds(i: Intent, o: Observation) {
    o.transactionHash.Some? && o.transactionHash != i.transactionHash
  }

  predicate RebindRefused(l: Ledger, id: IntentId, i: Intent, o: Observation) {
    Rebinds(i, o) &&
    (|| (i.transactionHash.Some? && o.status == PENDING)
     || (o.transactionHash.value in l.owners && l.owners[o.transactionHash.value] != id))
  }

  function Rebound(i: Intent, o: Observation): Intent {
    if Rebinds(i, o) then
      i.(transactionHash := o.transactionHash,
         accepted := i.accepted + {o.transactionHash.value}
                     + if i.transactionHash.Some? then {i.transactionHash.value} else {})
    else i
  }

  function Landed(i: Intent, now: int): Intent {
    i.(landed := true,
       retentionDeadline := if i.retentionDeadline.Some? then i.retentionDeadline else Some(now + RETENTION_MILLISECONDS))
  }

  function Absorbed(id: IntentId, i: Intent, o: Observation, now: int): Intent {
    var rebound := Rebound(i, o);
    var marked := if o.status != PENDING then Landed(rebound, now) else rebound;
    if o.status == VERIFIED then marked.(verified := Some(ResponseOf(id, o))) else marked
  }

  function SettleStep(l: Ledger, run: nat, answer: Answer, now: int): (Ledger, Reply) {
    if run !in l.runs || l.runs[run].phase != Awaiting || l.runs[run].intentId !in l.objects then (l, Ignored)
    else
      var id := l.runs[run].intentId;
      var i := l.objects[id];
      var settled := l.(runs := l.runs[run := l.runs[run].(phase := Settling)]);
      match answer
      case RpcFailed => (settled, RpcError)
      case TransactionFailed(f) =>
        (settled.(objects := l.objects[id := Landed(i.(terminalFailure := Some(f)), now)]), FailedWith(f))
      case Observed(o) =>
        if RebindRefused(l, id, i, o) then (settled, Conflict)
        else
          (settled.(objects := l.objects[id := Absorbed(id, i, o, now)],
                    owners := if Rebinds(i, o) then l.owners[o.transactionHash.value := id] else l.owners),
           Answered(ResponseOf(id, o)))
  }

  /** The `finally` step: the intent forgets this verification, unless another has taken its place. */
  function ReleaseStep(l: Ledger, run: nat): (Ledger, Reply) {
    if run !in l.runs || l.runs[run].phase != Settling || l.runs[run].intentId !in l.objects then (l, Ignored)
    else
      var id := l.runs[run].intentId;
      var i := l.objects[id];
      var released := if i.inFlight.Some? && i.inFlight.value.run == run then i.(inFlight := None) else i;
      (l.(objects := l.objects[id := released], runs := l.runs - {run}), Ignored)
  }

  function Step(kind: Kind, l: Ledger, e: Event): (Ledger, Reply)
    requires WellStored(l)
  {
    match e
    case BeginCreate(account, now) => BeginCreateStep(kind, l, account, now)
    case FinishCreate(account, id, funded, now, pruneNow) => FinishCreateStep(kind, l, account, id, funded, now, pruneNow)
    case Verify(account, id, hash, run) => VerifyStep(l, account, id, hash, run)
    case Settle(run, answer, now) => SettleStep(l, run, answer, now)
    case Release(run) => ReleaseStep(l, run)
  }
}
