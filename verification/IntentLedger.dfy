/**
 The intent ledger as the services keep it: mutable intents, the `intents` map and the hash ownership map.
 One class serves both services; `kind` says whether creating an intent supersedes untouched unfunded ones.
 Each method is one stretch between `await`s and takes the ledger to the state `LedgerSpec` prescribes.
 */
module IntentLedger {
  import opened Wrappers
  import opened LedgerSpec

  class StoredIntent {
    const intentId: IntentId
    const account: AccountId
    const funded: bool
    const evidenceDeadline: int
    var acceptedTransactionHashes: set<Hash>
    var transactionHash: Option<Hash>
    var recoveryAttempted: bool
    var landed: bool
    var retentionDeadline: Option<int>
    var terminalFailure: Option<Failure>
    var inFlight: Option<InFlight>
    var verified: Option<Response>

    constructor (intentId: IntentId, account: AccountId, funded: bool, now: int)
      ensures this.intentId == intentId && View() == NewIntent(account, funded, now)
    {
      this.intentId, this.account, this.funded := intentId, account, funded;
      this.evidenceDeadline := now + RETENTION_MILLISECONDS;
      acceptedTransactionHashes, transactionHash, recoveryAttempted, landed := {}, None, false, false;
      retentionDeadline, terminalFailure, inFlight, verified := None, None, None, None;
    }

    function View(): Intent
      reads this
    {
      Intent(account, funded, evidenceDeadline, acceptedTransactionHashes, transactionHash, recoveryAttempted,
             landed, retentionDeadline, terminalFailure, inFlight, verified)
    }
  }

  /** A verification under way; it keeps its intent reachable after the ledger has dropped it. */
  datatype Verification = Verification(intent: StoredIntent, hash: Option<Hash>, phase: Phase)

  lemma RemoveNone(l: Ledger)
    ensures Remove(l, {}) == l
  {
  }

  lemma RemoveAnother(l: Ledger, ids: set<IntentId>, id: IntentId)
    requires ids <= l.objects.Keys && id in l.objects
    ensures Remove(Remove(l, ids), {id}) == Remove(l, ids + {id})
  {
    var one, both := Remove(Remove(l, ids), {id}), Remove(l, ids + {id});
    assert one.stored == both.stored;
    assert one.owners == both.owners;
  }

  class IntentLedger {
    const kind: Kind
    const enabled: bool
    var intents: map<IntentId, StoredIntent>
    var transactionIntents: map<Hash, IntentId>
    var verifications: map<nat, Verification>
    ghost var created: map<IntentId, StoredIntent>

    constructor (kind: Kind, enabled: bool)
      ensures Valid() && fresh(created.Values) && State() == EMPTY
      ensures this.kind == kind && this.enabled == enabled
    {
      this.kind, this.enabled := kind, enabled;
      intents, transactionIntents, verifications, created := map[], map[], map[], map[];
    }

    ghost predicate Valid()
      reads this
    {
      && (forall id :: id in intents ==> id in created && created[id] == intents[id])
      && (forall id :: id in created ==> created[id].intentId == id)
      && (forall r :: r in verifications ==>
            var id := verifications[r].intent.intentId; id in created && created[id] == verifications[r].intent)
    }

    ghost function Objects(): map<IntentId, Intent>
      reads this`created, created.Values
    {
      map id | id in created :: created[id].View()
    }

    ghost function Runs(): map<nat, Run>
      reads this`verifications
    {
      map r | r in verifications ::
        Run(verifications[r].intent.intentId, verifications[r].hash, verifications[r].phase)
    }

    ghost function State(): (l: Ledger)
      reads this`created, this`intents, this`transactionIntents, this`verifications, created.Values
    {
      Ledger(Objects(), intents.Keys, transactionIntents, Runs())
    }

    lemma ObjectAt(id: IntentId)
      requires Valid()
      ensures WellStored(State())
      ensures id in created ==> id in Objects() && Objects()[id] == created[id].View()
    {
    }

    /** Changing one intent changes one object of the state. */
    twostate lemma OneObject(intent: StoredIntent)
      requires old(Valid()) && created == old(created)
      requires intent.intentId in created && created[intent.intentId] == intent
      requires forall id :: id in created && id != intent.intentId ==> unchanged(created[id])
      ensures Objects() == old(Objects())[intent.intentId := intent.View()]
    {
    }

    twostate lemma RunGone(run: nat)
      requires verifications == old(verifications) - {run}
      ensures Runs() == old(Runs()) - {run}
    {
    }

    method RemoveIntent(intentId: IntentId, intent: StoredIntent)
      requires Valid() && intentId in intents && intents[intentId] == intent
      modifies this`intents, this`transactionIntents
      ensures Valid() && intents == old(intents) - {intentId}
      ensures WellStored(old(State())) && intentId in old(State()).objects
      ensures State() == Remove(old(State()), {intentId})
    {
      hide Objects, Runs;
      ObjectAt(intentId);
      intents := intents - {intentId};
      var rest := intent.acceptedTransactionHashes;
      while rest != {}
        invariant rest <= intent.acceptedTransactionHashes && intents == old(intents) - {intentId}
        invariant transactionIntents == map h | h in old(transactionIntents)
          && !(old(transactionIntents)[h] == intentId && h in intent.acceptedTransactionHashes && h !in rest)
          :: old(transactionIntents)[h]
        decreases rest
      {
        var hash :| hash in rest;
        if hash in transactionIntents && transactionIntents[hash] == intentId {
          transactionIntents := transactionIntents - {hash};
        }
        rest := rest - {hash};
      }
      assert transactionIntents == Remove(old(State()), {intentId}).owners;
    }

    method Prune(now: int)
      requires Valid()
      modifies this`intents, this`transactionIntents
      ensures Valid() && WellStored(old(State())) && State() == LedgerSpec.Prune(old(State()), now)
    {
      hide Objects, Runs, Removable, LedgerSpec.Remove;
      ghost var start := State();
      ghost var removed: set<IntentId> := {};
      RemoveNone(start);
      ObjectAt("");
      var todo := intents.Keys;
      while todo != {}
        invariant Valid() && todo <= intents.Keys && removed <= start.stored && removed !! todo
        invariant forall id :: id in start.stored && id !in todo ==> (id in removed <==> Removable(start.objects[id], now))
        invariant State() == LedgerSpec.Remove(start, removed)
        decreases todo
      {
        var id :| id in todo;
        ObjectAt(id);
        if Removable(intents[id].View(), now) {
          RemoveIntent(id, intents[id]);
          RemoveAnother(start, removed, id);
          removed := removed + {id};
        }
        todo := todo - {id};
      }
      assert removed == Prunable(start, now);
    }

    method RemoveSuperseded(account: AccountId)
      requires Valid()
      modifies this`intents, this`transactionIntents
      ensures Valid() && WellStored(old(State())) && State() == Supersede(kind, old(State()), account)
    {
      hide Objects, Runs, UntouchedUnfunded, LedgerSpec.Remove;
      ObjectAt("");
      if kind == Withdrawal {
        return;
      }
      ghost var start := State();
      ghost var removed: set<IntentId> := {};
      RemoveNone(start);
      var todo := intents.Keys;
      while todo != {}
        invariant Valid() && todo <= intents.Keys && removed <= start.stored && removed !! todo
        invariant forall id :: id in start.stored && id !in todo ==>
          (id in removed <==> UntouchedUnfunded(start.objects[id], account))
        invariant State() == LedgerSpec.Remove(start, removed)
        decreases todo
      {
        var id :| id in todo;
        ObjectAt(id);
        if UntouchedUnfunded(intents[id].View(), account) {
          RemoveIntent(id, intents[id]);
          RemoveAnother(start, removed, id);
          removed := removed + {id};
        }
        todo := todo - {id};
      }
      assert removed == Supersedable(start, account);
    }

    method AssertCapacity(account: AccountId) returns (ok: bool)
      requires Valid()
      ensures WellStored(State()) && ok == HasCapacity(State(), account)
    {
      var active := set id | id in intents && intents[id].account == account && !intents[id].landed;
      assert active == Active(State(), account);
      ok := |intents.Keys| < MAX_INTENTS && |active| < MAX_ACTIVE_PER_ACCOUNT;
    }

    /** `createIntent` up to its first `await`. */
    method BeginCreate(account: AccountId, now: int) returns (reply: Reply)
      requires Valid()
      modifies this`intents, this`transactionIntents
      ensures Valid() && WellStored(old(State()))
      ensures enabled ==> (State(), reply) == BeginCreateStep(kind, old(State()), account, now)
      ensures !enabled ==> State() == old(State()) && reply == NotFound
    {
      ObjectAt("");
      if !enabled {
        return NotFound;
      }
      hide Cleared, HasCapacity, Objects, Runs;
      Clear(account, now);
      var ok := AssertCapacity(account);
      reply := if ok then Admitted else CapacityError;
    }

    /** `createIntent` after its last `await`; no `await` comes between the capacity check and the insertion. */
    method FinishCreate(account: AccountId, intentId: IntentId, funded: bool, now: int, pruneNow: int)
      returns (reply: Reply)
      requires Valid() && intentId !in created
      modifies this
      ensures Valid() && fresh(created.Values - old(created.Values)) && WellStored(old(State()))
      ensures (State(), reply) == FinishCreateStep(kind, old(State()), account, intentId, funded, now, pruneNow)
    {
      hide Cleared, HasCapacity, Objects, Runs;
      ObjectAt(intentId);
      ObjectKeys();
      var stored := new StoredIntent(intentId, account, funded, now);
      Clear(account, pruneNow);
      var ok := AssertCapacity(account);
      if !ok {
        return CapacityError;
      }
      Insert(intentId, stored);
      return Created;
    }

    lemma ObjectKeys()
      ensures Objects().Keys == created.Keys
    {
    }

    method Insert(intentId: IntentId, stored: StoredIntent)
      requires Valid() && intentId !in created && stored.intentId == intentId
      modifies this`intents, this`created
      ensures Valid() && created == old(created)[intentId := stored]
      ensures State() == old(State()).(objects := old(State()).objects[intentId := stored.View()],
                                       stored := old(State()).stored + {intentId})
    {
      hide Runs;
      ghost var before := Objects();
      intents := intents[intentId := stored];
      created := created[intentId := stored];
      assert Objects() == before[intentId := stored.View()];
    }

    method Clear(account: AccountId, now: int)
      requires Valid()
      modifies this`intents, this`transactionIntents
      ensures Valid() && WellStored(old(State())) && State() == Cleared(kind, old(State()), account, now)
    {
      hide LedgerSpec.Prune, Supersede, Objects, Runs;
      Prune(now);
      RemoveSuperseded(account);
    }

    /** Records a declared recovery, or binds the first hash. */
    method Declare(intentId: IntentId, intent: StoredIntent, hash: Option<Hash>)
      modifies this`transactionIntents, intent
      ensures intent.View() == Declared(old(intent.View()), hash)
      ensures intent.inFlight == old(intent.inFlight)
      ensures transactionIntents == DeclaredOwners(old(transactionIntents), old(intent.View()), intentId, hash)
    {
      if hash.None? {
        intent.recoveryAttempted := true;
      }
      if hash.Some? {
        if intent.transactionHash.None? {
          intent.transactionHash := hash;
          intent.acceptedTransactionHashes := intent.acceptedTransactionHashes + {hash.value};
          transactionIntents := transactionIntents[hash.value := intentId];
        }
      }
    }

    /** The checks of `verifySubmission` that answer without touching the intent. */
    method AnswerAtOnce(account: AccountId, intentId: IntentId, hash: Option<Hash>) returns (reply: Option<Reply>)
      requires Valid()
      ensures WellStored(State())
      ensures reply.None? ==>
        && intentId in intents && intents[intentId].account == account
        && intents[intentId].terminalFailure.None? && intents[intentId].verified.None?
        && intentId in State().objects && !HashConflicts(State(), intentId, hash)
      ensures reply.Some? ==>
        forall run :: VerifyStep(State(), account, intentId, hash, run) == (State(), reply.value)
    {
      hide Objects, Runs;
      ObjectAt(intentId);
      if intentId !in intents || intents[intentId].account != account {
        return Some(NotFound);
      }
      var intent := intents[intentId];
      if hash.Some? {
        if hash.value in transactionIntents && transactionIntents[hash.value] != intentId {
          return Some(Conflict);
        }
        if intent.transactionHash.Some? && hash.value !in intent.acceptedTransactionHashes {
          return Some(Conflict);
        }
      }
      if intent.terminalFailure.Some? {
        return Some(FailedWith(intent.terminalFailure.value));
      }
      if intent.verified.Some? {
        return Some(Cached(intent.verified.value));
      }
      return None;
    }

    /** `verifySubmission`, up to the `await` of the verification it starts or joins. */
    method VerifySubmission(account: AccountId, intentId: IntentId, hash: Option<Hash>, run: nat) returns (reply: Reply)
      requires Valid() && run !in verifications
      modifies this`transactionIntents, this`verifications, created.Values
      ensures Valid() && WellStored(old(State()))
      ensures enabled ==> (State(), reply) == VerifyStep(old(State()), account, intentId, hash, run)
      ensures !enabled ==> State() == old(State()) && reply == NotFound
    {
      hide Objects, Runs, Declared, DeclaredOwners, HashConflicts;
      ObjectAt(intentId);
      if !enabled {
        return NotFound;
      }
      var answer := AnswerAtOnce(account, intentId, hash);
      if answer.Some? {
        return answer.value;
      }
      reply := PollOrJoin(intents[intentId], intentId, hash, run);
    }

    method Start(intent: StoredIntent, key: Option<Hash>, run: nat)
      modifies this`verifications, intent`inFlight
      ensures intent.inFlight == Some(InFlight(key, run))
      ensures verifications == old(verifications)[run := Verification(intent, key, Awaiting)]
      ensures Runs() == old(Runs())[run := Run(intent.intentId, key, Awaiting)]
    {
      intent.inFlight := Some(InFlight(key, run));
      verifications := verifications[run := Verification(intent, key, Awaiting)];
    }

    method PollOrJoin(intent: StoredIntent, intentId: IntentId, hash: Option<Hash>, run: nat) returns (reply: Reply)
      requires Valid() && run !in verifications
      requires intentId in intents && intents[intentId] == intent && WellStored(State()) && intentId in State().objects
      requires intent.terminalFailure.None? && intent.verified.None? && !HashConflicts(State(), intentId, hash)
      modifies this`transactionIntents, this`verifications, created.Values
      ensures Valid() && WellStored(old(State()))
      ensures (State(), reply) == VerifyStep(old(State()), intent.account, intentId, hash, run)
    {
      hide Objects, Runs, Declared, DeclaredOwners, HashConflicts;
      ObjectAt(intentId);
      RunKeys();
      Declare(intentId, intent, hash);
      var key := intent.transactionHash;
      if intent.inFlight.Some? {
        reply := if intent.inFlight.value.key != key then Conflict else Joined(intent.inFlight.value.run);
      } else {
        Start(intent, key, run);
        reply := Started(run);
      }
      OneObject(intent);
    }

    lemma RunKeys()
      ensures Runs().Keys == verifications.Keys
    {
    }

    method MarkSettling(run: nat)
      requires run in verifications
      modifies this`verifications
      ensures verifications == old(verifications)[run := old(verifications)[run].(phase := Settling)]
      ensures run in old(Runs()) && Runs() == old(Runs())[run := old(Runs())[run].(phase := Settling)]
    {
      verifications := verifications[run := verifications[run].(phase := Settling)];
    }

    /** `performVerification` from the RPC's answer to its end. */
    method Settle(run: nat, answer: Answer, now: int) returns (reply: Reply)
      requires Valid() && run in verifications && verifications[run].phase == Awaiting
      modifies this`transactionIntents, this`verifications, created.Values
      ensures Valid()
      ensures (State(), reply) == SettleStep(old(State()), run, answer, now)
    {
      hide Objects, Runs, Absorbed, Landed;
      var intent := verifications[run].intent;
      ObjectAt(intent.intentId);
      RunAt(run);
      MarkSettling(run);
      match answer {
        case RpcFailed =>
          return RpcError;
        case TransactionFailed(failure) =>
          intent.terminalFailure := Some(failure);
          MarkLanded(intent, now);
          OneObject(intent);
          return FailedWith(failure);
        case Observed(o) =>
          reply := Absorb(intent, o, now);
          OneObject(intent);
          assert old(Objects())[intent.intentId := old(intent.View())] == old(Objects());
      }
    }

    lemma RunAt(run: nat)
      requires run in verifications
      ensures run in Runs()
      ensures Runs()[run] == Run(verifications[run].intent.intentId, verifications[run].hash, verifications[run].phase)
    {
    }

    /** What an observation does to the intent, unless its hash is refused. */
    method Absorb(intent: StoredIntent, o: Observation, now: int) returns (reply: Reply)
      requires Valid() && intent.intentId in created && created[intent.intentId] == intent
      modifies this`transactionIntents, intent
      ensures var refused := RebindRefused(old(State()), intent.intentId, old(intent.View()), o);
        && reply == (if refused then Conflict else Answered(ResponseOf(intent.intentId, o)))
        && intent.View() == (if refused then old(intent.View()) else Absorbed(intent.intentId, old(intent.View()), o, now))
        && transactionIntents ==
             if !refused && Rebinds(old(intent.View()), o)
             then old(transactionIntents)[o.transactionHash.value := intent.intentId] else old(transactionIntents)
    {
      hide RebindRefused, Rebound, Landed, Objects, Runs;
      var refused := Rebind(intent, o);
      if refused {
        return Conflict;
      }
      if o.status != PENDING {
        MarkLanded(intent, now);
      }
      if o.status == VERIFIED {
        intent.verified := Some(ResponseOf(intent.intentId, o));
      }
      return Answered(ResponseOf(intent.intentId, o));
    }

    method MarkLanded(intent: StoredIntent, now: int)
      modifies intent`landed, intent`retentionDeadline
      ensures intent.View() == Landed(old(intent.View()), now)
    {
      intent.landed := true;
      if intent.retentionDeadline.None? {
        intent.retentionDeadline := Some(now + RETENTION_MILLISECONDS);
      }
    }

    /** Moves the intent to an observed replacement hash and keeps the previous one as an accepted alias. */
    method Rebind(intent: StoredIntent, o: Observation) returns (refused: bool)
      requires Valid() && intent.intentId in created && created[intent.intentId] == intent
      modifies this`transactionIntents, intent`transactionHash, intent`acceptedTransactionHashes
      ensures refused == RebindRefused(old(State()), intent.intentId, old(intent.View()), o)
      ensures intent.View() == if refused then old(intent.View()) else Rebound(old(intent.View()), o)
      ensures transactionIntents ==
        if !refused && Rebinds(old(intent.View()), o) then old(transactionIntents)[o.transactionHash.value := intent.intentId]
        else old(transactionIntents)
    {
      if o.transactionHash.None? || o.transactionHash == intent.transactionHash {
        return false;
      }
      if intent.transactionHash.Some? && o.status == PENDING {
        return true;
      }
      var observed := o.transactionHash.value;
      if observed in transactionIntents && transactionIntents[observed] != intent.intentId {
        return true;
      }
      var previousHash := intent.transactionHash;
      intent.transactionHash := o.transactionHash;
      intent.acceptedTransactionHashes := intent.acceptedTransactionHashes + {observed};
      transactionIntents := transactionIntents[observed := intent.intentId];
      if previousHash.Some? {
        intent.acceptedTransactionHashes := intent.acceptedTransactionHashes + {previousHash.value};
      }
      return false;
    }

    /** The `finally` callback of a verification. */
    method Release(run: nat)
      requires Valid() && run in verifications && verifications[run].phase == Settling
      modifies this`verifications, created.Values
      ensures Valid()
      ensures State() == ReleaseStep(old(State()), run).0
    {
      hide Objects, Runs;
      var intent := verifications[run].intent;
      ObjectAt(intent.intentId);
      RunAt(run);
      if intent.inFlight.Some? && intent.inFlight.value.run == run {
        intent.inFlight := None;
      }
      verifications := verifications - {run};
      OneObject(intent);
      RunGone(run);
    }
  }
}
