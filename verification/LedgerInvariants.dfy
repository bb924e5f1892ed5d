/** What every event keeps, and so what every interleaving of requests keeps. */
module LedgerInvariants {
  import opened Wrappers
  import opened Sequences
  import opened LedgerSpec

  // ---------------------------------------------------------------------------------------------
  // The invariant
  // ---------------------------------------------------------------------------------------------

  /** Local facts of one intent: at most one terminal outcome, and only on a landed, touched intent. */
  predicate IntentOk(i: Intent) {
    && (i.transactionHash.Some? ==> i.transactionHash.value in i.accepted)
    && (i.transactionHash.None? ==> i.accepted == {})
    && (i.landed <==> i.retentionDeadline.Some?)
    && (i.verified.Some? || i.terminalFailure.Some? ==> i.landed)
    && !(i.verified.Some? && i.terminalFailure.Some?)
    && (i.inFlight.Some? || i.landed ==> Touched(i))
  }

  /** A dropped intent either landed or was never touched. */
  ghost predicate IntentsOk(l: Ledger) {
    && WellStored(l)
    && (forall id :: id in l.objects ==> IntentOk(l.objects[id]))
    && (forall id :: id in l.objects && id !in l.stored ==> l.objects[id].landed || !Touched(l.objects[id]))
  }

  ghost predicate AcceptedAreOwned(l: Ledger) {
    WellStored(l) && forall id, h :: id in l.stored && h in l.objects[id].accepted ==> h in l.owners && l.owners[h] == id
  }

  ghost predicate OwnersAccept(l: Ledger) {
    forall h :: h in l.owners ==> l.owners[h] in l.objects && h in l.objects[l.owners[h]].accepted
  }

  /** One running verification per intent at most, and none to come after a terminal outcome. */
  ghost predicate RunsOk(l: Ledger) {
    && (forall r :: r in l.runs ==>
          && l.runs[r].intentId in l.objects
          && l.objects[l.runs[r].intentId].inFlight == Some(InFlight(l.runs[r].hash, r)))
    && (forall r :: r in l.runs && l.runs[r].phase == Awaiting ==>
          && l.runs[r].intentId in l.objects
          && l.objects[l.runs[r].intentId].verified.None?
          && l.objects[l.runs[r].intentId].terminalFailure.None?)
    && (forall id :: id in l.objects && l.objects[id].inFlight.Some? ==>
          && l.objects[id].inFlight.value.run in l.runs
          && l.runs[l.objects[id].inFlight.value.run].intentId == id)
  }

  ghost predicate CapsOk(l: Ledger) {
    && WellStored(l)
    && |l.stored| <= MAX_INTENTS
    && forall a :: |Active(l, a)| <= MAX_ACTIVE_PER_ACCOUNT
  }

  ghost predicate OneUnfunded(kind: Kind, l: Ledger) {
    && WellStored(l)
    && (kind == Deposit ==>
          forall x, y | x in l.stored && y in l.stored ::
            (UntouchedUnfunded(l.objects[x], l.objects[x].account) && UntouchedUnfunded(l.objects[y], l.objects[x].account))
            ==> x == y)
  }

  ghost predicate Inv(kind: Kind, l: Ledger) {
    IntentsOk(l) && AcceptedAreOwned(l) && OwnersAccept(l) && RunsOk(l) && CapsOk(l) && OneUnfunded(kind, l)
  }

  lemma EmptyIsOk(kind: Kind)
    ensures Inv(kind, EMPTY)
  {
    forall a ensures |Active(EMPTY, a)| <= MAX_ACTIVE_PER_ACCOUNT {
      assert Active(EMPTY, a) == {};
    }
  }

  // ---------------------------------------------------------------------------------------------
  // Dropping intents
  // ---------------------------------------------------------------------------------------------

  lemma RemoveKeepsIntents(l: Ledger, ids: set<IntentId>)
    requires IntentsOk(l) && RunsOk(l) && ids <= l.stored
    requires forall id :: id in ids ==> l.objects[id].landed || !Touched(l.objects[id])
    ensures IntentsOk(Remove(l, ids)) && RunsOk(Remove(l, ids))
  {
    hide IntentOk;
  }

  lemma RemoveKeepsOwners(l: Ledger, ids: set<IntentId>)
    requires AcceptedAreOwned(l) && OwnersAccept(l) && ids <= l.stored
    ensures AcceptedAreOwned(Remove(l, ids)) && OwnersAccept(Remove(l, ids))
  {
  }

  lemma RemoveKeepsCaps(kind: Kind, l: Ledger, ids: set<IntentId>)
    requires CapsOk(l) && OneUnfunded(kind, l) && ids <= l.stored
    ensures CapsOk(Remove(l, ids)) && OneUnfunded(kind, Remove(l, ids))
    ensures forall a :: Active(Remove(l, ids), a) <= Active(l, a)
  {
    hide Touched;
    var r := Remove(l, ids);
    SubsetCardinality(r.stored, l.stored);
    forall a ensures |Active(r, a)| <= MAX_ACTIVE_PER_ACCOUNT && Active(r, a) <= Active(l, a) {
      SubsetCardinality(Active(r, a), Active(l, a));
    }
  }

  lemma RemoveKeeps(kind: Kind, l: Ledger, ids: set<IntentId>)
    requires Inv(kind, l) && ids <= l.stored
    requires forall id :: id in ids ==> l.objects[id].landed || !Touched(l.objects[id])
    ensures Inv(kind, Remove(l, ids))
    ensures forall a :: Active(Remove(l, ids), a) <= Active(l, a)
  {
    hide IntentsOk, AcceptedAreOwned, OwnersAccept, RunsOk, CapsOk, OneUnfunded, Active, Remove;
    RemoveKeepsIntents(l, ids);
    RemoveKeepsOwners(l, ids);
    RemoveKeepsCaps(kind, l, ids);
  }

  lemma PruneKeeps(kind: Kind, l: Ledger, now: int)
    requires Inv(kind, l)
    ensures Inv(kind, Prune(l, now))
  {
    forall id | id in Prunable(l, now) ensures l.objects[id].landed || !Touched(l.objects[id]) {
      assert IntentOk(l.objects[id]);
    }
    RemoveKeeps(kind, l, Prunable(l, now));
  }

  lemma ClearedKeeps(kind: Kind, l: Ledger, account: AccountId, now: int)
    requires Inv(kind, l)
    ensures Inv(kind, Cleared(kind, l, account, now))
    ensures kind == Deposit ==>
      forall id :: id in Cleared(kind, l, account, now).stored ==> !UntouchedUnfunded(l.objects[id], account)
  {
    PruneKeeps(kind, l, now);
    var pruned := Prune(l, now);
    if kind == Deposit {
      RemoveKeeps(kind, pruned, Supersedable(pruned, account));
    }
  }

  // ---------------------------------------------------------------------------------------------
  // Creating
  // ---------------------------------------------------------------------------------------------

  lemma InsertCaps(l: Ledger, r: Ledger, id: IntentId)
    requires CapsOk(l) && id !in l.objects && id in r.objects && HasCapacity(l, r.objects[id].account)
    requires r.objects == l.objects[id := r.objects[id]] && r.stored == l.stored + {id}
    ensures CapsOk(r)
  {
    forall a ensures |Active(r, a)| <= MAX_ACTIVE_PER_ACCOUNT {
      if a == r.objects[id].account {
        assert Active(r, a) <= Active(l, a) + {id};
        SubsetCardinality(Active(r, a), Active(l, a) + {id});
      } else {
        assert Active(r, a) == Active(l, a);
      }
    }
  }

  function Inserted(l: Ledger, id: IntentId, i: Intent): Ledger {
    l.(objects := l.objects[id := i], stored := l.stored + {id})
  }

  lemma InsertIntents(l: Ledger, id: IntentId, i: Intent)
    requires IntentsOk(l) && RunsOk(l) && id !in l.objects && IntentOk(i) && i.inFlight.None?
    ensures IntentsOk(Inserted(l, id, i)) && RunsOk(Inserted(l, id, i))
  {
    hide IntentOk, Touched;
  }

  lemma InsertOwners(l: Ledger, id: IntentId, i: Intent)
    requires AcceptedAreOwned(l) && OwnersAccept(l) && id !in l.objects && i.accepted == {}
    ensures AcceptedAreOwned(Inserted(l, id, i)) && OwnersAccept(Inserted(l, id, i))
  {
  }

  lemma InsertUnfunded(kind: Kind, l: Ledger, id: IntentId, i: Intent)
    requires OneUnfunded(kind, l) && id !in l.objects
    requires kind == Deposit ==> forall x :: x in l.stored ==> !UntouchedUnfunded(l.objects[x], i.account)
    ensures OneUnfunded(kind, Inserted(l, id, i))
  {
    hide Touched;
  }

  lemma InsertKeeps(kind: Kind, l: Ledger, id: IntentId, i: Intent)
    requires Inv(kind, l) && HasCapacity(l, i.account) && id !in l.objects
    requires IntentOk(i) && i.accepted == {} && i.inFlight.None?
    requires kind == Deposit ==> forall x :: x in l.stored ==> !UntouchedUnfunded(l.objects[x], i.account)
    ensures Inv(kind, Inserted(l, id, i))
  {
    hide IntentOk, IntentsOk, AcceptedAreOwned, OwnersAccept, RunsOk, CapsOk, OneUnfunded, HasCapacity,
      UntouchedUnfunded;
    InsertIntents(l, id, i);
    InsertOwners(l, id, i);
    InsertCaps(l, Inserted(l, id, i), id);
    InsertUnfunded(kind, l, id, i);
  }

  lemma FinishCreateKeeps(kind: Kind, l: Ledger, account: AccountId, id: IntentId, funded: bool, now: int, pruneNow: int)
    requires Inv(kind, l)
    ensures Inv(kind, FinishCreateStep(kind, l, account, id, funded, now, pruneNow).0)
  {
    hide AcceptedAreOwned, OwnersAccept, RunsOk, CapsOk, OneUnfunded, Cleared, HasCapacity;
    ClearedKeeps(kind, l, account, pruneNow);
    var cleared := Cleared(kind, l, account, pruneNow);
    if id !in l.objects && HasCapacity(cleared, account) {
      InsertKeeps(kind, cleared, id, NewIntent(account, funded, now));
    }
  }

  // ---------------------------------------------------------------------------------------------
  // Changing one intent
  // ---------------------------------------------------------------------------------------------

  ghost predicate ChangesOnly(l: Ledger, r: Ledger, id: IntentId) {
    && WellStored(l) && WellStored(r) && r.stored == l.stored
    && id in l.objects && id in r.objects && r.objects == l.objects[id := r.objects[id]]
  }

  /** The caps and the one-unfunded rule survive any change that only lands or touches an intent. */
  lemma CapsSurvive(kind: Kind, l: Ledger, r: Ledger, id: IntentId)
    requires CapsOk(l) && OneUnfunded(kind, l) && ChangesOnly(l, r, id)
    requires r.objects[id].account == l.objects[id].account && r.objects[id].funded == l.objects[id].funded
    requires l.objects[id].landed ==> r.objects[id].landed
    requires Touched(l.objects[id]) ==> Touched(r.objects[id])
    ensures CapsOk(r) && OneUnfunded(kind, r)
  {
    forall a ensures |Active(r, a)| <= MAX_ACTIVE_PER_ACCOUNT {
      assert Active(r, a) <= Active(l, a);
      SubsetCardinality(Active(r, a), Active(l, a));
    }
  }

  /** Ownership survives when the intent's accepted hashes grow by at most one hash that it may own. */
  lemma OwnershipSurvives(l: Ledger, r: Ledger, id: IntentId, hash: Option<Hash>)
    requires AcceptedAreOwned(l) && OwnersAccept(l) && ChangesOnly(l, r, id)
    requires hash.None? ==> r.owners == l.owners && r.objects[id].accepted == l.objects[id].accepted
    requires hash.Some? ==>
      && r.owners == l.owners[hash.value := id]
      && (hash.value in l.owners ==> l.owners[hash.value] == id)
      && r.objects[id].accepted == l.objects[id].accepted + {hash.value}
    ensures AcceptedAreOwned(r) && OwnersAccept(r)
  {
  }

  lemma VerifyIntentOk(i: Intent, hash: Option<Hash>)
    requires IntentOk(i)
    ensures IntentOk(Declared(i, hash)) && Touched(Declared(i, hash)) && Declared(i, hash).transactionHash.Some? == (Declared(i, hash).accepted != {})
  {
  }

  lemma StartKeepsRuns(l: Ledger, r: Ledger, id: IntentId, run: nat)
    requires RunsOk(l) && ChangesOnly(l, r, id) && run !in l.runs
    requires l.objects[id].inFlight.None? && l.objects[id].verified.None? && l.objects[id].terminalFailure.None?
    requires r.objects[id].verified.None? && r.objects[id].terminalFailure.None?
    requires r.objects[id].inFlight.Some? && r.objects[id].inFlight.value.run == run
    requires r.runs == l.runs[run := Run(id, r.objects[id].inFlight.value.key, Awaiting)]
    ensures RunsOk(r)
  {
  }

  lemma SameRuns(l: Ledger, r: Ledger, id: IntentId)
    requires RunsOk(l) && ChangesOnly(l, r, id) && r.runs == l.runs
    requires r.objects[id].inFlight == l.objects[id].inFlight
    requires r.objects[id].verified == l.objects[id].verified && r.objects[id].terminalFailure == l.objects[id].terminalFailure
    ensures RunsOk(r)
  {
  }

  lemma IntentsSurvive(l: Ledger, r: Ledger, id: IntentId)
    requires IntentsOk(l) && ChangesOnly(l, r, id) && IntentOk(r.objects[id])
    requires id in l.stored || r.objects[id].landed
    ensures IntentsOk(r)
  {
    hide IntentOk, Touched;
  }

  /** What a verification request that changes the ledger does to the intent and its ownership entries. */
  lemma VerifiedIntent(l: Ledger, account: AccountId, id: IntentId, hash: Option<Hash>, run: nat)
    requires IntentsOk(l) && VerifyStep(l, account, id, hash, run).0 != l
    ensures var r := VerifyStep(l, account, id, hash, run).0;
      && ChangesOnly(l, r, id) && id in l.stored
      && IntentOk(r.objects[id]) && Touched(r.objects[id])
      && (l.objects[id].landed ==> r.objects[id].landed)
      && r.objects[id].account == l.objects[id].account && r.objects[id].funded == l.objects[id].funded
      && var bound := if hash.Some? && l.objects[id].transactionHash.None? then hash else None;
         && r.objects[id].accepted == l.objects[id].accepted + (if bound.Some? then {bound.value} else {})
         && r.owners == (if bound.Some? then l.owners[bound.value := id] else l.owners)
         && (bound.Some? && bound.value in l.owners ==> l.owners[bound.value] == id)
  {
    VerifyIntentOk(l.objects[id], hash);
  }

  /** And to the running verifications. */
  lemma VerifiedRuns(l: Ledger, account: AccountId, id: IntentId, hash: Option<Hash>, run: nat)
    requires WellStored(l) && VerifyStep(l, account, id, hash, run).0 != l
    ensures var r := VerifyStep(l, account, id, hash, run).0;
      && ChangesOnly(l, r, id)
      && l.objects[id].verified.None? && l.objects[id].terminalFailure.None?
      && r.objects[id].verified.None? && r.objects[id].terminalFailure.None?
      && if l.objects[id].inFlight.Some? then r.runs == l.runs && r.objects[id].inFlight == l.objects[id].inFlight
         else run !in l.runs && r.objects[id].inFlight.Some? && r.objects[id].inFlight.value.run == run
              && r.runs == l.runs[run := Run(id, r.objects[id].inFlight.value.key, Awaiting)]
  {
    hide HashConflicts;
  }

  lemma VerifyKeeps(kind: Kind, l: Ledger, account: AccountId, id: IntentId, hash: Option<Hash>, run: nat)
    requires Inv(kind, l)
    ensures Inv(kind, VerifyStep(l, account, id, hash, run).0)
  {
    hide AcceptedAreOwned, OwnersAccept, RunsOk, CapsOk, OneUnfunded, VerifyStep, IntentOk, Touched;
    var r := VerifyStep(l, account, id, hash, run).0;
    if r != l {
      VerifiedIntent(l, account, id, hash, run);
      VerifiedRuns(l, account, id, hash, run);
      IntentsSurvive(l, r, id);
      CapsSurvive(kind, l, r, id);
      OwnershipSurvives(l, r, id, if hash.Some? && l.objects[id].transactionHash.None? then hash else None);
      if l.objects[id].inFlight.Some? {
        SameRuns(l, r, id);
      } else {
        StartKeepsRuns(l, r, id, run);
      }
    }
  }

  // ---------------------------------------------------------------------------------------------
  // Settling and releasing
  // ---------------------------------------------------------------------------------------------

  lemma SettleKeepsRuns(l: Ledger, r: Ledger, run: nat)
    requires RunsOk(l) && run in l.runs && l.runs[run].phase == Awaiting
    requires var id := l.runs[run].intentId;
      ChangesOnly(l, r, id) && r.objects[id].inFlight == l.objects[id].inFlight
    requires r.runs == l.runs[run := l.runs[run].(phase := Settling)]
    ensures RunsOk(r)
  {
  }

  lemma AbsorbedOk(id: IntentId, i: Intent, o: Observation, now: int)
    requires IntentOk(i) && Touched(i) && i.verified.None? && i.terminalFailure.None?
    ensures IntentOk(Absorbed(id, i, o, now)) && Touched(Absorbed(id, i, o, now))
    ensures i.landed ==> Absorbed(id, i, o, now).landed
    ensures Absorbed(id, i, o, now).accepted == i.accepted + if Rebinds(i, o) then {o.transactionHash.value} else {}
  {
  }

  /** The hash that settling with this answer binds to the intent. */
  function NewHash(l: Ledger, id: IntentId, answer: Answer): (h: Option<Hash>)
    requires id in l.objects
    ensures h.Some? && h.value in l.owners ==> l.owners[h.value] == id
  {
    if answer.Observed? && Rebinds(l.objects[id], answer.observation)
       && !RebindRefused(l, id, l.objects[id], answer.observation)
    then answer.observation.transactionHash else None
  }

  lemma SettleKeeps(kind: Kind, l: Ledger, run: nat, answer: Answer, now: int)
    requires Inv(kind, l)
    ensures Inv(kind, SettleStep(l, run, answer, now).0)
  {
    hide AcceptedAreOwned, OwnersAccept, CapsOk, OneUnfunded, Absorbed, IntentOk, NewHash;
    var r := SettleStep(l, run, answer, now).0;
    if run in l.runs && l.runs[run].phase == Awaiting {
      var id := l.runs[run].intentId;
      var i := l.objects[id];
      SettledIntent(l, run, answer, now);
      SettleKeepsRuns(l, r, run);
      IntentsSurvive(l, r, id);
      CapsSurvive(kind, l, r, id);
      OwnershipSurvives(l, r, id, NewHash(l, id, answer));
    }
  }

  /** What settling does to the intent, in the terms the invariant needs. */
  lemma SettledIntent(l: Ledger, run: nat, answer: Answer, now: int)
    requires IntentsOk(l) && RunsOk(l) && run in l.runs && l.runs[run].phase == Awaiting
    ensures var id := l.runs[run].intentId;
      var i := l.objects[id];
      var r := SettleStep(l, run, answer, now).0;
      && ChangesOnly(l, r, id)
      && IntentOk(r.objects[id]) && Touched(i) && Touched(r.objects[id])
      && (id in l.stored || r.objects[id].landed)
      && (i.landed ==> r.objects[id].landed)
      && r.objects[id].inFlight == i.inFlight
      && r.objects[id].account == i.account && r.objects[id].funded == i.funded
      && var hash := NewHash(l, id, answer);
         && r.objects[id].accepted == i.accepted + (if hash.Some? then {hash.value} else {})
         && r.owners == if hash.Some? then l.owners[hash.value := id] else l.owners
  {
    hide RebindRefused, ResponseOf, Absorbed;
    var id := l.runs[run].intentId;
    var i := l.objects[id];
    assert IntentOk(i);
    if answer.Observed? {
      AbsorbedOk(id, i, answer.observation, now);
      AbsorbedFrame(id, i, answer.observation, now);
    }
    assert l.objects[id := i] == l.objects;
  }

  lemma AbsorbedFrame(id: IntentId, i: Intent, o: Observation, now: int)
    ensures var a := Absorbed(id, i, o, now);
      a.inFlight == i.inFlight && a.account == i.account && a.funded == i.funded && a.terminalFailure == i.terminalFailure
  {
  }

  lemma ReleaseKeeps(kind: Kind, l: Ledger, run: nat)
    requires Inv(kind, l)
    ensures Inv(kind, ReleaseStep(l, run).0)
  {
    hide AcceptedAreOwned, OwnersAccept, CapsOk, OneUnfunded, RunsOk, IntentOk;
    var r := ReleaseStep(l, run).0;
    if run in l.runs && l.runs[run].phase == Settling {
      ReleaseKeepsRuns(l, run);
      var id := l.runs[run].intentId;
      ReleasedIntentOk(l.objects[id]);
      ReleaseIntents(l, r, id);
      CapsSurvive(kind, l, r, id);
      OwnershipSurvives(l, r, id, None);
    }
  }

  lemma ReleasedIntentOk(i: Intent)
    requires IntentOk(i)
    ensures IntentOk(i.(inFlight := None))
  {
  }

  lemma ReleaseIntents(l: Ledger, r: Ledger, id: IntentId)
    requires IntentsOk(l) && id in l.objects && r.stored == l.stored
    requires IntentOk(l.objects[id].(inFlight := None))
    requires r.objects == l.objects[id := l.objects[id].(inFlight := None)]
    ensures IntentsOk(r)
  {
    hide IntentOk;
  }

  /** The guard of the `finally` step always holds: nothing can have replaced the verification. */
  lemma ReleaseKeepsRuns(l: Ledger, run: nat)
    requires RunsOk(l) && run in l.runs && l.runs[run].phase == Settling
    ensures var id := l.runs[run].intentId;
      && id in l.objects
      && ReleaseStep(l, run).0.objects == l.objects[id := l.objects[id].(inFlight := None)]
      && RunsOk(ReleaseStep(l, run).0)
  {
  }

  /** Every event keeps the invariant. */
  lemma StepKeeps(kind: Kind, l: Ledger, e: Event)
    requires Inv(kind, l)
    ensures Inv(kind, Step(kind, l, e).0)
  {
    hide Inv, Cleared, FinishCreateStep, VerifyStep, SettleStep, ReleaseStep;
    match e
    case BeginCreate(account, now) => ClearedKeeps(kind, l, account, now);
    case FinishCreate(account, id, funded, now, pruneNow) => FinishCreateKeeps(kind, l, account, id, funded, now, pruneNow);
    case Verify(account, id, hash, run) => VerifyKeeps(kind, l, account, id, hash, run);
    case Settle(run, answer, now) => SettleKeeps(kind, l, run, answer, now);
    case Release(run) => ReleaseKeeps(kind, l, run);
  }
}
