/** What each event of the intent ledger does, stated on the fields of the intents it meets. */
module LedgerEvents {
  import opened Wrappers
  import opened LedgerSpec
  import opened LedgerInvariants
  import opened LedgerTheorems

  // ---------------------------------------------------------------------------------------------
  // Which intents are stored
  // ---------------------------------------------------------------------------------------------

  /**
   What a creation by `account` at `now` drops: a landed intent past its retention, one never used past its evidence
   deadline, and in the deposit service any unfunded intent of the account that was never used.
   */
  predicate DroppedBy(kind: Kind, i: Intent, account: AccountId, now: int) {
    if i.retentionDeadline.Some? then i.retentionDeadline.value <= now
    else
      && i.transactionHash.None? && !i.recoveryAttempted
      && (i.evidenceDeadline <= now || (kind == Deposit && i.account == account && !i.funded))
  }

  /** Exactly what a creation drops, and that an ownership entry goes exactly with its intent. */
  lemma ClearedExactly(kind: Kind, l: Ledger, account: AccountId, now: int, id: IntentId, h: Hash)
    requires Inv(kind, l)
    ensures var r := Cleared(kind, l, account, now);
      && (id in r.stored <==> id in l.stored && !DroppedBy(kind, l.objects[id], account, now))
      && (h in r.owners <==> h in l.owners && (l.owners[h] in l.stored ==> l.owners[h] in r.stored))
      && (h in r.owners ==> r.owners[h] == l.owners[h])
      && r.objects == l.objects && r.runs == l.runs
  {
    hide RunsOk, CapsOk, OneUnfunded, AcceptedAreOwned;
    assert id in l.objects ==> IntentOk(l.objects[id]);
  }

  /** Room for one more: 256 stored intents, and eight of the account whose transaction has not landed. */
  predicate Room(l: Ledger, account: AccountId) {
    |l.stored| < 256 && |ActiveOf(l, account)| < 8
  }

  lemma CapacityIsRoom(l: Ledger, account: AccountId)
    requires WellStored(l)
    ensures HasCapacity(l, account) <==> Room(l, account)
  {
    assert ActiveOf(l, account) == Active(l, account);
  }

  /** A creation clears, and then stores a fresh intent for an hour exactly when there is room. */
  lemma CreationExactly(
    kind: Kind, l: Ledger, account: AccountId, id: IntentId, funded: bool, now: int, pruneNow: int)
    requires Inv(kind, l)
    ensures var (begun, reply) := BeginCreateStep(kind, l, account, now);
      begun == Cleared(kind, l, account, now) && reply == if Room(begun, account) then Admitted else CapacityError
    ensures var cleared := Cleared(kind, l, account, pruneNow);
      var (r, reply) := FinishCreateStep(kind, l, account, id, funded, now, pruneNow);
      if id in l.objects then r == l && reply == Ignored
      else if !Room(cleared, account) then r == cleared && reply == CapacityError
      else
        && reply == Created && r.stored == cleared.stored + {id}
        && r.owners == cleared.owners && r.runs == cleared.runs
        && r.objects == l.objects[id := r.objects[id]]
        && r.objects[id].account == account && r.objects[id].funded == funded
        && r.objects[id].evidenceDeadline == now + 3_600_000
        && r.objects[id].accepted == {} && r.objects[id].transactionHash.None? && !r.objects[id].recoveryAttempted
        && !r.objects[id].landed && r.objects[id].retentionDeadline.None? && r.objects[id].inFlight.None?
        && r.objects[id].verified.None? && r.objects[id].terminalFailure.None?
  {
    hide Cleared, HasCapacity, Room, IntentOk, RunsOk, CapsOk, OneUnfunded, AcceptedAreOwned, OwnersAccept;
    CapacityIsRoom(Cleared(kind, l, account, now), account);
    CapacityIsRoom(Cleared(kind, l, account, pruneNow), account);
  }

  // ---------------------------------------------------------------------------------------------
  // Verification requests and the RPC's answers
  // ---------------------------------------------------------------------------------------------

  /** Nothing but the named intent, the ownership of one hash and one verification is different. */
  predicate Elsewhere(l: Ledger, r: Ledger, id: IntentId, hash: Option<Hash>, run: nat) {
    && r.stored == l.stored
    && r.objects.Keys == l.objects.Keys
    && (forall x :: x in l.objects && x != id ==> r.objects[x] == l.objects[x])
    && (forall h :: h in l.owners && Some(h) != hash ==> h in r.owners && r.owners[h] == l.owners[h])
    && (forall h :: h in r.owners && Some(h) != hash ==> h in l.owners)
    && r.runs.Keys <= l.runs.Keys + {run}
    && (forall x :: x in l.runs && x != run ==> x in r.runs && r.runs[x] == l.runs[x])
  }

  /**
   What a verification request leaves behind: a first hash is bound to the intent for good, and a request without one
   is remembered as a recovery. The request joins a verification that polls the hash the intent is bound to now, is
   refused beside one that polls another, and otherwise starts its own.
   */
  predicate Requested(l: Ledger, r: Ledger, reply: Reply, id: IntentId, hash: Option<Hash>, run: nat)
    requires id in l.objects && id in r.objects
  {
    var i, j := l.objects[id], r.objects[id];
    && j.transactionHash == (if i.transactionHash.Some? then i.transactionHash else hash)
    && j.accepted == (if hash.Some? then i.accepted + {hash.value} else i.accepted)
    && j.recoveryAttempted == (i.recoveryAttempted || hash.None?)
    && (hash.Some? ==> hash.value in r.owners && r.owners[hash.value] == id)
    && (hash.None? ==> r.owners == l.owners)
    && j == i.(transactionHash := j.transactionHash, accepted := j.accepted, recoveryAttempted := j.recoveryAttempted,
               inFlight := j.inFlight)
    && if i.inFlight.Some? then
         && r.runs == l.runs && j.inFlight == i.inFlight
         && i.inFlight.value.run in l.runs
         && reply == if l.runs[i.inFlight.value.run].hash == j.transactionHash then Joined(i.inFlight.value.run) else Conflict
       else
         && reply == Started(run) && j.inFlight == Some(InFlight(j.transactionHash, run))
         && run in r.runs && r.runs[run] == Run(id, j.transactionHash, Awaiting)
  }

  lemma DeclaredFields(i: Intent, hash: Option<Hash>)
    requires hash.Some? && i.transactionHash.Some? ==> hash.value in i.accepted
    ensures var j := Declared(i, hash);
      && j.transactionHash == (if i.transactionHash.Some? then i.transactionHash else hash)
      && j.accepted == (if hash.Some? then i.accepted + {hash.value} else i.accepted)
      && j.recoveryAttempted == (i.recoveryAttempted || hash.None?)
      && j.inFlight == i.inFlight
      && j == i.(transactionHash := j.transactionHash, accepted := j.accepted, recoveryAttempted := j.recoveryAttempted)
  {
    assert hash.Some? && hash.value in i.accepted ==> i.accepted + {hash.value} == i.accepted;
  }

  /** The request is neither refused nor answered from a final outcome. */
  predicate Proceeds(l: Ledger, account: AccountId, id: IntentId, hash: Option<Hash>) {
    && id in l.stored && id in l.objects && l.objects[id].account == account && !HashConflicts(l, id, hash)
    && l.objects[id].terminalFailure.None? && l.objects[id].verified.None?
  }

  lemma RequestedFields(l: Ledger, account: AccountId, id: IntentId, hash: Option<Hash>, run: nat)
    requires WellStored(l) && AcceptedAreOwned(l) && RunsOk(l) && run !in l.runs && Proceeds(l, account, id, hash)
    ensures var (r, reply) := VerifyStep(l, account, id, hash, run);
      id in r.objects && Requested(l, r, reply, id, hash, run)
  {
    hide Declared, RunsOk;
    DeclaredFields(l.objects[id], hash);
    PolledHash(l, id);
  }

  lemma PolledHash(l: Ledger, id: IntentId)
    requires RunsOk(l) && id in l.objects
    ensures var inFlight := l.objects[id].inFlight;
      inFlight.Some? ==> inFlight.value.run in l.runs && l.runs[inFlight.value.run].hash == inFlight.value.key
  {
  }

  lemma RequestedElsewhere(l: Ledger, account: AccountId, id: IntentId, hash: Option<Hash>, run: nat)
    requires WellStored(l) && run !in l.runs && Proceeds(l, account, id, hash)
    ensures Elsewhere(l, VerifyStep(l, account, id, hash, run).0, id, hash, run)
  {
    hide Declared, HashConflicts;
  }

  /** Exactly how a verification request is answered and what it changes. */
  lemma RequestExactly(kind: Kind, l: Ledger, account: AccountId, id: IntentId, hash: Option<Hash>, run: nat)
    requires Inv(kind, l) && run !in l.runs
    ensures var (r, reply) := VerifyStep(l, account, id, hash, run);
      if id !in l.stored || l.objects[id].account != account then r == l && reply == NotFound
      else
        var i := l.objects[id];
        if hash.Some? && hash.value in l.owners && l.owners[hash.value] != id then r == l && reply == Conflict
        else if hash.Some? && i.transactionHash.Some? && hash.value !in i.accepted then r == l && reply == Conflict
        else if i.terminalFailure.Some? then r == l && reply == FailedWith(i.terminalFailure.value)
        else if i.verified.Some? then r == l && reply == Cached(i.verified.value)
        else id in r.objects && Requested(l, r, reply, id, hash, run) && Elsewhere(l, r, id, hash, run)
  {
    hide IntentsOk, AcceptedAreOwned, RunsOk, CapsOk, OneUnfunded, OwnersAccept, Requested, Elsewhere, Declared, DeclaredOwners;
    InvStored(kind, l);
    if Proceeds(l, account, id, hash) {
      RequestedFields(l, account, id, hash, run);
      RequestedElsewhere(l, account, id, hash, run);
    }
  }

  /** A verification that waits for the RPC asks on behalf of an intent without a final outcome. */
  predicate Waits(l: Ledger, run: nat) {
    run in l.runs && l.runs[run].phase == Awaiting && l.runs[run].intentId in l.objects
  }

  predicate Answers(l: Ledger, r: Ledger, reply: Reply, id: IntentId, answer: Answer, now: int)
    requires id in l.objects && id in r.objects
  {
    var i, j := l.objects[id], r.objects[id];
    var kept := if i.retentionDeadline.Some? then i.retentionDeadline else Some(now + 3_600_000);
    match answer
    case RpcFailed => j == i && r.owners == l.owners && reply == RpcError
    case TransactionFailed(f) =>
      && j == i.(terminalFailure := Some(f), landed := true, retentionDeadline := kept)
      && r.owners == l.owners && reply == FailedWith(f)
    case Observed(Observation(status, hash, evidence)) =>
      var other := hash.Some? && hash != i.transactionHash;
      if other && (hash.value in l.owners && l.owners[hash.value] != id) then j == i && r.owners == l.owners && reply == Conflict
      else if other && i.transactionHash.Some? && status == PENDING then j == i && r.owners == l.owners && reply == Conflict
      else
        && j.transactionHash == (if hash.Some? then hash else i.transactionHash)
        && j.accepted == (if hash.Some? then i.accepted + {hash.value} else i.accepted)
        && (other ==> hash.value in r.owners && r.owners[hash.value] == id)
        && (!other ==> r.owners == l.owners)
        && j.landed == (i.landed || status == CONFIRMED || status == VERIFIED)
        && j.retentionDeadline == (if status == PENDING then i.retentionDeadline else kept)
        && j.verified == (if status == VERIFIED then Some(Response(id, VERIFIED, hash, evidence, true)) else None)
        && j == i.(transactionHash := j.transactionHash, accepted := j.accepted, landed := j.landed,
                   retentionDeadline := j.retentionDeadline, verified := j.verified)
        && reply == Answered(Response(id, status, hash, evidence, status != PENDING))
  }

  lemma AbsorbedFields(id: IntentId, i: Intent, o: Observation, now: int)
    requires i.transactionHash.Some? ==> i.transactionHash.value in i.accepted
    requires i.verified.None?
    ensures var j := Absorbed(id, i, o, now);
      && j.transactionHash == (if o.transactionHash.Some? then o.transactionHash else i.transactionHash)
      && j.accepted == (if o.transactionHash.Some? then i.accepted + {o.transactionHash.value} else i.accepted)
      && j.landed == (i.landed || o.status == CONFIRMED || o.status == VERIFIED)
      && j.retentionDeadline == (if o.status == PENDING || i.retentionDeadline.Some? then i.retentionDeadline
                                 else Some(now + 3_600_000))
      && j.verified == (if o.status == VERIFIED then Some(Response(id, VERIFIED, o.transactionHash, o.evidence, true)) else None)
      && j == i.(transactionHash := j.transactionHash, accepted := j.accepted, landed := j.landed,
                 retentionDeadline := j.retentionDeadline, verified := j.verified)
  {
    if o.transactionHash.Some? {
      if i.transactionHash == o.transactionHash {
        assert i.accepted + {o.transactionHash.value} == i.accepted;
      } else if i.transactionHash.Some? {
        assert i.accepted + {o.transactionHash.value} + {i.transactionHash.value} == i.accepted + {o.transactionHash.value};
      }
    }
  }

  lemma AnswerFields(l: Ledger, run: nat, answer: Answer, now: int)
    requires RunsOk(l) && Waits(l, run) && IntentOk(l.objects[l.runs[run].intentId])
    ensures var (r, reply) := SettleStep(l, run, answer, now);
      var id := l.runs[run].intentId;
      id in r.objects && Answers(l, r, reply, id, answer, now)
  {
    hide Absorbed, RunsOk;
    var id := l.runs[run].intentId;
    NoOutcomeYet(l, run);
    if answer.Observed? {
      AbsorbedFields(id, l.objects[id], answer.observation, now);
    }
  }

  lemma NoOutcomeYet(l: Ledger, run: nat)
    requires RunsOk(l) && Waits(l, run)
    ensures l.objects[l.runs[run].intentId].verified.None?
  {
  }

  lemma AnswerElsewhere(l: Ledger, run: nat, answer: Answer, now: int)
    requires Waits(l, run)
    ensures var r := SettleStep(l, run, answer, now).0;
      var id := l.runs[run].intentId;
      && run in r.runs && r.runs[run] == Run(id, l.runs[run].hash, Settling)
      && Elsewhere(l, r, id, if answer.Observed? then answer.observation.transactionHash else None, run)
  {
    hide Absorbed, Landed, RebindRefused;
  }

  /**
   Exactly what an RPC answer does. An error changes nothing. A failed transaction lands the intent and is its outcome.
   An observation is refused when it names a hash other than the bound one that belongs to another intent, or that is
   still pending while one is bound; otherwise its hash becomes the bound one, beside the earlier ones; a confirmed
   one lands the intent, which is then kept for an hour from its first landing; and a verified one is its result.
   */
  lemma AnswerExactly(kind: Kind, l: Ledger, run: nat, answer: Answer, now: int)
    requires Inv(kind, l)
    ensures var (r, reply) := SettleStep(l, run, answer, now);
      if !Waits(l, run) then r == l && reply == Ignored
      else
        var id := l.runs[run].intentId;
        && id in r.objects && run in r.runs && r.runs[run] == Run(id, l.runs[run].hash, Settling)
        && Answers(l, r, reply, id, answer, now)
        && Elsewhere(l, r, id, if answer.Observed? then answer.observation.transactionHash else None, run)
  {
    hide RunsOk, CapsOk, OneUnfunded, OwnersAccept, AcceptedAreOwned, Answers, Elsewhere, IntentOk;
    if Waits(l, run) {
      hide SettleStep;
      assert IntentOk(l.objects[l.runs[run].intentId]);
      AnswerFields(l, run, answer, now);
      AnswerElsewhere(l, run, answer, now);
    }
  }

  /** And the `finally` step only forgets the verification. */
  lemma ReleaseExactly(kind: Kind, l: Ledger, run: nat)
    requires Inv(kind, l)
    ensures var r := ReleaseStep(l, run).0;
      if run in l.runs && l.runs[run].phase == Settling then
        var id := l.runs[run].intentId;
        && id in r.objects && r.objects[id].inFlight.None? && run !in r.runs
        && r.objects[id] == l.objects[id].(inFlight := None)
        && r.owners == l.owners && Elsewhere(l, r, id, None, run)
      else r == l
  {
    hide IntentsOk, CapsOk, OneUnfunded, OwnersAccept, AcceptedAreOwned;
  }

  // ---------------------------------------------------------------------------------------------
  // How long a fresh intent is kept
  // ---------------------------------------------------------------------------------------------

  /** The event prunes with a clock before `deadline`, and no answer's clock precedes `deadline` by over an hour. */
  predicate ClockWithin(e: Event, deadline: int) {
    && (e.BeginCreate? ==> e.now < deadline)
    && (e.FinishCreate? ==> e.pruneNow < deadline)
    && (e.Settle? ==> deadline <= e.now + 3_600_000)
  }

  /** The event is a deposit creation by the account. */
  predicate Supersedes(kind: Kind, e: Event, account: AccountId) {
    kind == Deposit && ((e.BeginCreate? && e.account == account) || (e.FinishCreate? && e.account == account))
  }

  predicate Protected(i: Intent) {
    i.funded || i.transactionHash.Some? || i.recoveryAttempted
  }

  /** Stored, and if landed then kept at least as long as a fresh intent. */
  predicate KeptUntil(l: Ledger, id: IntentId, deadline: int) {
    && id in l.stored && id in l.objects
    && l.objects[id].evidenceDeadline == deadline
    && (l.objects[id].retentionDeadline.Some? ==> deadline <= l.objects[id].retentionDeadline.value)
  }

  lemma VerifyRetention(l: Ledger, account: AccountId, other: IntentId, hash: Option<Hash>, run: nat, id: IntentId)
    requires WellStored(l) && id in l.stored
    ensures var r := VerifyStep(l, account, other, hash, run).0;
      r.stored == l.stored && id in r.objects && r.objects[id].retentionDeadline == l.objects[id].retentionDeadline
  {
    hide HashConflicts, DeclaredOwners;
  }

  /** Only an answer gives an intent a retention deadline, an hour after the answer's clock. */
  lemma AnswerRetention(l: Ledger, run: nat, answer: Answer, now: int, id: IntentId)
    requires WellStored(l) && id in l.stored
    ensures var r := SettleStep(l, run, answer, now).0;
      && r.stored == l.stored && id in r.objects
      && var before, after := l.objects[id].retentionDeadline, r.objects[id].retentionDeadline;
         after == before || (before.None? && after == Some(now + 3_600_000))
  {
    hide RebindRefused;
  }

  lemma ReleaseRetention(l: Ledger, run: nat, id: IntentId)
    requires WellStored(l) && id in l.stored
    ensures var r := ReleaseStep(l, run).0;
      r.stored == l.stored && id in r.objects && r.objects[id].retentionDeadline == l.objects[id].retentionDeadline
  {
  }

  lemma CreationKeeps(kind: Kind, l: Ledger, e: Event, id: IntentId, deadline: int)
    requires Inv(kind, l) && KeptUntil(l, id, deadline) && ClockWithin(e, deadline) && (e.BeginCreate? || e.FinishCreate?)
    requires Protected(l.objects[id]) || !Supersedes(kind, e, l.objects[id].account)
    ensures KeptUntil(Step(kind, l, e).0, id, deadline)
  {
    hide Cleared, HasCapacity, IntentOk, RunsOk, CapsOk, OneUnfunded, AcceptedAreOwned, OwnersAccept;
    var pruneNow := if e.BeginCreate? then e.now else e.pruneNow;
    ClearedExactly(kind, l, e.account, pruneNow, id, "");
  }

  lemma SameDeadline(kind: Kind, l: Ledger, e: Event, id: IntentId)
    requires Inv(kind, l) && WellStored(l) && id in l.stored
    ensures id in Step(kind, l, e).0.objects && Step(kind, l, e).0.objects[id].evidenceDeadline == l.objects[id].evidenceDeadline
  {
    hide Inv, Step;
    StepProgresses(kind, l, e);
    assert Grows(l.objects[id], Step(kind, l, e).0.objects[id]);
  }

  lemma StepKeepsUntil(kind: Kind, l: Ledger, e: Event, id: IntentId, deadline: int)
    requires Inv(kind, l) && KeptUntil(l, id, deadline) && ClockWithin(e, deadline)
    requires Protected(l.objects[id]) || !Supersedes(kind, e, l.objects[id].account)
    ensures KeptUntil(Step(kind, l, e).0, id, deadline)
  {
    hide Inv, Protected, Supersedes, VerifyStep, SettleStep, ReleaseStep, Grows;
    InvStored(kind, l);
    if e.BeginCreate? || e.FinishCreate? {
      CreationKeeps(kind, l, e, id, deadline);
    } else {
      SameDeadline(kind, l, e, id);
      match e
      case BeginCreate(_, _) =>
      case FinishCreate(_, _, _, _, _) =>
      case Verify(account, other, hash, run) => VerifyRetention(l, account, other, hash, run, id);
      case Settle(run, answer, now) => AnswerRetention(l, run, answer, now, id);
      case Release(run) => ReleaseRetention(l, run, id);
    }
  }

  lemma {:induction false} KeptThroughout(kind: Kind, l: Ledger, events: seq<Event>, id: IntentId)
    requires Inv(kind, l) && id in l.stored && l.objects[id].retentionDeadline.None?
    requires forall i :: 0 <= i < |events| ==> ClockWithin(events[i], l.objects[id].evidenceDeadline)
    requires || l.objects[id].funded || l.objects[id].transactionHash.Some? || l.objects[id].recoveryAttempted
             || forall i :: 0 <= i < |events| ==> !Supersedes(kind, events[i], l.objects[id].account)
    ensures KeptUntil(Replay(kind, l, events), id, l.objects[id].evidenceDeadline)
  {
    hide Inv, Step, ClockWithin, Supersedes, KeptUntil;
    InvStored(kind, l);
    KeptAtFirst(l, id);
    if events != [] {
      var n := |events| - 1;
      KeptThroughout(kind, l, events[..n], id);
      RunProgresses(kind, l, events[..n]);
      assert Grows(l.objects[id], Replay(kind, l, events[..n]).objects[id]);
      StepKeepsUntil(kind, Replay(kind, l, events[..n]), events[n], id, l.objects[id].evidenceDeadline);
    }
  }

  lemma KeptAtFirst(l: Ledger, id: IntentId)
    ensures WellStored(l) && id in l.stored && l.objects[id].retentionDeadline.None? ==>
      KeptUntil(l, id, l.objects[id].evidenceDeadline)
  {
  }

  /**
   A fresh intent is kept for its hour: while no creation prunes with a clock past its evidence deadline, and no answer
   carries a clock from before it was created, a stored intent that has not landed stays stored. Only an unfunded
   deposit intent that was never used can go earlier, by another creation of its own account.
   */
  lemma FreshIsRetained(kind: Kind, l: Ledger, events: seq<Event>, id: IntentId)
    requires Inv(kind, l) && id in l.stored && l.objects[id].retentionDeadline.None?
    requires forall i :: 0 <= i < |events| ==> ClockWithin(events[i], l.objects[id].evidenceDeadline)
    requires || l.objects[id].funded || l.objects[id].transactionHash.Some? || l.objects[id].recoveryAttempted
             || forall i :: 0 <= i < |events| ==> !Supersedes(kind, events[i], l.objects[id].account)
    ensures id in Replay(kind, l, events).stored
  {
    hide Inv, Replay, ClockWithin, Supersedes;
    KeptThroughout(kind, l, events, id);
  }
}
