/** Safety of the intent ledger over whole runs. */
module LedgerTheorems {
  import opened Wrappers
  import opened LedgerSpec
  import opened LedgerInvariants

  /** The ledger after any interleaving of request steps, in any order and with any clock. */
  ghost function Replay(kind: Kind, l: Ledger, events: seq<Event>): (r: Ledger)
    requires Inv(kind, l)
    ensures Inv(kind, r)
  {
    if events == [] then l
    else
      var before := Replay(kind, l, events[..|events| - 1]);
      StepKeeps(kind, before, events[|events| - 1]);
      Step(kind, before, events[|events| - 1]).0
  }

  /** An account's intents whose transaction has not landed. */
  function ActiveOf(l: Ledger, account: AccountId): set<IntentId> {
    set id | id in l.stored && id in l.objects && l.objects[id].account == account && !l.objects[id].landed
  }

  /** An unfunded intent of the account with neither a bound hash nor a declared recovery. */
  predicate UnusedDeposit(l: Ledger, account: AccountId, id: IntentId) {
    && id in l.stored && id in l.objects
    && var i := l.objects[id]; i.account == account && !i.funded && i.transactionHash.None? && !i.recoveryAttempted
  }

  lemma InvMeaning(kind: Kind, l: Ledger, x: IntentId, y: IntentId, h: Hash, r: nat, s: nat)
    requires Inv(kind, l)
    ensures x in l.stored && h in l.objects[x].accepted ==> h in l.owners && l.owners[h] == x
    ensures x in l.stored && y in l.stored && h in l.objects[x].accepted && h in l.objects[y].accepted ==> x == y
    ensures r in l.runs && s in l.runs && l.runs[r].intentId == l.runs[s].intentId ==> r == s
    ensures x in l.objects ==> !(l.objects[x].verified.Some? && l.objects[x].terminalFailure.Some?)
    ensures |l.stored| <= 256 && forall a :: |ActiveOf(l, a)| <= 8
    ensures kind == Deposit ==> forall a :: UnusedDeposit(l, a, x) && UnusedDeposit(l, a, y) ==> x == y
  {
    forall a ensures ActiveOf(l, a) == Active(l, a) {
    }
    assert x in l.objects ==> IntentOk(l.objects[x]);
    hide IntentOk;
  }

  /**
   After every interleaving: an accepted hash of a stored intent belongs to that intent alone, an intent has at
   most one verification in progress and never both a verified result and a failure, the caps hold, and an account
   has at most one untouched unfunded deposit.
   */
  lemma EveryInterleaving(kind: Kind, events: seq<Event>, x: IntentId, y: IntentId, h: Hash, r: nat, s: nat)
    ensures Inv(kind, EMPTY)
    ensures var l := Replay(kind, EMPTY, events);
      && (x in l.stored && h in l.objects[x].accepted ==> h in l.owners && l.owners[h] == x)
      && (x in l.stored && y in l.stored && h in l.objects[x].accepted && h in l.objects[y].accepted ==> x == y)
      && (r in l.runs && s in l.runs && l.runs[r].intentId == l.runs[s].intentId ==> r == s)
      && (x in l.objects ==> !(l.objects[x].verified.Some? && l.objects[x].terminalFailure.Some?))
      && |l.stored| <= 256
      && (forall a :: |ActiveOf(l, a)| <= 8)
      && (kind == Deposit ==> forall a :: UnusedDeposit(l, a, x) && UnusedDeposit(l, a, y) ==> x == y)
  {
    hide Replay, ActiveOf, IntentsOk, AcceptedAreOwned, OwnersAccept, RunsOk, CapsOk;
    EmptyIsOk(kind);
    InvStored(kind, Replay(kind, EMPTY, events));
    InvMeaning(kind, Replay(kind, EMPTY, events), x, y, h, r, s);
  }

  // ---------------------------------------------------------------------------------------------
  // What never goes back
  // ---------------------------------------------------------------------------------------------

  /** Accepted hashes only grow; landing, its deadline, the verified result and a failure are written once. */
  predicate Grows(i: Intent, j: Intent) {
    && i.account == j.account && i.funded == j.funded && i.evidenceDeadline == j.evidenceDeadline
    && i.accepted <= j.accepted
    && (i.transactionHash.Some? ==> j.transactionHash.Some?)
    && (i.recoveryAttempted ==> j.recoveryAttempted)
    && (i.landed ==> j.landed)
    && (i.retentionDeadline.Some? ==> j.retentionDeadline == i.retentionDeadline)
    && (i.verified.Some? ==> j.verified == i.verified)
    && (i.terminalFailure.Some? ==> j.terminalFailure == i.terminalFailure)
  }

  /** A dropped intent stays dropped; one with a bound hash or a declared recovery stays until it has landed. */
  ghost predicate Progress(l: Ledger, r: Ledger) {
    && WellStored(l) && WellStored(r)
    && l.objects.Keys <= r.objects.Keys
    && (forall id :: id in l.objects ==> Grows(l.objects[id], r.objects[id]))
    && (forall id :: id in l.objects && id !in l.stored ==> id !in r.stored)
    && (forall id :: id in l.stored && Touched(l.objects[id]) && !r.objects[id].landed ==> id in r.stored)
  }

  lemma VerifyGrows(i: Intent, hash: Option<Hash>, inFlight: Option<InFlight>)
    ensures Grows(i, Declared(i, hash)) && Grows(i, Declared(i, hash).(inFlight := inFlight))
  {
  }

  lemma SettleGrows(id: IntentId, i: Intent, answer: Answer, now: int)
    requires i.verified.None? && i.terminalFailure.None?
    ensures answer.Observed? ==> Grows(i, Absorbed(id, i, answer.observation, now))
    ensures answer.TransactionFailed? ==> Grows(i, Landed(i.(terminalFailure := Some(answer.failure)), now))
  {
  }

  lemma SameStoreProgress(l: Ledger, r: Ledger, id: IntentId)
    requires ChangesOnly(l, r, id) && Grows(l.objects[id], r.objects[id])
    ensures Progress(l, r)
  {
  }

  lemma ClearedProgress(kind: Kind, l: Ledger, account: AccountId, now: int)
    requires Inv(kind, l)
    ensures Progress(l, Cleared(kind, l, account, now))
  {
    hide AcceptedAreOwned, OwnersAccept, RunsOk, CapsOk, OneUnfunded;
    forall id | id in l.stored && Touched(l.objects[id]) && !l.objects[id].landed
      ensures id in Cleared(kind, l, account, now).stored
    {
      assert IntentOk(l.objects[id]);
    }
  }

  lemma StepProgresses(kind: Kind, l: Ledger, e: Event)
    requires Inv(kind, l)
    ensures Progress(l, Step(kind, l, e).0)
  {
    hide AcceptedAreOwned, OwnersAccept, CapsOk, OneUnfunded, Grows, Cleared, HasCapacity, Touched;
    match e
    case BeginCreate(account, now) => ClearedProgress(kind, l, account, now);
    case FinishCreate(account, id, funded, now, pruneNow) =>
      ClearedProgress(kind, l, account, pruneNow);
      SelfProgress(l);
      CreateProgress(kind, l, account, id, funded, now, pruneNow);
    case Verify(account, id, hash, run) =>
      SelfProgress(l);
      VerifyProgress(l, account, id, hash, run);
    case Settle(run, answer, now) =>
      SelfProgress(l);
      SettleProgress(l, run, answer, now);
    case Release(run) =>
      SelfProgress(l);
      ReleaseProgress(l, run);
  }

  lemma SelfProgress(l: Ledger)
    requires WellStored(l)
    ensures Progress(l, l)
  {
  }

  lemma CreateProgress(kind: Kind, l: Ledger, account: AccountId, id: IntentId, funded: bool, now: int, pruneNow: int)
    requires WellStored(l) && Progress(l, l) && Progress(l, Cleared(kind, l, account, pruneNow))
    ensures Progress(l, FinishCreateStep(kind, l, account, id, funded, now, pruneNow).0)
  {
    hide Grows, Cleared, HasCapacity, Touched;
  }

  lemma VerifyProgress(l: Ledger, account: AccountId, id: IntentId, hash: Option<Hash>, run: nat)
    requires WellStored(l) && Progress(l, l)
    ensures Progress(l, VerifyStep(l, account, id, hash, run).0)
  {
    hide Grows, Progress, HashConflicts, Declared, DeclaredOwners;
    var r := VerifyStep(l, account, id, hash, run).0;
    if r != l {
      VerifyGrows(l.objects[id], hash, r.objects[id].inFlight);
      SameStoreProgress(l, r, id);
    }
  }

  lemma SettleProgress(l: Ledger, run: nat, answer: Answer, now: int)
    requires WellStored(l) && Progress(l, l) && IntentsOk(l) && RunsOk(l)
    ensures Progress(l, SettleStep(l, run, answer, now).0)
  {
    hide Grows, Progress, Absorbed, Landed, RebindRefused, IntentsOk;
    if run in l.runs && l.runs[run].phase == Awaiting {
      var id := l.runs[run].intentId;
      var r := SettleStep(l, run, answer, now).0;
      SettleGrows(id, l.objects[id], answer, now);
      SelfGrows(l.objects[id]);
      assert l.objects[id := l.objects[id]] == l.objects;
      SameStoreProgress(l, r, id);
    }
  }

  lemma SelfGrows(i: Intent)
    ensures Grows(i, i) && Grows(i, i.(inFlight := None))
  {
  }

  lemma ReleaseProgress(l: Ledger, run: nat)
    requires WellStored(l) && Progress(l, l)
    ensures Progress(l, ReleaseStep(l, run).0)
  {
    hide Grows, Progress;
    if run in l.runs && l.runs[run].phase == Settling && l.runs[run].intentId in l.objects {
      SelfGrows(l.objects[l.runs[run].intentId]);
      SameStoreProgress(l, ReleaseStep(l, run).0, l.runs[run].intentId);
    }
  }

  lemma ProgressTransitive(l: Ledger, m: Ledger, r: Ledger)
    requires Progress(l, m) && Progress(m, r)
    ensures Progress(l, r)
  {
    forall id | id in l.objects ensures Grows(l.objects[id], r.objects[id]) {
      assert Grows(l.objects[id], m.objects[id]) && Grows(m.objects[id], r.objects[id]);
    }
    forall id | id in l.stored && Touched(l.objects[id]) && !r.objects[id].landed ensures id in r.stored {
      assert Grows(l.objects[id], m.objects[id]) && Grows(m.objects[id], r.objects[id]);
    }
  }

  /** Over every continuation of a run. */
  lemma {:induction false} RunProgresses(kind: Kind, l: Ledger, events: seq<Event>)
    requires Inv(kind, l)
    ensures Progress(l, Replay(kind, l, events))
  {
    hide Inv, Progress, Step;
    if events == [] {
      InvStored(kind, l);
      SelfProgress(l);
    } else {
      var init := events[..|events| - 1];
      RunProgresses(kind, l, init);
      StepProgresses(kind, Replay(kind, l, init), events[|events| - 1]);
      ProgressTransitive(l, Replay(kind, l, init), Replay(kind, l, events));
    }
  }

  lemma InvStored(kind: Kind, l: Ledger)
    requires Inv(kind, l)
    ensures WellStored(l)
  {
  }

  // ---------------------------------------------------------------------------------------------
  // Landed evidence and cached results
  // ---------------------------------------------------------------------------------------------

  predicate PrunesBefore(events: seq<Event>, deadline: int) {
    forall i :: 0 <= i < |events| ==>
      && (events[i].BeginCreate? ==> events[i].now < deadline)
      && (events[i].FinishCreate? ==> events[i].pruneNow < deadline)
  }

  /** A landed intent is kept until some clock reading reaches its retention deadline. */
  lemma {:induction false} LandedIsRetained(kind: Kind, l: Ledger, events: seq<Event>, id: IntentId)
    requires Inv(kind, l) && id in l.stored && l.objects[id].retentionDeadline.Some?
    requires PrunesBefore(events, l.objects[id].retentionDeadline.value)
    ensures id in Replay(kind, l, events).stored
  {
    hide Inv, Step;
    InvStored(kind, l);
    if events != [] {
      var init, last := events[..|events| - 1], events[|events| - 1];
      LandedIsRetained(kind, l, init, id);
      RunProgresses(kind, l, init);
      assert Grows(l.objects[id], Replay(kind, l, init).objects[id]);
      StepRetains(kind, Replay(kind, l, init), last, id);
    }
  }

  lemma StepRetains(kind: Kind, l: Ledger, e: Event, id: IntentId)
    requires Inv(kind, l) && id in l.stored && l.objects[id].retentionDeadline.Some?
    requires PrunesBefore([e], l.objects[id].retentionDeadline.value)
    ensures id in Step(kind, l, e).0.stored
  {
    hide AcceptedAreOwned, OwnersAccept, RunsOk, CapsOk, OneUnfunded, HasCapacity, HashConflicts, Absorbed;
    assert IntentOk(l.objects[id]);
    assert [e][0] == e;
  }

  /**
   Once an intent is stored with a final outcome, asking with any hash it ever accepted, or with none, gives that
   outcome and changes nothing; a bound intent answers any other hash with a conflict, never with the result.
   */
  lemma OutcomeForEveryAlias(kind: Kind, earlier: Ledger, events: seq<Event>, id: IntentId, h: Hash, run: nat)
    requires Inv(kind, earlier) && id in earlier.objects
    requires var l := Replay(kind, earlier, events);
      id in l.stored && (l.objects[id].verified.Some? || l.objects[id].terminalFailure.Some?)
    ensures var l := Replay(kind, earlier, events);
      var i := l.objects[id];
      var outcome := if i.terminalFailure.Some? then FailedWith(i.terminalFailure.value) else Cached(i.verified.value);
      && VerifyStep(l, i.account, id, None, run) == (l, outcome)
      && (h in earlier.objects[id].accepted ==> VerifyStep(l, i.account, id, Some(h), run) == (l, outcome))
      && (i.transactionHash.Some? && h !in i.accepted ==> VerifyStep(l, i.account, id, Some(h), run) == (l, Conflict))
  {
    hide RunsOk, CapsOk, OneUnfunded, OwnersAccept, Step;
    RunProgresses(kind, earlier, events);
    assert Grows(earlier.objects[id], Replay(kind, earlier, events).objects[id]);
  }

  // ---------------------------------------------------------------------------------------------
  // Stale ownership entries
  // ---------------------------------------------------------------------------------------------

  ghost predicate AllOwnersStored(l: Ledger) {
    forall h :: h in l.owners ==> l.owners[h] in l.stored
  }

  /** The answer to a verification of a dropped intent names a hash that is still free or its own. */
  predicate RebindsDropped(l: Ledger, e: Event) {
    && e.Settle? && e.run in l.runs && l.runs[e.run].phase == Awaiting
    && l.runs[e.run].intentId in l.objects && l.runs[e.run].intentId !in l.stored
    && NewHash(l, l.runs[e.run].intentId, e.answer).Some?
  }

  /** Exactly which event leaves an ownership entry without a stored owner. */
  lemma StaleOwnerExactly(kind: Kind, l: Ledger, e: Event)
    requires Inv(kind, l) && AllOwnersStored(l)
    ensures AllOwnersStored(Step(kind, l, e).0) <==> !RebindsDropped(l, e)
  {
    hide AcceptedAreOwned, RunsOk, CapsOk, OneUnfunded, HasCapacity, HashConflicts, Absorbed, RebindRefused;
    var r := Step(kind, l, e).0;
    if RebindsDropped(l, e) {
      var id := l.runs[e.run].intentId;
      var h := NewHash(l, id, e.answer).value;
      assert h in r.owners && r.owners[h] == id;
    }
  }

  ghost predicate IsStale(l: Ledger, h: Hash) {
    h in l.owners && l.owners[h] !in l.stored
  }

  lemma StaleStays(kind: Kind, l: Ledger, e: Event, h: Hash)
    requires Inv(kind, l) && IsStale(l, h)
    ensures IsStale(Step(kind, l, e).0, h) && Step(kind, l, e).0.owners[h] == l.owners[h]
  {
    hide AcceptedAreOwned, RunsOk, CapsOk, OneUnfunded, HasCapacity, IntentOk, Absorbed;
  }

  /** A stale entry is never removed: whatever follows, its hash stays refused to every stored intent. */
  lemma {:induction false} StaleIsForGood(
    kind: Kind, l: Ledger, events: seq<Event>, h: Hash, other: IntentId, run: nat)
    requires Inv(kind, l) && IsStale(l, h)
    ensures var r := Replay(kind, l, events);
      && IsStale(r, h) && r.owners[h] == l.owners[h] && WellStored(r)
      && (other in r.stored ==> VerifyStep(r, r.objects[other].account, other, Some(h), run) == (r, Conflict))
  {
    hide Inv, Step;
    if events != [] {
      var before := Replay(kind, l, events[..|events| - 1]);
      StaleIsForGood(kind, l, events[..|events| - 1], h, other, run);
      StaleStays(kind, before, events[|events| - 1], h);
    }
    InvStored(kind, Replay(kind, l, events));
  }

  ghost predicate QuietAt(kind: Kind, l: Ledger, events: seq<Event>, i: nat)
    requires Inv(kind, l) && i < |events|
  {
    !RebindsDropped(Replay(kind, l, events[..i]), events[i])
  }

  /** No event of the run answers, at its point of the run, a poll of a dropped intent with a free hash. */
  ghost predicate NeverRebindsDropped(kind: Kind, l: Ledger, events: seq<Event>)
    requires Inv(kind, l)
  {
    forall i: nat :: i < |events| ==> QuietAt(kind, l, events, i)
  }

  lemma QuietInit(kind: Kind, l: Ledger, events: seq<Event>, i: nat)
    requires Inv(kind, l) && i < |events| - 1
    ensures QuietAt(kind, l, events, i) <==> QuietAt(kind, l, events[..|events| - 1], i)
  {
    hide Inv, Replay, RebindsDropped;
    assert events[..i] == events[..|events| - 1][..i];
  }

  lemma NeverRebindsStep(kind: Kind, l: Ledger, events: seq<Event>)
    requires Inv(kind, l) && events != []
    ensures var n := |events| - 1;
      NeverRebindsDropped(kind, l, events) <==>
      NeverRebindsDropped(kind, l, events[..n]) && QuietAt(kind, l, events, n)
  {
    hide Inv, QuietAt;
    var n := |events| - 1;
    if NeverRebindsDropped(kind, l, events) {
      forall i: nat | i < n ensures QuietAt(kind, l, events[..n], i) {
        QuietInit(kind, l, events, i);
        assert QuietAt(kind, l, events, i);
      }
    }
    if NeverRebindsDropped(kind, l, events[..n]) && QuietAt(kind, l, events, n) {
      forall i: nat | i < |events| ensures QuietAt(kind, l, events, i) {
        if i < n {
          QuietInit(kind, l, events, i);
          assert QuietAt(kind, l, events[..n], i);
        }
      }
    }
  }

  lemma {:induction false} StaleOwnersFrom(kind: Kind, l: Ledger, events: seq<Event>)
    requires Inv(kind, l) && AllOwnersStored(l)
    ensures AllOwnersStored(Replay(kind, l, events)) <==> NeverRebindsDropped(kind, l, events)
  {
    hide Inv, RebindsDropped, Step, NeverRebindsDropped;
    if events == [] {
      NothingRebinds(kind, l);
    } else {
      var n := |events| - 1;
      var before := Replay(kind, l, events[..n]);
      StaleOwnersFrom(kind, l, events[..n]);
      NeverRebindsStep(kind, l, events);
      if AllOwnersStored(before) {
        StaleOwnerExactly(kind, before, events[n]);
      } else {
        var h :| h in before.owners && before.owners[h] !in before.stored;
        StaleStays(kind, before, events[n], h);
      }
    }
  }

  lemma NothingRebinds(kind: Kind, l: Ledger)
    requires Inv(kind, l)
    ensures NeverRebindsDropped(kind, l, [])
  {
  }

  /** Over every run: all ownership entries have a stored owner exactly when no event of the run rebinds a dropped intent. */
  lemma StaleOwnersExactly(kind: Kind, events: seq<Event>)
    ensures Inv(kind, EMPTY)
    ensures AllOwnersStored(Replay(kind, EMPTY, events)) <==> NeverRebindsDropped(kind, EMPTY, events)
  {
    hide Replay, NeverRebindsDropped;
    EmptyIsOk(kind);
    StaleOwnersFrom(kind, EMPTY, events);
  }

  lemma ReplayStep(kind: Kind, l: Ledger, events: seq<Event>, e: Event, before: Ledger, after: Ledger)
    requires Inv(kind, l) && Replay(kind, l, events) == before
    requires WellStored(before) && Step(kind, before, e).0 == after
    ensures Replay(kind, l, events + [e]) == after
  {
    hide Inv, Step;
    assert (events + [e])[..|events|] == events;
  }

  const POLLING := Intent("account", true, RETENTION_MILLISECONDS, {"first"}, Some("first"), false, false, None, None,
                          Some(InFlight(Some("first"), 0)), None)
  const CONFIRMED_ONCE := POLLING.(landed := true, retentionDeadline := Some(RETENTION_MILLISECONDS))

  function OnlyIntent(i: Intent, stored: set<IntentId>, owners: map<Hash, IntentId>, phase: Option<Phase>): Ledger {
    Ledger(map["intent" := i], stored, owners,
           if phase.Some? then map[0 := Run("intent", Some("first"), phase.value)] else map[])
  }

  function Confirmed(h: Hash): Answer {
    Observed(Observation(CONFIRMED, Some(h), ""))
  }

  lemma FirstStep()
    ensures Step(Deposit, EMPTY, FinishCreate("account", "intent", true, 0, 0)).0
         == OnlyIntent(NewIntent("account", true, 0), {"intent"}, map[], None)
  {
    assert Prunable(EMPTY, 0) == {} && Supersedable(EMPTY, "account") == {};
    assert Cleared(Deposit, EMPTY, "account", 0) == EMPTY;
    assert Active(EMPTY, "account") == {};
  }

  lemma PruneStep()
    ensures Step(Deposit, OnlyIntent(CONFIRMED_ONCE, {"intent"}, map["first" := "intent"], Some(Awaiting)),
                 BeginCreate("other", RETENTION_MILLISECONDS)).0
         == OnlyIntent(CONFIRMED_ONCE, {}, map[], Some(Awaiting))
  {
    var l := OnlyIntent(CONFIRMED_ONCE, {"intent"}, map["first" := "intent"], Some(Awaiting));
    assert Prunable(l, RETENTION_MILLISECONDS) == {"intent"};
    var pruned := Prune(l, RETENTION_MILLISECONDS);
    assert pruned == OnlyIntent(CONFIRMED_ONCE, {}, map[], Some(Awaiting));
    assert Supersedable(pruned, "other") == {};
    assert Supersede(Deposit, pruned, "other") == pruned;
  }

  const CREATE := FinishCreate("account", "intent", true, 0, 0)
  const POLL := Verify("account", "intent", Some("first"), 0)

  function Owned(): map<Hash, IntentId> {
    map["first" := "intent"]
  }

  /** The run up to the first answer, which lands the intent. */
  lemma LandingRun()
    requires Inv(Deposit, EMPTY)
    ensures Replay(Deposit, EMPTY, [CREATE] + [POLL] + [Settle(0, Confirmed("first"), 0)])
         == OnlyIntent(CONFIRMED_ONCE, {"intent"}, Owned(), Some(Settling))
  {
    hide Inv, Replay, Cleared, HasCapacity;
    var created := OnlyIntent(NewIntent("account", true, 0), {"intent"}, map[], None);
    var polling := OnlyIntent(POLLING, {"intent"}, Owned(), Some(Awaiting));
    EmptyReplay();
    FirstStep();
    ReplayStep(Deposit, EMPTY, [], CREATE, EMPTY, created);
    assert [] + [CREATE] == [CREATE];
    var none: map<Hash, IntentId> := map[];
    assert none["first" := "intent"] == Owned();
    var bound := Step(Deposit, created, POLL).0;
    assert bound.objects["intent"].accepted == {"first"};
    assert bound.objects["intent"] == POLLING;
    assert bound == polling;
    ReplayStep(Deposit, EMPTY, [CREATE], POLL, created, polling);
    var settling := OnlyIntent(CONFIRMED_ONCE, {"intent"}, Owned(), Some(Settling));
    assert Step(Deposit, polling, Settle(0, Confirmed("first"), 0)).0 == settling;
    ReplayStep(Deposit, EMPTY, [CREATE] + [POLL], Settle(0, Confirmed("first"), 0), polling, settling);
  }

  /** Such an entry is reachable: an intent is pruned while a poll of it is under way, and the poll finds a new hash. */
  lemma StaleOwnerIsReachable()
    ensures Inv(Deposit, EMPTY)
    ensures exists events :: !AllOwnersStored(Replay(Deposit, EMPTY, events))
  {
    hide Inv, Replay, AllOwnersStored, Cleared, HasCapacity;
    EmptyIsOk(Deposit);
    LandingRun();
    var landed := [CREATE] + [POLL] + [Settle(0, Confirmed("first"), 0)];
    var settling := OnlyIntent(CONFIRMED_ONCE, {"intent"}, Owned(), Some(Settling));
    var released := OnlyIntent(CONFIRMED_ONCE.(inFlight := None), {"intent"}, Owned(), None);
    var again := OnlyIntent(CONFIRMED_ONCE, {"intent"}, Owned(), Some(Awaiting));
    var dropped := OnlyIntent(CONFIRMED_ONCE, {}, map[], Some(Awaiting));
    assert Step(Deposit, settling, Release(0)).0 == released;
    ReplayStep(Deposit, EMPTY, landed, Release(0), settling, released);
    assert Step(Deposit, released, POLL).0 == again;
    ReplayStep(Deposit, EMPTY, landed + [Release(0)], POLL, released, again);
    PruneStep();
    ReplayStep(Deposit, EMPTY, landed + [Release(0)] + [POLL], BeginCreate("other", RETENTION_MILLISECONDS), again, dropped);
    StaleStep(landed + [Release(0)] + [POLL] + [BeginCreate("other", RETENTION_MILLISECONDS)], dropped);
  }

  lemma EmptyReplay()
    requires Inv(Deposit, EMPTY)
    ensures Replay(Deposit, EMPTY, []) == EMPTY && WellStored(EMPTY)
  {
  }

  lemma StaleStep(events: seq<Event>, dropped: Ledger)
    requires Inv(Deposit, EMPTY) && Replay(Deposit, EMPTY, events) == dropped
    requires dropped == OnlyIntent(CONFIRMED_ONCE, {}, map[], Some(Awaiting))
    ensures exists longer :: !AllOwnersStored(Replay(Deposit, EMPTY, longer))
  {
    hide Inv, Replay;
    var e := Settle(0, Confirmed("second"), RETENTION_MILLISECONDS);
    var stale := Step(Deposit, dropped, e).0;
    assert "second" in stale.owners && stale.owners["second"] == "intent" && stale.stored == {};
    ReplayStep(Deposit, EMPTY, events, e, dropped, stale);
    assert !AllOwnersStored(Replay(Deposit, EMPTY, events + [e]));
  }
}
