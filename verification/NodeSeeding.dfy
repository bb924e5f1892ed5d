/** Keeping local wallets seeded on a development node that may restart or fail at any time. */
module NodeSeeding {
  import opened FixtureWallets
  import opened Wrappers

  datatype Seeding = Seeding(instance: nat, address: string, amountAtomic: nat)

  ghost predicate IsSeeded(seeded: set<Seeding>, instance: nat, address: string) {
    exists amount :: Seeding(instance, address, amount) in seeded
  }

  /** What the port was asked and how it answered; an observation carries the instance that answered it. */
  datatype Call = ReadId(id: Option<nat>) | Seed(ok: bool) | Observed(ok: bool, instance: nat)

  predicate Succeeded(c: Call) {
    match c
    case ReadId(id) => id.Some?
    case Seed(ok) => ok
    case Observed(ok, _) => ok
  }

  /** No call failed, and all reads gave one identifier. */
  predicate Undisturbed(made: seq<Call>) {
    && (forall c | c in made :: Succeeded(c))
    && (forall c, d | c in made && d in made :: c.ReadId? && d.ReadId? ==> c == d)
  }

  predicate InWindow(c: Call, first: nat, last: nat) {
    match c
    case ReadId(id) => id.Some? ==> first <= id.value <= last
    case Seed(_) => true
    case Observed(_, instance) => first <= instance <= last
  }

  /** The calls were answered by instances from `first` to `last`. */
  predicate Within(made: seq<Call>, first: nat, last: nat) {
    forall c | c in made :: InWindow(c, first, last)
  }

  lemma WithinConcat(a: seq<Call>, b: seq<Call>, first: nat, middle: nat, last: nat)
    requires first <= middle <= last && Within(a, first, middle) && Within(b, middle, last)
    ensures Within(a + b, first, last)
  {
  }

  /** Calls that all succeed while the node does not restart are undisturbed. */
  lemma CalmIsUndisturbed(made: seq<Call>, n: nat)
    requires Within(made, n, n) && forall c | c in made :: Succeeded(c)
    ensures Undisturbed(made)
  {
    forall c, d | c in made && d in made && c.ReadId? && d.ReadId? ensures c == d {
      assert InWindow(c, n, n) && InWindow(d, n, n) && Succeeded(c) && Succeeded(d);
    }
  }

  lemma FailureDisturbs(made: seq<Call>, c: Call)
    requires c in made && !Succeeded(c)
    ensures !Undisturbed(made)
  {
  }

  /** Between the two reads: the seeding, if there is any, and an observation of every wallet. */
  function MiddleCalls(n: nat, seeds: bool, count: nat): seq<Call> {
    (if seeds then [Seed(true)] else []) + seq(count, _ => Observed(true, n))
  }

  /** The calls of a request that succeeds on instance `n`; the last of them reads the instance again. */
  function CallsOn(n: nat, seeds: bool, count: nat): seq<Call> {
    [ReadId(Some(n))] + MiddleCalls(n, seeds, count) + [ReadId(Some(n))]
  }

  lemma ReadsAgree(id: nat, middle: seq<Call>, after: Option<nat>)
    requires forall c | c in middle :: Succeeded(c) && !c.ReadId?
    ensures Undisturbed([ReadId(Some(id))] + middle + [ReadId(after)]) <==> after == Some(id)
  {
    var made := [ReadId(Some(id))] + middle + [ReadId(after)];
    assert made[0] == ReadId(Some(id)) && made[|made| - 1] == ReadId(after);
    assert made[0] in made && made[|made| - 1] in made;
  }

  /**
   The node behind the port. A restart starts the next instance, with an identifier that no earlier instance had, so
   instances are numbered. `seeded` remembers which instance got which balance, and `calls` what the port was asked.
   */
  class EvmNode {
    var instance: nat
    var seeded: set<Seeding>
    ghost var calls: seq<Call>

    constructor ()
      ensures instance == 0 && seeded == {} && calls == []
    {
      instance, seeded, calls := 0, {}, [];
    }

    /** Time passes; the node may restart any number of times. */
    method Await()
      modifies this
      ensures old(instance) <= instance && seeded == old(seeded) && calls == old(calls)
    {
      var restarts: int := *;
      if 0 < restarts {
        instance := instance + restarts;
      }
    }

    /** Nothing when the read fails or the answer is malformed. */
    method ReadNodeInstanceId() returns (id: Option<nat>)
      modifies this
      ensures old(instance) <= instance && seeded == old(seeded)
      ensures InWindow(ReadId(id), old(instance), instance) && calls == old(calls) + [ReadId(id)]
    {
      Await();
      var fails: bool := *;
      id := if fails then None else Some(instance);
      calls := calls + [ReadId(id)];
      Await();
    }

    /** Seeds the wallets one by one; the node may restart between any two, or fail. */
    method SeedWalletBalances(wallets: seq<Fixture>) returns (ok: bool)
      modifies this
      ensures old(instance) <= instance && old(seeded) <= seeded && calls == old(calls) + [Seed(ok)]
      ensures ok ==> forall i :: 0 <= i < |wallets| ==>
                       SeededBetween(seeded, old(instance), instance, wallets[i])
    {
      for i := 0 to |wallets|
        invariant old(instance) <= instance && old(seeded) <= seeded && calls == old(calls)
        invariant forall k :: 0 <= k < i ==>
                    SeededBetween(seeded, old(instance), instance, wallets[k])
      {
        label Before:
        Await();
        var fails: bool := *;
        if fails {
          calls := calls + [Seed(false)];
          return false;
        }
        seeded := seeded + {Seeding(instance, wallets[i].wallet.address, wallets[i].amountAtomic)};
        forall k | 0 <= k <= i ensures SeededBetween(seeded, old(instance), instance, wallets[k]) {
          if k < i {
            StaySeeded(old@Before(seeded), seeded, old(instance), old@Before(instance), instance, wallets[k]);
          } else {
            assert GotBalance(seeded, instance, wallets[k]);
          }
        }
      }
      calls := calls + [Seed(true)];
      return true;
    }

    /** Reading one wallet's balance through the synchronization job. */
    method Observe(fixture: Fixture) returns (ok: bool, ghost answering: nat)
      modifies this
      ensures old(instance) <= answering <= instance && seeded == old(seeded)
      ensures calls == old(calls) + [Observed(ok, answering)]
    {
      Await();
      ok, answering := *, instance;
      calls := calls + [Observed(ok, answering)];
      Await();
    }
  }

  predicate GotBalance(seeded: set<Seeding>, instance: nat, f: Fixture) {
    Seeding(instance, f.wallet.address, f.amountAtomic) in seeded
  }

  ghost predicate SeededBetween(seeded: set<Seeding>, first: nat, last: nat, f: Fixture) {
    exists n :: first <= n <= last && GotBalance(seeded, n, f)
  }

  lemma StaySeeded(seeded: set<Seeding>, more: set<Seeding>, first: nat, last: nat, later: nat, f: Fixture)
    requires seeded <= more && last <= later && SeededBetween(seeded, first, last, f)
    ensures SeededBetween(more, first, later, f)
  {
    var n :| first <= n <= last && GotBalance(seeded, n, f);
    assert GotBalance(more, n, f);
  }

  /** Seeded between two moments with one instance between them is seeded on that instance. */
  lemma SeededOnOne(seeded: set<Seeding>, n: nat, pending: seq<Fixture>)
    requires forall i :: 0 <= i < |pending| ==> SeededBetween(seeded, n, n, pending[i])
    ensures forall f | f in pending :: GotBalance(seeded, n, f) && IsSeeded(seeded, n, f.wallet.address)
  {
    forall f | f in pending ensures GotBalance(seeded, n, f) {
      var i :| 0 <= i < |pending| && pending[i] == f;
      assert SeededBetween(seeded, n, n, pending[i]);
    }
  }

  lemma EvmCovered(wallets: seq<Wallet>, fixtures: seq<Fixture>, known: set<string>, pending: seq<Fixture>)
    requires fixtures == FixturesOf(wallets)
    requires forall i :: 0 <= i < |fixtures| && fixtures[i].wallet.namespace == EVM ==>
               fixtures[i].wallet.address in known || fixtures[i] in pending
    ensures EvmAddresses(wallets) <= known + set f | f in pending :: f.wallet.address
  {
    forall a | a in EvmAddresses(wallets) && a !in known ensures a in set f | f in pending :: f.wallet.address {
      var i :| 0 <= i < |wallets| && wallets[i].namespace == EVM && wallets[i].address == a;
      assert fixtures[i].wallet == wallets[i] && fixtures[i] in pending;
    }
  }

  /** Every EVM wallet was known before or now has its share of this request's split on instance `n`. */
  predicate SharesSeeded(wallets: seq<Wallet>, known: set<string>, seeded: set<Seeding>, n: nat) {
    forall i :: 0 <= i < |wallets| && wallets[i].namespace == EVM ==>
      wallets[i].address in known || Seeding(n, wallets[i].address, AmountOf(wallets, i)) in seeded
  }

  lemma SharesCovered(
    wallets: seq<Wallet>, fixtures: seq<Fixture>, known: set<string>, pending: seq<Fixture>, seeded: set<Seeding>,
    n: nat)
    requires fixtures == FixturesOf(wallets)
    requires forall i :: 0 <= i < |fixtures| && fixtures[i].wallet.namespace == EVM ==>
               fixtures[i].wallet.address in known || fixtures[i] in pending
    requires forall f | f in pending :: GotBalance(seeded, n, f)
    ensures SharesSeeded(wallets, known, seeded, n)
  {
    hide AmountOf;
    forall i | 0 <= i < |wallets| && wallets[i].namespace == EVM && wallets[i].address !in known
      ensures Seeding(n, wallets[i].address, AmountOf(wallets, i)) in seeded
    {
      assert fixtures[i] == Fixture(wallets[i], AmountOf(wallets, i), i);
      assert GotBalance(seeded, n, fixtures[i]);
    }
  }

  /** The addresses known to be seeded on instance `n` from what the pipeline remembers. */
  function Known(remembered: Option<nat>, marked: set<string>, n: nat): set<string> {
    if remembered == Some(n) then marked else {}
  }

  /** A seeding is asked for exactly when some EVM address is not known yet. */
  lemma PendingExactly(wallets: seq<Wallet>, fixtures: seq<Fixture>, known: set<string>, pending: seq<Fixture>)
    requires fixtures == FixturesOf(wallets) && EvmAddresses(wallets) <= known + set f | f in pending :: f.wallet.address
    requires forall f | f in pending :: f in fixtures && f.wallet.namespace == EVM && f.wallet.address !in known
    ensures pending == [] <==> EvmAddresses(wallets) <= known
  {
    if pending != [] {
      var f := pending[0];
      assert f in pending;
      var i :| 0 <= i < |fixtures| && fixtures[i] == f;
      assert wallets[i] in wallets && wallets[i].address in EvmAddresses(wallets);
    }
  }

  datatype Request = Request(scopeIsValid: bool, wallets: seq<Wallet>)

  /** A synchronized request carries the instance it ran on, if it involved the node. */
  datatype Outcome = Failed | Synchronized(instance: Option<nat>)

  function EvmAddresses(wallets: seq<Wallet>): set<string> {
    set w | w in wallets && w.namespace == EVM :: w.address
  }

  lemma SameAddresses(a: seq<Wallet>, b: seq<Wallet>)
    requires SameWallets(b, a)
    ensures EvmAddresses(a) == EvmAddresses(b)
  {
  }

  predicate ValidRequest(request: Request, accepts: Wallet -> bool) {
    request.scopeIsValid && request.wallets != [] && Acceptable(request.wallets, accepts)
  }

  /** Every wallet was observed, and nothing else was asked. */
  predicate ObservesAll(made: seq<Call>, count: nat) {
    |made| == count && forall c | c in made :: c.Observed? && c.ok
  }

  /** Observations that one instance answered. */
  lemma ObservationsOn(made: seq<Call>, n: nat, count: nat)
    requires ObservesAll(made, count)
    ensures Within(made, n, n) ==> made == seq(count, _ => Observed(true, n))
  {
    if Within(made, n, n) {
      forall i | 0 <= i < count ensures made[i] == Observed(true, n) {
        assert made[i] in made && InWindow(made[i], n, n);
      }
    }
  }

  lemma OneRead(id: Option<nat>, first: nat, last: nat)
    requires InWindow(ReadId(id), first, last)
    ensures Within([ReadId(id)], first, last)
  {
  }

  lemma StaySeededAll(
    seeded: set<Seeding>, more: set<Seeding>, first: nat, last: nat, later: nat, pending: seq<Fixture>)
    requires seeded <= more && last <= later
    requires forall i :: 0 <= i < |pending| ==> SeededBetween(seeded, first, last, pending[i])
    ensures forall i :: 0 <= i < |pending| ==> SeededBetween(more, first, later, pending[i])
  {
    forall i | 0 <= i < |pending| ensures SeededBetween(more, first, later, pending[i]) {
      StaySeeded(seeded, more, first, last, later, pending[i]);
    }
  }

  lemma PendingAddresses(wallets: seq<Wallet>, fixtures: seq<Fixture>, known: set<string>, pending: seq<Fixture>)
    requires fixtures == FixturesOf(wallets) && EvmAddresses(wallets) <= known + set f | f in pending :: f.wallet.address
    requires forall f | f in pending :: f in fixtures && f.wallet.namespace == EVM
    ensures known + (set f | f in pending :: f.wallet.address) == known + EvmAddresses(wallets)
  {
    forall f | f in pending ensures f.wallet.address in EvmAddresses(wallets) {
      var i :| 0 <= i < |fixtures| && fixtures[i] == f;
      assert wallets[i] in wallets;
    }
  }

  class LocalDemoChainPipeline {
    const node: EvmNode
    const accepts: Wallet -> bool
    const comesBefore: (string, string) -> bool
    var initializedEvmWallets: set<string>
    var initializedNodeInstanceId: Option<nat>
    var queue: seq<Request>

    /** Every address marked initialized was seeded on the remembered instance. */
    ghost predicate Valid()
      reads this, node
    {
      match initializedNodeInstanceId
      case None => initializedEvmWallets == {}
      case Some(n) =>
        n <= node.instance && forall w | w in initializedEvmWallets :: IsSeeded(node.seeded, n, w)
    }

    constructor (node: EvmNode, accepts: Wallet -> bool, comesBefore: (string, string) -> bool)
      ensures Valid() && this.node == node && this.accepts == accepts && this.comesBefore == comesBefore && queue == []
    {
      this.node, this.accepts, this.comesBefore := node, accepts, comesBefore;
      initializedEvmWallets, initializedNodeInstanceId, queue := {}, None, [];
    }

    method InvalidateEvmInitialization()
      modifies this`initializedEvmWallets, this`initializedNodeInstanceId
      ensures initializedEvmWallets == {} && initializedNodeInstanceId == None
    {
      initializedEvmWallets, initializedNodeInstanceId := {}, None;
    }

    /** The fixtures of the namespace that are not among `known`. */
    method Pending(fixtures: seq<Fixture>, known: set<string>) returns (pending: seq<Fixture>)
      ensures forall i :: 0 <= i < |fixtures| && fixtures[i].wallet.namespace == EVM ==>
                fixtures[i].wallet.address in known || fixtures[i] in pending
      ensures forall f | f in pending :: f in fixtures && f.wallet.namespace == EVM && f.wallet.address !in known
    {
      pending := [];
      for i := 0 to |fixtures|
        invariant forall k :: 0 <= k < i && fixtures[k].wallet.namespace == EVM ==>
                    fixtures[k].wallet.address in known || fixtures[k] in pending
        invariant forall f | f in pending :: f in fixtures && f.wallet.namespace == EVM && f.wallet.address !in known
      {
        if fixtures[i].wallet.namespace == EVM && fixtures[i].wallet.address !in known {
          pending := pending + [fixtures[i]];
        }
      }
    }

    /**
     One request, start to end, or the failure that clears everything the pipeline remembered. Whether it succeeds
     depends on the request and on the calls made for it, and on nothing that happened before.
     */
    method SynchronizeWithinNodeInstance(request: Request) returns (outcome: Outcome, ghost made: seq<Call>)
      requires Valid()
      modifies this`initializedEvmWallets, this`initializedNodeInstanceId, node
      ensures Valid() && old(node.instance) <= node.instance && old(node.seeded) <= node.seeded
      ensures node.calls == old(node.calls) + made && Within(made, old(node.instance), node.instance)
      ensures outcome == Failed ==> initializedEvmWallets == {} && initializedNodeInstanceId == None
      ensures outcome.Synchronized? <==> ValidRequest(request, accepts) && Undisturbed(made)
      ensures outcome.Synchronized? && outcome.instance.None? ==>
                && EvmAddresses(request.wallets) == {}
                && ObservesAll(made, |request.wallets|)
                && initializedEvmWallets == old(initializedEvmWallets)
                && initializedNodeInstanceId == old(initializedNodeInstanceId)
      ensures outcome.Synchronized? && outcome.instance.Some? ==>
                var n := outcome.instance.value;
                var known := Known(old(initializedNodeInstanceId), old(initializedEvmWallets), n);
                && EvmAddresses(request.wallets) != {} && initializedNodeInstanceId == Some(n)
                && old(node.instance) <= n <= node.instance
                && made == CallsOn(n, !(EvmAddresses(request.wallets) <= known), |request.wallets|)
                && initializedEvmWallets == known + EvmAddresses(request.wallets)
                && SharesSeeded(ByWalletId(request.wallets, comesBefore), known, node.seeded, n)
    {
      outcome, made := Failed, [];
      var fixtures := None;
      if request.scopeIsValid && request.wallets != [] {
        fixtures := BuildFixtureWallets(request.wallets, accepts, comesBefore);
      }
      hide EvmAddresses, SharesSeeded, ByWalletId, FixturesOf, Acceptable, Undisturbed, CallsOn, ObservesAll;
      if fixtures.Some? {
        SortKeepsWallets(request.wallets, comesBefore);
        SameAddresses(request.wallets, ByWalletId(request.wallets, comesBefore));
        outcome, made := SynchronizeFixtures(fixtures.value, ByWalletId(request.wallets, comesBefore));
      }
      if outcome == Failed {
        InvalidateEvmInitialization();
      }
    }

    /** The part of a request that talks to the node. A failure may leave the remembered state as it was. */
    method SynchronizeFixtures(fixtures: seq<Fixture>, ghost wallets: seq<Wallet>)
      returns (outcome: Outcome, ghost made: seq<Call>)
      requires Valid() && fixtures == FixturesOf(wallets)
      modifies this`initializedEvmWallets, this`initializedNodeInstanceId, node
      ensures Valid() && old(node.instance) <= node.instance && old(node.seeded) <= node.seeded
      ensures node.calls == old(node.calls) + made && Within(made, old(node.instance), node.instance)
      ensures outcome.Synchronized? <==> Undisturbed(made)
      ensures outcome.Synchronized? && outcome.instance.None? ==>
                && EvmAddresses(wallets) == {}
                && ObservesAll(made, |wallets|)
                && initializedEvmWallets == old(initializedEvmWallets)
                && initializedNodeInstanceId == old(initializedNodeInstanceId)
      ensures outcome.Synchronized? && outcome.instance.Some? ==>
                var n := outcome.instance.value;
                var known := Known(old(initializedNodeInstanceId), old(initializedEvmWallets), n);
                && EvmAddresses(wallets) != {} && initializedNodeInstanceId == Some(n)
                && old(node.instance) <= n <= node.instance
                && made == CallsOn(n, !(EvmAddresses(wallets) <= known), |wallets|)
                && initializedEvmWallets == known + EvmAddresses(wallets)
                && SharesSeeded(wallets, known, node.seeded, n)
    {
      hide FixturesOf, EvmAddresses, SharesSeeded, Undisturbed, CallsOn, Known, IsSeeded, Within;
      var evmFixtures := Pending(fixtures, {});
      EvmCovered(wallets, fixtures, {}, evmFixtures);
      PendingExactly(wallets, fixtures, {}, evmFixtures);
      if evmFixtures == [] {
        outcome, made := SynchronizeOffNode(fixtures);
      } else {
        outcome, made := SynchronizeOnNode(fixtures, wallets);
      }
    }

    /** A request without EVM wallets reads no instance. */
    method SynchronizeOffNode(fixtures: seq<Fixture>) returns (outcome: Outcome, ghost made: seq<Call>)
      requires Valid()
      modifies node
      ensures Valid() && old(node.instance) <= node.instance && node.seeded == old(node.seeded)
      ensures node.calls == old(node.calls) + made && Within(made, old(node.instance), node.instance)
      ensures outcome.Synchronized? <==> Undisturbed(made)
      ensures outcome.Synchronized? ==> outcome.instance == None && ObservesAll(made, |fixtures|)
    {
      var ok;
      ok, made := ObserveAll(fixtures);
      outcome := if ok then Synchronized(None) else Failed;
    }

    /** Reads the instance, seeds what is pending, observes every wallet, and reads the instance again. */
    method SynchronizeOnNode(fixtures: seq<Fixture>, ghost wallets: seq<Wallet>)
      returns (outcome: Outcome, ghost made: seq<Call>)
      requires Valid() && fixtures == FixturesOf(wallets)
      modifies this`initializedEvmWallets, this`initializedNodeInstanceId, node
      ensures Valid() && old(node.instance) <= node.instance && old(node.seeded) <= node.seeded
      ensures node.calls == old(node.calls) + made && Within(made, old(node.instance), node.instance)
      ensures outcome.Synchronized? <==> Undisturbed(made)
      ensures outcome.Synchronized? ==>
                && outcome.instance.Some?
                && var n := outcome.instance.value;
                   var known := Known(old(initializedNodeInstanceId), old(initializedEvmWallets), n);
                   && initializedNodeInstanceId == Some(n)
                   && old(node.instance) <= n <= node.instance
                   && made == CallsOn(n, !(EvmAddresses(wallets) <= known), |wallets|)
                   && initializedEvmWallets == known + EvmAddresses(wallets)
                   && SharesSeeded(wallets, known, node.seeded, n)
    {
      hide SeededBetween, FixturesOf, EvmAddresses, SharesSeeded, GotBalance, Undisturbed, MiddleCalls, Within;
      var id := node.ReadNodeInstanceId();
      made := [ReadId(id)];
      ghost var first := node.instance;
      OneRead(id, old(node.instance), first);
      if id.None? {
        FailureDisturbs(made, ReadId(id));
        return Failed, made;
      }
      Forget(id.value);
      ghost var known := initializedEvmWallets;
      var pending := Pending(fixtures, initializedEvmWallets);
      EvmCovered(wallets, fixtures, known, pending);
      PendingExactly(wallets, fixtures, known, pending);
      var ok;
      ghost var middle;
      ok, middle := SeedAndObserve(pending, fixtures);
      ghost var seeded, last := node.seeded, node.instance;
      made := made + middle;
      WithinConcat([ReadId(id)], middle, old(node.instance), first, last);
      if !ok {
        ghost var c :| c in middle && !Succeeded(c);
        FailureDisturbs(made, c);
        return Failed, made;
      }
      var after := node.ReadNodeInstanceId();
      OneRead(after, last, node.instance);
      WithinConcat(made, [ReadId(after)], old(node.instance), last, node.instance);
      made := made + [ReadId(after)];
      ReadsAgree(id.value, middle, after);
      if after != id {
        return Failed, made;
      }
      assert first == last == id.value;
      SeededOnOne(seeded, first, pending);
      SharesCovered(wallets, fixtures, known, pending, seeded, first);
      PendingAddresses(wallets, fixtures, known, pending);
      Remember(pending);
      initializedNodeInstanceId := id;
      return Synchronized(id), made;
    }

    /** Another instance than the remembered one answers: nothing is known to be seeded on it. */
    method Forget(n: nat)
      requires Valid()
      modifies this`initializedEvmWallets, this`initializedNodeInstanceId
      ensures Valid() && initializedEvmWallets == Known(old(initializedNodeInstanceId), old(initializedEvmWallets), n)
      ensures initializedNodeInstanceId == None || initializedNodeInstanceId == Some(n)
    {
      hide IsSeeded;
      if initializedNodeInstanceId.Some? && initializedNodeInstanceId != Some(n) {
        InvalidateEvmInitialization();
      }
    }

    method SeedAndObserve(pending: seq<Fixture>, fixtures: seq<Fixture>) returns (ok: bool, ghost made: seq<Call>)
      modifies node
      ensures old(node.instance) <= node.instance && old(node.seeded) <= node.seeded
      ensures node.calls == old(node.calls) + made && Within(made, old(node.instance), node.instance)
      ensures !ok ==> exists c :: c in made && !Succeeded(c)
      ensures ok ==> forall c | c in made :: Succeeded(c) && !c.ReadId?
      ensures ok && old(node.instance) == node.instance ==>
                made == MiddleCalls(node.instance, pending != [], |fixtures|)
      ensures ok ==> forall i :: 0 <= i < |pending| ==>
                       SeededBetween(node.seeded, old(node.instance), node.instance, pending[i])
    {
      hide SeededBetween;
      ok, made := true, [];
      if pending != [] {
        ok := node.SeedWalletBalances(pending);
        made := [Seed(ok)];
        if !ok {
          assert Seed(ok) in made;
          return;
        }
      }
      ghost var middle, seeded := node.instance, node.seeded;
      ghost var observed;
      ok, observed := ObserveAll(fixtures);
      WithinConcat(made, observed, old(node.instance), middle, node.instance);
      if ok {
        ObservationsOn(observed, node.instance, |fixtures|);
        StaySeededAll(seeded, node.seeded, old(node.instance), middle, node.instance, pending);
      } else {
        ghost var c :| c in observed && !Succeeded(c);
        assert c in made + observed;
      }
      made := made + observed;
    }

    method Remember(pending: seq<Fixture>)
      modifies this`initializedEvmWallets
      ensures initializedEvmWallets == old(initializedEvmWallets) + set f | f in pending :: f.wallet.address
    {
      for i := 0 to |pending|
        invariant initializedEvmWallets ==
                  old(initializedEvmWallets) + set k | 0 <= k < i :: pending[k].wallet.address
      {
        initializedEvmWallets := initializedEvmWallets + {pending[i].wallet.address};
      }
    }

    method ObserveAll(fixtures: seq<Fixture>) returns (ok: bool, ghost made: seq<Call>)
      modifies node
      ensures old(node.instance) <= node.instance && node.seeded == old(node.seeded)
      ensures node.calls == old(node.calls) + made && Within(made, old(node.instance), node.instance)
      ensures ok ==> ObservesAll(made, |fixtures|)
      ensures !ok ==> exists c :: c in made && !Succeeded(c)
    {
      ok, made := true, [];
      for i := 0 to |fixtures|
        invariant old(node.instance) <= node.instance && node.seeded == old(node.seeded)
        invariant node.calls == old(node.calls) + made && Within(made, old(node.instance), node.instance)
        invariant ObservesAll(made, i)
      {
        ghost var answering;
        ok, answering := node.Observe(fixtures[i]);
        ghost var c := Observed(ok, answering);
        made := made + [c];
        if !ok {
          assert c in made;
          return;
        }
      }
    }

    /** A request is chained behind those already waiting. */
    method Synchronize(request: Request)
      modifies this`queue
      ensures queue == old(queue) + [request]
    {
      queue := queue + [request];
    }

    /** Some of the requests still to come arrive; at least one when nothing else is waiting. */
    method Arrive(coming: seq<Request>) returns (rest: seq<Request>)
      modifies this`queue
      ensures |rest| <= |coming| && queue + rest == old(queue) + coming
      ensures old(queue) + coming != [] ==> queue != []
    {
      rest := coming;
      var more: bool := *;
      while rest != [] && (more || queue == [])
        invariant |rest| <= |coming| && queue + rest == old(queue) + coming
        decreases |rest|
      {
        Synchronize(rest[0]);
        rest := rest[1..];
        more := *;
      }
    }

    /**
     The waiting requests and those that arrive meanwhile run one after the other, each after the previous one has
     settled, whether it succeeded or failed; requests may arrive and the node may restart at any time. Every call
     the node sees belongs to the stretch of exactly one request, and that stretch alone decides the outcome.
     */
    method RunQueue(arrivals: seq<Request>) returns (outcomes: seq<Outcome>, ghost stretches: seq<Stretch>)
      requires Valid()
      modifies this, node
      ensures Valid() && queue == [] && |outcomes| == |stretches| == |old(queue) + arrivals|
      ensures node.calls == old(node.calls) + AllCalls(stretches)
      ensures Recorded(accepts, comesBefore, node.seeded, old(queue) + arrivals, outcomes, stretches, node.instance,
                       initializedNodeInstanceId, initializedEvmWallets)
    {
      hide IsSeeded, Served, Follows, AllCalls, Recorded, InstanceOf;
      ghost var requests, earlier := queue + arrivals, node.calls;
      var coming := arrivals;
      outcomes, stretches := [], [];
      NothingRecorded(accepts, comesBefore, node.seeded, requests, node.instance, initializedNodeInstanceId,
                      initializedEvmWallets);
      while queue != [] || coming != []
        invariant Valid() && |outcomes| == |stretches| <= |requests| && queue + coming == requests[|outcomes|..]
        invariant node.calls == earlier + AllCalls(stretches)
        invariant Recorded(accepts, comesBefore, node.seeded, requests, outcomes, stretches, node.instance,
                           initializedNodeInstanceId, initializedEvmWallets)
        decreases |queue| + |coming|
      {
        ghost var waiting, seeded, now := queue + coming, node.seeded, node.instance;
        ghost var remembered, marked := initializedNodeInstanceId, initializedEvmWallets;
        coming := Arrive(coming);
        var request := queue[0];
        assert request == waiting[0] && queue[1..] + coming == waiting[1..];
        queue := queue[1..];
        var outcome;
        ghost var stretch;
        outcome, stretch := ServeNext(request);
        RecordNext(accepts, comesBefore, seeded, node.seeded, requests, outcomes, stretches, now, remembered, marked,
                   outcome, stretch, node.instance, initializedNodeInstanceId, initializedEvmWallets);
        OneMoreStretch(stretches, stretch);
        outcomes, stretches := outcomes + [outcome], stretches + [stretch];
      }
    }

    /** The next request, after some time during which the node may restart. */
    method ServeNext(request: Request) returns (outcome: Outcome, ghost stretch: Stretch)
      requires Valid()
      modifies this`initializedEvmWallets, this`initializedNodeInstanceId, node
      ensures Valid() && old(node.instance) <= node.instance && old(node.seeded) <= node.seeded
      ensures node.calls == old(node.calls) + stretch.calls
      ensures stretch.remembered == old(initializedNodeInstanceId) && stretch.marked == old(initializedEvmWallets)
      ensures old(node.instance) <= stretch.first
      ensures Served(accepts, comesBefore, node.seeded, request, outcome, stretch)
      ensures Follows(outcome, stretch, node.instance, initializedNodeInstanceId, initializedEvmWallets)
      ensures outcome == Failed || outcome.instance.None? || old(node.instance) <= outcome.instance.value
      ensures InstanceOf(outcome) <= node.instance
    {
      hide EvmAddresses, SharesSeeded, ByWalletId, Undisturbed, CallsOn, ObservesAll, ValidRequest;
      node.Await();
      ghost var first, remembered, marked := node.instance, initializedNodeInstanceId, initializedEvmWallets;
      ghost var made;
      outcome, made := SynchronizeWithinNodeInstance(request);
      stretch := Stretch(made, remembered, marked, first, node.instance);
      CalmSucceeds(request, made, first, node.instance);
    }
  }

  /**
   What one request did: its calls, what the pipeline remembered when it began, and the first and last instance that
   ran meanwhile.
   */
  datatype Stretch = Stretch(calls: seq<Call>, remembered: Option<nat>, marked: set<string>, first: nat, last: nat)

  function AllCalls(stretches: seq<Stretch>): seq<Call> {
    if stretches == [] then [] else AllCalls(stretches[..|stretches| - 1]) + stretches[|stretches| - 1].calls
  }

  lemma OneMoreStretch(stretches: seq<Stretch>, s: Stretch)
    ensures AllCalls(stretches + [s]) == AllCalls(stretches) + s.calls
  {
    assert (stretches + [s])[..|stretches|] == stretches;
  }

  lemma CalmSucceeds(request: Request, made: seq<Call>, first: nat, last: nat)
    requires Within(made, first, last)
    ensures first == last && (forall c | c in made :: Succeeded(c)) ==> Undisturbed(made)
  {
    if first == last && forall c | c in made :: Succeeded(c) {
      CalmIsUndisturbed(made, first);
    }
  }

  /**
   A request succeeds exactly when it is valid and its own calls are undisturbed, so whenever none of them fails and
   the node does not restart meanwhile. Then every EVM wallet of it is seeded on the instance it reports, those not
   known there with their share of this request, and the calls are those of one instance, read again at the end.
   */
  ghost predicate Served(
    accepts: Wallet -> bool, before: (string, string) -> bool, seeded: set<Seeding>, request: Request,
    outcome: Outcome, s: Stretch)
  {
    && (outcome.Synchronized? <==> ValidRequest(request, accepts) && Undisturbed(s.calls))
    && (ValidRequest(request, accepts) && s.first == s.last && (forall c | c in s.calls :: Succeeded(c))
        ==> outcome.Synchronized?)
    && (outcome.Synchronized? ==>
          match outcome.instance
          case None => EvmAddresses(request.wallets) == {} && ObservesAll(s.calls, |request.wallets|)
          case Some(n) =>
            var known := Known(s.remembered, s.marked, n);
            && EvmAddresses(request.wallets) != {} && s.first <= n <= s.last
            && s.calls == CallsOn(n, !(EvmAddresses(request.wallets) <= known), |request.wallets|)
            && SharesSeeded(ByWalletId(request.wallets, before), known, seeded, n)
            && forall a | a in EvmAddresses(request.wallets) :: IsSeeded(seeded, n, a))
  }

  /** What the pipeline remembers after a request, with `now` the running instance. */
  predicate Follows(outcome: Outcome, s: Stretch, now: nat, remembered: Option<nat>, marked: set<string>) {
    && s.last <= now
    && (outcome == Failed ==> remembered == None && marked == {})
    && (outcome == Synchronized(None) ==> remembered == s.remembered && marked == s.marked)
    && (outcome.Synchronized? && outcome.instance.Some? ==> remembered == outcome.instance)
  }

  /** Each request begins after the one before it has settled, with what that one left behind. */
  predicate Linked(outcomes: seq<Outcome>, stretches: seq<Stretch>) {
    && |outcomes| == |stretches|
    && forall i :: 0 < i < |stretches| ==>
         Follows(outcomes[i - 1], stretches[i - 1], stretches[i].first, stretches[i].remembered, stretches[i].marked)
  }

  lemma LinkKept(outcomes: seq<Outcome>, stretches: seq<Stretch>, outcome: Outcome, s: Stretch, now: nat)
    requires Linked(outcomes, stretches) && now <= s.first
    requires outcomes != [] ==>
               Follows(outcomes[|outcomes| - 1], stretches[|outcomes| - 1], now, s.remembered, s.marked)
    ensures Linked(outcomes + [outcome], stretches + [s])
  {
  }

  function InstanceOf(outcome: Outcome): int {
    if outcome.Synchronized? && outcome.instance.Some? then outcome.instance.value else -1
  }

  /** No request reports an instance older than one that an earlier request reported. */
  predicate InOrder(outcomes: seq<Outcome>) {
    forall i, j :: 0 <= i < j < |outcomes| && InstanceOf(outcomes[j]) != -1 ==>
      InstanceOf(outcomes[i]) <= InstanceOf(outcomes[j])
  }

  lemma StaysServed(
    accepts: Wallet -> bool, before: (string, string) -> bool, seeded: set<Seeding>, more: set<Seeding>,
    requests: seq<Request>, outcomes: seq<Outcome>, stretches: seq<Stretch>)
    requires seeded <= more && |outcomes| == |stretches| <= |requests|
    requires forall i :: 0 <= i < |outcomes| ==>
               Served(accepts, before, seeded, requests[i], outcomes[i], stretches[i])
    ensures forall i :: 0 <= i < |outcomes| ==>
              Served(accepts, before, more, requests[i], outcomes[i], stretches[i])
  {
    hide Served;
    forall i | 0 <= i < |outcomes| ensures Served(accepts, before, more, requests[i], outcomes[i], stretches[i]) {
      StillServed(accepts, before, seeded, more, requests[i], outcomes[i], stretches[i]);
    }
  }

  lemma StillServed(
    accepts: Wallet -> bool, before: (string, string) -> bool, seeded: set<Seeding>, more: set<Seeding>,
    request: Request, outcome: Outcome, s: Stretch)
    requires seeded <= more && Served(accepts, before, seeded, request, outcome, s)
    ensures Served(accepts, before, more, request, outcome, s)
  {
    hide EvmAddresses, ByWalletId, Undisturbed, CallsOn, ObservesAll, ValidRequest, AmountOf;
  }

  /**
   The requests served so far: each as `Served` says, linked one to the next, no instance older than an earlier one,
   and what is remembered now is what the last one left.
   */
  ghost predicate Recorded(
    accepts: Wallet -> bool, before: (string, string) -> bool, seeded: set<Seeding>, requests: seq<Request>,
    outcomes: seq<Outcome>, stretches: seq<Stretch>, now: nat, remembered: Option<nat>, marked: set<string>)
  {
    && |outcomes| == |stretches| <= |requests|
    && (forall i :: 0 <= i < |outcomes| ==> Served(accepts, before, seeded, requests[i], outcomes[i], stretches[i]))
    && (forall i :: 0 <= i < |outcomes| ==> InstanceOf(outcomes[i]) <= now)
    && Linked(outcomes, stretches) && InOrder(outcomes)
    && (outcomes != [] ==>
          Follows(outcomes[|outcomes| - 1], stretches[|outcomes| - 1], now, remembered, marked))
  }

  lemma NothingRecorded(
    accepts: Wallet -> bool, before: (string, string) -> bool, seeded: set<Seeding>, requests: seq<Request>, now: nat,
    remembered: Option<nat>, marked: set<string>)
    ensures Recorded(accepts, before, seeded, requests, [], [], now, remembered, marked) && AllCalls([]) == []
  {
  }

  lemma RecordNext(
    accepts: Wallet -> bool, before: (string, string) -> bool, seeded: set<Seeding>, more: set<Seeding>,
    requests: seq<Request>, outcomes: seq<Outcome>, stretches: seq<Stretch>, now: nat, remembered: Option<nat>,
    marked: set<string>, outcome: Outcome, s: Stretch, later: nat, rememberedThen: Option<nat>, markedThen: set<string>)
    requires Recorded(accepts, before, seeded, requests, outcomes, stretches, now, remembered, marked)
    requires seeded <= more && now <= later && now <= s.first && |outcomes| < |requests|
    requires s.remembered == remembered && s.marked == marked
    requires Served(accepts, before, more, requests[|outcomes|], outcome, s)
    requires Follows(outcome, s, later, rememberedThen, markedThen)
    requires outcome == Failed || outcome.instance.None? || now <= outcome.instance.value
    requires InstanceOf(outcome) <= later
    ensures Recorded(accepts, before, more, requests, outcomes + [outcome], stretches + [s], later, rememberedThen, markedThen)
  {
    hide Served, Follows;
    StaysServed(accepts, before, seeded, more, requests, outcomes, stretches);
    OrderKept(outcomes, outcome);
    LinkKept(outcomes, stretches, outcome, s, now);
  }

  lemma OrderKept(outcomes: seq<Outcome>, outcome: Outcome)
    requires InOrder(outcomes)
    requires InstanceOf(outcome) != -1 ==>
               forall i :: 0 <= i < |outcomes| ==> InstanceOf(outcomes[i]) <= InstanceOf(outcome)
    ensures InOrder(outcomes + [outcome])
  {
  }
}
