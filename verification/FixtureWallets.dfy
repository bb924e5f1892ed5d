/** The deterministic balances that local demo wallets are given. */
module FixtureWallets {
  import opened Sequences
  import opened Sorting
  import opened Wrappers

  datatype Namespace = EVM | SOLANA

  datatype Wallet = Wallet(walletId: string, namespace: Namespace, chainId: string, address: string)

  datatype Fixture = Fixture(wallet: Wallet, amountAtomic: nat, ordinal: nat)

  const EVM_TOTAL_CENTS: nat := 700_000
  const SOLANA_TOTAL_CENTS: nat := 400_000
  const ATOMIC_UNITS_PER_CENT: nat := 10_000
  const MAX_WALLETS: nat := 32

  function TotalCents(n: Namespace): nat {
    if n == EVM then EVM_TOTAL_CENTS else SOLANA_TOTAL_CENTS
  }

  predicate DistinctIds(wallets: seq<Wallet>) {
    forall i, j :: 0 <= i < j < |wallets| ==> wallets[i].walletId != wallets[j].walletId
  }

  predicate DistinctIdentities(wallets: seq<Wallet>) {
    forall i, j :: 0 <= i < j < |wallets| ==>
      (wallets[i].namespace, wallets[i].address) != (wallets[j].namespace, wallets[j].address)
  }

  /** `accepts` is the check of one wallet's own identifier, chain and address. */
  predicate Acceptable(wallets: seq<Wallet>, accepts: Wallet -> bool) {
    && |wallets| <= MAX_WALLETS
    && (forall i :: 0 <= i < |wallets| ==> accepts(wallets[i]))
    && DistinctIds(wallets) && DistinctIdentities(wallets)
  }

  /** How many of the first `k` wallets belong to the namespace. */
  function Count(wallets: seq<Wallet>, n: Namespace, k: nat): (c: nat)
    requires k <= |wallets|
    ensures c <= k
  {
    if k == 0 then 0 else Count(wallets, n, k - 1) + if wallets[k - 1].namespace == n then 1 else 0
  }

  lemma {:induction false} CountGrows(wallets: seq<Wallet>, n: Namespace, j: nat, k: nat)
    requires j <= k <= |wallets|
    ensures Count(wallets, n, j) <= Count(wallets, n, k)
  {
    if j < k {
      CountGrows(wallets, n, j, k - 1);
    }
  }

  /** The cents of one of `count` wallets sharing `total`, `position` of them before it. */
  function Cents(total: nat, count: nat, position: nat): nat
    requires 0 < count
  {
    total / count + if position < total % count then 1 else 0
  }

  /** The cents of wallet `i`: an equal share of its namespace's total, one more for the first ones. */
  function CentsOf(wallets: seq<Wallet>, i: nat): nat
    requires i < |wallets|
  {
    var n := wallets[i].namespace;
    CountGrows(wallets, n, i + 1, |wallets|);
    Cents(TotalCents(n), Count(wallets, n, |wallets|), Count(wallets, n, i))
  }

  function AmountOf(wallets: seq<Wallet>, i: nat): nat
    requires i < |wallets|
  {
    CentsOf(wallets, i) * ATOMIC_UNITS_PER_CENT
  }

  function FixturesOf(wallets: seq<Wallet>): (r: seq<Fixture>)
    ensures |r| == |wallets|
  {
    seq(|wallets|, i requires 0 <= i < |wallets| =>
      Fixture(wallets[i], AmountOf(wallets, i), i))
  }

  // ---------------------------------------------------------------------------------------------
  // The order of the request
  // ---------------------------------------------------------------------------------------------

  function Ids(wallets: seq<Wallet>): set<string> {
    set w | w in wallets :: w.walletId
  }

  /** The language's comparison of texts puts the listed identifiers in one order; of other texts nothing is asked. */
  predicate TotalOn(before: (string, string) -> bool, ids: set<string>) {
    && (forall x, y | x in ids && y in ids && x != y :: before(x, y) <==> !before(y, x))
    && (forall x | x in ids :: !before(x, x))
    && (forall x, y, z | x in ids && y in ids && z in ids :: before(x, y) && before(y, z) ==> before(x, z))
  }

  function WalletOrder(wallets: seq<Wallet>, before: (string, string) -> bool): (nat, nat) -> bool {
    (i: nat, j: nat) => i < |wallets| && j < |wallets| && before(wallets[i].walletId, wallets[j].walletId)
  }

  /** The program's `sort` by identifier. */
  function ByWalletId(wallets: seq<Wallet>, before: (string, string) -> bool): (r: seq<Wallet>)
    ensures |r| == |wallets|
  {
    Permute(wallets, SortIndices(WalletOrder(wallets, before), |wallets|))
  }

  /** Fixtures for a request: refused as a whole, or one for each wallet in the order of their identifiers. */
  function FixturesFor(wallets: seq<Wallet>, accepts: Wallet -> bool, before: (string, string) -> bool)
    : Option<seq<Fixture>>
  {
    if Acceptable(wallets, accepts) then Some(FixturesOf(ByWalletId(wallets, before))) else None
  }

  ghost predicate SameWallets(a: seq<Wallet>, b: seq<Wallet>) {
    |a| == |b| && forall w :: w in a <==> w in b
  }

  lemma SortKeepsWallets(wallets: seq<Wallet>, before: (string, string) -> bool)
    ensures SameWallets(ByWalletId(wallets, before), wallets)
  {
    hide SortIndices, ListsAll;
    SortListsAll(WalletOrder(wallets, before), |wallets|);
    PermuteMembers(wallets, SortIndices(WalletOrder(wallets, before), |wallets|));
  }

  function Keyed<K>(wallets: seq<Wallet>, key: Wallet -> K): (r: seq<K>)
    ensures |r| == |wallets|
  {
    seq(|wallets|, i requires 0 <= i < |wallets| => key(wallets[i]))
  }

  /** Whether keys repeat depends on which wallets there are, not on their order. */
  lemma SameDistinct<K(!new)>(a: seq<Wallet>, b: seq<Wallet>, key: Wallet -> K)
    requires SameWallets(a, b)
    requires forall i, j :: 0 <= i < j < |a| ==> key(a[i]) != key(a[j])
    ensures forall i, j :: 0 <= i < j < |b| ==> key(b[i]) != key(b[j])
  {
    DistinctCardinality(Keyed(a, key));
    assert Elements(Keyed(a, key)) == Elements(Keyed(b, key)) by {
      SameKeys(a, b, key);
      SameKeys(b, a, key);
    }
    FullCardinality(Keyed(b, key));
    forall i, j | 0 <= i < j < |b| ensures key(b[i]) != key(b[j]) {
      assert Keyed(b, key)[i] != Keyed(b, key)[j];
    }
  }

  lemma SameKeys<K(!new)>(a: seq<Wallet>, b: seq<Wallet>, key: Wallet -> K)
    requires SameWallets(a, b)
    ensures forall k :: k in Keyed(a, key) ==> k in Keyed(b, key)
  {
    forall k | k in Keyed(a, key) ensures k in Keyed(b, key) {
      var i :| 0 <= i < |a| && Keyed(a, key)[i] == k;
      assert a[i] in b;
      var j :| 0 <= j < |b| && b[j] == a[i];
      assert Keyed(b, key)[j] == k;
    }
  }

  lemma SameAcceptable(a: seq<Wallet>, b: seq<Wallet>, accepts: Wallet -> bool)
    requires SameWallets(a, b) && Acceptable(a, accepts)
    ensures Acceptable(b, accepts)
  {
    var id, identity := (w: Wallet) => w.walletId, (w: Wallet) => (w.namespace, w.address);
    SameDistinct(a, b, id);
    SameDistinct(a, b, identity);
    forall i, j | 0 <= i < j < |b| ensures b[i].walletId != b[j].walletId {
      assert id(b[i]) != id(b[j]);
    }
    forall i, j | 0 <= i < j < |b| ensures (b[i].namespace, b[i].address) != (b[j].namespace, b[j].address) {
      assert identity(b[i]) != identity(b[j]);
    }
    forall i | 0 <= i < |b| ensures accepts(b[i]) {
      assert b[i] in a;
    }
  }

  function IdOrder(before: (string, string) -> bool): (Wallet, Wallet) -> bool {
    (v: Wallet, w: Wallet) => before(v.walletId, w.walletId)
  }

  lemma SortedById(wallets: seq<Wallet>, before: (string, string) -> bool)
    requires TotalOn(before, Ids(wallets)) && DistinctIds(wallets)
    ensures Ascends(IdOrder(before), ByWalletId(wallets, before))
  {
    hide SortIndices, TotalOn;
    WalletsAreOrdered(wallets, before);
    hide IsOrder;
    SortSorts(WalletOrder(wallets, before), |wallets|);
  }

  lemma WalletsAreOrdered(wallets: seq<Wallet>, before: (string, string) -> bool)
    requires TotalOn(before, Ids(wallets)) && DistinctIds(wallets)
    ensures IsOrder(WalletOrder(wallets, before), |wallets|)
  {
    var order, ids := WalletOrder(wallets, before), Ids(wallets);
    assert forall i :: 0 <= i < |wallets| ==> wallets[i].walletId in ids;
    forall i: nat, j: nat | i < |wallets| && j < |wallets| && i != j ensures order(i, j) <==> !order(j, i) {
      assert wallets[i].walletId != wallets[j].walletId;
    }
    forall i: nat, j: nat, k: nat | i < |wallets| && j < |wallets| && k < |wallets| && order(i, j) && order(j, k)
      ensures order(i, k)
    {
      assert before(wallets[i].walletId, wallets[j].walletId) && before(wallets[j].walletId, wallets[k].walletId);
    }
  }

  /** Which share a wallet gets does not depend on the order in which the request lists the wallets. */
  lemma RequestOrderIsIgnored(
    a: seq<Wallet>, b: seq<Wallet>, accepts: Wallet -> bool, before: (string, string) -> bool)
    requires SameWallets(a, b) && (Acceptable(a, accepts) ==> TotalOn(before, Ids(a)))
    ensures FixturesFor(a, accepts, before) == FixturesFor(b, accepts, before)
  {
    hide ByWalletId, FixturesOf, Acceptable, Ascends, TotalOn, Asymmetric;
    if Acceptable(b, accepts) {
      SameAcceptable(b, a, accepts);
    }
    if Acceptable(a, accepts) {
      SameAcceptable(a, b, accepts);
      assert Ids(a) == Ids(b);
      AcceptableDistinct(a, accepts);
      AcceptableDistinct(b, accepts);
      SortedById(a, before);
      SortedById(b, before);
      SortKeepsWallets(a, before);
      SortKeepsWallets(b, before);
      assert Ids(ByWalletId(a, before)) == Ids(a);
      OrderIsAsymmetric(ByWalletId(a, before), before);
      AscendingUnique(IdOrder(before), ByWalletId(a, before), ByWalletId(b, before));
    }
  }

  lemma AcceptableDistinct(wallets: seq<Wallet>, accepts: Wallet -> bool)
    requires Acceptable(wallets, accepts)
    ensures DistinctIds(wallets)
  {
  }

  lemma OrderIsAsymmetric(wallets: seq<Wallet>, before: (string, string) -> bool)
    requires TotalOn(before, Ids(wallets))
    ensures Asymmetric(IdOrder(before), wallets)
  {
    forall i, j | 0 <= i < |wallets| && 0 <= j < |wallets| && IdOrder(before)(wallets[i], wallets[j])
      ensures !IdOrder(before)(wallets[j], wallets[i])
    {
      assert wallets[i].walletId in Ids(wallets) && wallets[j].walletId in Ids(wallets);
    }
  }

  // ---------------------------------------------------------------------------------------------
  // What the split promises
  // ---------------------------------------------------------------------------------------------

  /** The cents of the first `k` wallets that belong to the namespace. */
  function NamespaceCents(wallets: seq<Wallet>, n: Namespace, k: nat): seq<int>
    requires k <= |wallets|
  {
    if k == 0 then []
    else NamespaceCents(wallets, n, k - 1) + if wallets[k - 1].namespace == n then [CentsOf(wallets, k - 1)] else []
  }

  /** What the first `c` of `count` wallets have got of `total`. */
  function Handed(total: nat, count: nat, c: nat): int
    requires 0 < count
  {
    c * (total / count) + if c < total % count then c else total % count
  }

  lemma HandedStep(total: nat, count: nat, c: nat)
    requires 0 < count
    ensures Handed(total, count, c + 1) == Handed(total, count, c) + Cents(total, count, c)
  {
    NextMultiple(c, total / count);
  }

  lemma NextMultiple(c: int, q: int)
    ensures (c + 1) * q == c * q + q
  {
  }

  lemma SumSnoc(s: seq<int>, x: int)
    ensures Sum(s + [x]) == Sum(s) + x && s + [] == s
  {
    assert (s + [x])[..|s|] == s;
  }

  lemma NextPrefix(wallets: seq<Wallet>, n: Namespace, k: nat)
    requires k < |wallets| && 0 < Count(wallets, n, |wallets|)
    ensures var before := NamespaceCents(wallets, n, k);
      if wallets[k].namespace == n then
        && Count(wallets, n, k + 1) == Count(wallets, n, k) + 1
        && NamespaceCents(wallets, n, k + 1) ==
           before + [Cents(TotalCents(n), Count(wallets, n, |wallets|), Count(wallets, n, k))]
      else
        Count(wallets, n, k + 1) == Count(wallets, n, k) && NamespaceCents(wallets, n, k + 1) == before
  {
    hide Cents, TotalCents;
    assert NamespaceCents(wallets, n, k) + [] == NamespaceCents(wallets, n, k);
  }

  lemma {:induction false} PrefixSum(wallets: seq<Wallet>, n: Namespace, k: nat)
    requires k <= |wallets| && 0 < Count(wallets, n, |wallets|)
    ensures Sum(NamespaceCents(wallets, n, k)) ==
            Handed(TotalCents(n), Count(wallets, n, |wallets|), Count(wallets, n, k))
  {
    hide Sum, Handed, Cents, TotalCents, Count, NamespaceCents, CentsOf;
    if k == 0 {
      NoPrefix(wallets, n);
      NothingHanded(TotalCents(n), Count(wallets, n, |wallets|));
    } else {
      var count, c := Count(wallets, n, |wallets|), Count(wallets, n, k - 1);
      PrefixSum(wallets, n, k - 1);
      NextPrefix(wallets, n, k - 1);
      HandedStep(TotalCents(n), count, c);
      SumSnoc(NamespaceCents(wallets, n, k - 1), Cents(TotalCents(n), count, c));
    }
  }

  lemma NoPrefix(wallets: seq<Wallet>, n: Namespace)
    ensures Sum(NamespaceCents(wallets, n, 0)) == 0 && Count(wallets, n, 0) == 0
  {
  }

  lemma NothingHanded(total: nat, count: nat)
    requires 0 < count
    ensures Handed(total, count, 0) == 0
  {
  }

  /** The wallets of a namespace share its total exactly, no two of them more than one cent apart. */
  lemma SplitIsExactAndEven(wallets: seq<Wallet>, n: Namespace)
    ensures 0 < Count(wallets, n, |wallets|) ==>
              Sum(NamespaceCents(wallets, n, |wallets|)) == if n == EVM then 700_000 else 400_000
    ensures forall i, j | 0 <= i < j < |wallets| && wallets[i].namespace == wallets[j].namespace ::
              CentsOf(wallets, j) <= CentsOf(wallets, i) <= CentsOf(wallets, j) + 1
  {
    var count := Count(wallets, n, |wallets|);
    if 0 < count {
      PrefixSum(wallets, n, |wallets|);
      Division(TotalCents(n), count);
    }
    forall i, j | 0 <= i < j < |wallets| && wallets[i].namespace == wallets[j].namespace
      ensures CentsOf(wallets, j) <= CentsOf(wallets, i) <= CentsOf(wallets, j) + 1
    {
      CountGrows(wallets, wallets[i].namespace, i, j);
    }
  }

  lemma Division(total: nat, count: nat)
    requires 0 < count
    ensures count * (total / count) + total % count == total && total % count < count
  {
  }

  /** What the fixtures of a namespace hold together. */
  function Held(fixtures: seq<Fixture>, n: Namespace): int {
    SumOf(fixtures, (f: Fixture) => if f.wallet.namespace == n then f.amountAtomic else 0)
  }

  lemma {:induction false} HeldIsCents(wallets: seq<Wallet>, n: Namespace, k: nat)
    requires k <= |wallets|
    ensures Held(FixturesOf(wallets)[..k], n) == 10_000 * Sum(NamespaceCents(wallets, n, k))
  {
    hide CentsOf;
    if k != 0 {
      HeldIsCents(wallets, n, k - 1);
      assert FixturesOf(wallets)[..k][..k - 1] == FixturesOf(wallets)[..k - 1];
      SumSnoc(NamespaceCents(wallets, n, k - 1), CentsOf(wallets, k - 1));
    }
  }

  lemma {:induction false} CountsSome(wallets: seq<Wallet>, n: Namespace, i: nat)
    requires i < |wallets| && wallets[i].namespace == n
    ensures 0 < Count(wallets, n, |wallets|)
  {
    CountGrows(wallets, n, i + 1, |wallets|);
  }

  /** A list of at most 32 wallets, each acceptable, with neither an identifier nor an address of a chain twice. */
  ghost predicate Listable(wallets: seq<Wallet>, accepts: Wallet -> bool) {
    && |wallets| <= 32
    && (forall i :: 0 <= i < |wallets| ==> accepts(wallets[i]))
    && (forall i, j :: 0 <= i < |wallets| && 0 <= j < |wallets| && wallets[i].walletId == wallets[j].walletId ==> i == j)
    && (forall i, j | 0 <= i < |wallets| && 0 <= j < |wallets| ::
          wallets[i].namespace == wallets[j].namespace && wallets[i].address == wallets[j].address ==> i == j)
  }

  lemma ListableExactly(wallets: seq<Wallet>, accepts: Wallet -> bool)
    ensures Acceptable(wallets, accepts) <==> Listable(wallets, accepts)
  {
    if Acceptable(wallets, accepts) {
      forall i, j | 0 <= i < |wallets| && 0 <= j < |wallets| && i != j
        ensures wallets[i].walletId != wallets[j].walletId
        ensures wallets[i].namespace != wallets[j].namespace || wallets[i].address != wallets[j].address
      {
        var first, second := if i < j then i else j, if i < j then j else i;
        assert (wallets[first].namespace, wallets[first].address) != (wallets[second].namespace, wallets[second].address);
      }
    }
  }

  /** The fixtures in their order, with 7,000 dollars shared among the EVM wallets and 4,000 among the Solana ones. */
  ghost predicate FairFixtures(fixtures: seq<Fixture>) {
    && (forall i :: 0 <= i < |fixtures| ==> fixtures[i].ordinal == i)
    && (forall i, j | 0 <= i < j < |fixtures| && fixtures[i].wallet.namespace == fixtures[j].wallet.namespace ::
          fixtures[j].amountAtomic <= fixtures[i].amountAtomic <= fixtures[j].amountAtomic + 10_000)
    && (forall i | 0 <= i < |fixtures| :: fixtures[i].amountAtomic % 10_000 == 0
          && Held(fixtures, fixtures[i].wallet.namespace)
             == if fixtures[i].wallet.namespace == EVM then 7_000_000_000 else 4_000_000_000)
  }

  lemma FixturesAreFair(wallets: seq<Wallet>)
    ensures FairFixtures(FixturesOf(wallets))
  {
    hide CentsOf, Held, NamespaceCents, Count;
    var fixtures := FixturesOf(wallets);
    forall i, j | 0 <= i < j < |fixtures| && fixtures[i].wallet.namespace == fixtures[j].wallet.namespace
      ensures fixtures[j].amountAtomic <= fixtures[i].amountAtomic <= fixtures[j].amountAtomic + 10_000
    {
      SplitIsExactAndEven(wallets, wallets[i].namespace);
    }
    forall i | 0 <= i < |fixtures|
      ensures fixtures[i].amountAtomic % 10_000 == 0
      ensures Held(fixtures, fixtures[i].wallet.namespace)
           == if fixtures[i].wallet.namespace == EVM then 7_000_000_000 else 4_000_000_000
    {
      var n := wallets[i].namespace;
      CountsSome(wallets, n, i);
      SplitIsExactAndEven(wallets, n);
      HeldIsCents(wallets, n, |wallets|);
      assert fixtures[..|wallets|] == fixtures;
    }
  }

  lemma FixturesList(wallets: seq<Wallet>)
    ensures forall w :: w in wallets <==> exists i :: 0 <= i < |wallets| && FixturesOf(wallets)[i].wallet == w
  {
    forall w ensures w in wallets <==> exists i :: 0 <= i < |wallets| && FixturesOf(wallets)[i].wallet == w {
      if w in wallets {
        var i :| 0 <= i < |wallets| && wallets[i] == w;
        assert FixturesOf(wallets)[i].wallet == w;
      }
    }
  }

  /**
   Every listable request gets one fixture per wallet, in the order of the identifiers where the comparison orders them,
   each namespace's total shared to the cent; every other request is refused as a whole.
   */
  lemma FixturesMeaning(wallets: seq<Wallet>, accepts: Wallet -> bool, before: (string, string) -> bool)
    ensures var r := FixturesFor(wallets, accepts, before);
      && (r.Some? <==> Listable(wallets, accepts))
      && (r.Some? ==>
            && |r.value| == |wallets|
            && (forall w :: w in wallets <==> exists i :: 0 <= i < |r.value| && r.value[i].wallet == w)
            && FairFixtures(r.value))
      && (r.Some? && TotalOn(before, Ids(wallets)) ==>
            forall i, j :: 0 <= i < j < |r.value| ==> before(r.value[i].wallet.walletId, r.value[j].wallet.walletId))
  {
    hide Acceptable, Listable, ByWalletId, TotalOn, FairFixtures, AmountOf, DistinctIds;
    ListableExactly(wallets, accepts);
    if Acceptable(wallets, accepts) {
      var sorted := ByWalletId(wallets, before);
      AcceptableDistinct(wallets, accepts);
      SortKeepsWallets(wallets, before);
      FixturesAreFair(sorted);
      FixturesList(sorted);
      if TotalOn(before, Ids(wallets)) {
        SortedById(wallets, before);
        forall i, j | 0 <= i < j < |sorted| ensures before(sorted[i].walletId, sorted[j].walletId) {
          assert IdOrder(before)(sorted[i], sorted[j]);
        }
      }
    }
  }

  // ---------------------------------------------------------------------------------------------
  // The program's loops
  // ---------------------------------------------------------------------------------------------

  /** The duplicate checks, wallet by wallet. */
  method AssertWallets(wallets: seq<Wallet>, accepts: Wallet -> bool) returns (ok: bool)
    requires |wallets| <= MAX_WALLETS
    ensures ok <==> Acceptable(wallets, accepts)
  {
    var walletIds: set<string> := {};
    var identities: set<(Namespace, string)> := {};
    for i := 0 to |wallets|
      invariant Acceptable(wallets[..i], accepts)
      invariant walletIds == set k | 0 <= k < i :: wallets[k].walletId
      invariant identities == set k | 0 <= k < i :: (wallets[k].namespace, wallets[k].address)
    {
      var wallet := wallets[i];
      assert wallets[..i + 1][i] == wallet && wallets[..i + 1][..i] == wallets[..i];
      if !accepts(wallet) || wallet.walletId in walletIds || (wallet.namespace, wallet.address) in identities {
        return false;
      }
      walletIds := walletIds + {wallet.walletId};
      identities := identities + {(wallet.namespace, wallet.address)};
    }
    assert wallets[..|wallets|] == wallets;
    return true;
  }

  /** What is left of the remainder when the first `i` wallets have been served. */
  function RemainderAt(wallets: seq<Wallet>, n: Namespace, i: nat): nat
    requires i <= |wallets| && 0 < Count(wallets, n, |wallets|)
  {
    var all := TotalCents(n) % Count(wallets, n, |wallets|);
    if Count(wallets, n, i) < all then all - Count(wallets, n, i) else 0
  }

  lemma NextWallet(wallets: seq<Wallet>, n: Namespace, i: nat)
    requires i < |wallets| && 0 < Count(wallets, n, |wallets|)
    ensures wallets[i].namespace != n ==> RemainderAt(wallets, n, i + 1) == RemainderAt(wallets, n, i)
    ensures wallets[i].namespace == n ==>
              var r := RemainderAt(wallets, n, i);
              && RemainderAt(wallets, n, i + 1) == (if r > 0 then r - 1 else 0)
              && CentsOf(wallets, i) == TotalCents(n) / Count(wallets, n, |wallets|) + if r > 0 then 1 else 0
  {
  }

  predicate Holds(r: map<string, nat>, id: string, amount: nat) {
    id in r && r[id] == amount
  }

  /** Wallet `k` has its amount, or what `before` gave it when it belongs to the other namespace. */
  predicate Settled(wallets: seq<Wallet>, n: Namespace, before: map<string, nat>, r: map<string, nat>, k: nat)
    requires k < |wallets|
  {
    var id := wallets[k].walletId;
    if wallets[k].namespace == n then Holds(r, id, AmountOf(wallets, k)) else id in before ==> Holds(r, id, before[id])
  }

  lemma PutSettles(
    wallets: seq<Wallet>, n: Namespace, before: map<string, nat>, r: map<string, nat>, i: nat, amount: nat)
    requires DistinctIds(wallets) && i < |wallets| && wallets[i].namespace == n && amount == AmountOf(wallets, i)
    ensures Settled(wallets, n, before, r[wallets[i].walletId := amount], i)
    ensures forall k: nat :: k < |wallets| && k != i && Settled(wallets, n, before, r, k) ==>
                             Settled(wallets, n, before, r[wallets[i].walletId := amount], k)
  {
    hide AmountOf;
    forall k: nat | k < |wallets| && k != i && Settled(wallets, n, before, r, k)
      ensures Settled(wallets, n, before, r[wallets[i].walletId := amount], k)
    {
      assert wallets[k].walletId != wallets[i].walletId;
    }
  }

  /** Hands a namespace's total out over its wallets, the remainder cent by cent to the first ones. */
  method Allocate(wallets: seq<Wallet>, n: Namespace, allocations: map<string, nat>) returns (r: map<string, nat>)
    requires DistinctIds(wallets)
    ensures forall k :: 0 <= k < |wallets| ==> Settled(wallets, n, allocations, r, k)
  {
    hide DistinctIds, CentsOf;
    r := allocations;
    var count := Count(wallets, n, |wallets|);
    if count == 0 {
      NoneOf(wallets, n);
      return;
    }
    hide Settled, Count, TotalCents;
    var quotient, remainder := TotalCents(n) / count, TotalCents(n) % count;
    StartOf(wallets, n, allocations);
    for i := 0 to |wallets|
      invariant remainder == RemainderAt(wallets, n, i)
      invariant forall k :: 0 <= k < |wallets| && (wallets[k].namespace == n ==> k < i) ==>
                  Settled(wallets, n, allocations, r, k)
    {
      hide RemainderAt;
      NextWallet(wallets, n, i);
      if wallets[i].namespace == n {
        var cents := quotient + if remainder > 0 then 1 else 0;
        if remainder > 0 {
          remainder := remainder - 1;
        }
        PutSettles(wallets, n, allocations, r, i, cents * ATOMIC_UNITS_PER_CENT);
        r := r[wallets[i].walletId := cents * ATOMIC_UNITS_PER_CENT];
      }
    }
  }

  lemma StartOf(wallets: seq<Wallet>, n: Namespace, before: map<string, nat>)
    ensures forall k :: 0 <= k < |wallets| && wallets[k].namespace != n ==> Settled(wallets, n, before, before, k)
    ensures 0 < Count(wallets, n, |wallets|) ==>
              RemainderAt(wallets, n, 0) == TotalCents(n) % Count(wallets, n, |wallets|)
  {
  }

  lemma NoneOf(wallets: seq<Wallet>, n: Namespace)
    requires Count(wallets, n, |wallets|) == 0
    ensures forall i :: 0 <= i < |wallets| ==> wallets[i].namespace != n
  {
    forall i | 0 <= i < |wallets| ensures wallets[i].namespace != n {
      CountGrows(wallets, n, i + 1, |wallets|);
    }
  }

  /** Fixtures for the request's wallets, sorted by identifier first; nothing when they are refused. */
  method BuildFixtureWallets(inputWallets: seq<Wallet>, accepts: Wallet -> bool, before: (string, string) -> bool)
    returns (r: Option<seq<Fixture>>)
    ensures r == FixturesFor(inputWallets, accepts, before)
  {
    if |inputWallets| > MAX_WALLETS {
      return None;
    }
    hide CentsOf, Settled, FixturesOf, DistinctIds, ByWalletId;
    var wallets := ByWalletId(inputWallets, before);
    SortKeepsAcceptable(inputWallets, accepts, before);
    var ok := AssertWallets(wallets, accepts);
    if !ok {
      return None;
    }
    AcceptableDistinct(wallets, accepts);
    hide Acceptable;
    var evm := Allocate(wallets, EVM, map[]);
    var allocations := Allocate(wallets, SOLANA, evm);
    AllSettled(wallets, evm, allocations);
    var fixtures := Collect(wallets, allocations);
    return Some(fixtures);
  }

  lemma SortKeepsAcceptable(wallets: seq<Wallet>, accepts: Wallet -> bool, before: (string, string) -> bool)
    ensures Acceptable(ByWalletId(wallets, before), accepts) <==> Acceptable(wallets, accepts)
  {
    hide Acceptable, ByWalletId;
    SortKeepsWallets(wallets, before);
    if Acceptable(wallets, accepts) {
      SameAcceptable(wallets, ByWalletId(wallets, before), accepts);
    }
    if Acceptable(ByWalletId(wallets, before), accepts) {
      SameAcceptable(ByWalletId(wallets, before), wallets, accepts);
    }
  }

  method Collect(wallets: seq<Wallet>, allocations: map<string, nat>) returns (fixtures: seq<Fixture>)
    requires forall k :: 0 <= k < |wallets| ==> Holds(allocations, wallets[k].walletId, AmountOf(wallets, k))
    ensures fixtures == FixturesOf(wallets)
  {
    hide AmountOf;
    fixtures := [];
    for i := 0 to |wallets|
      invariant |fixtures| == i && forall k :: 0 <= k < i ==> fixtures[k] == FixturesOf(wallets)[k]
    {
      assert Holds(allocations, wallets[i].walletId, AmountOf(wallets, i));
      fixtures := fixtures + [Fixture(wallets[i], allocations[wallets[i].walletId], i)];
    }
  }

  lemma AllSettled(wallets: seq<Wallet>, evm: map<string, nat>, r: map<string, nat>)
    requires forall k :: 0 <= k < |wallets| ==> Settled(wallets, EVM, map[], evm, k)
    requires forall k :: 0 <= k < |wallets| ==> Settled(wallets, SOLANA, evm, r, k)
    ensures forall k :: 0 <= k < |wallets| ==> Holds(r, wallets[k].walletId, AmountOf(wallets, k))
  {
    hide AmountOf;
    forall k | 0 <= k < |wallets| ensures Holds(r, wallets[k].walletId, AmountOf(wallets, k)) {
      assert Settled(wallets, EVM, map[], evm, k) && Settled(wallets, SOLANA, evm, r, k);
    }
  }
}
