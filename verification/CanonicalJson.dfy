/** Canonical text of JSON values: object keys in code-unit order, whatever order they were inserted in. */
module CanonicalJson {
  import opened JsonReader
  import opened JsonText
  import opened Sequences
  import opened Sorting
  import opened Wrappers

  // ---------------------------------------------------------------------------------------------
  // Key order
  // ---------------------------------------------------------------------------------------------

  /** The default string order of `sort`: by UTF-16 code units. */
  predicate Less(a: Text, b: Text) {
    b != [] && (a == [] || a[0] < b[0] || (a[0] == b[0] && Less(a[1..], b[1..])))
  }

  /** The texts share their first `k` units; then `a` ends before `b`, or has the smaller unit. */
  ghost predicate Precedes(a: Text, b: Text, k: nat) {
    && k <= |a| && k < |b| && a[..k] == b[..k]
    && (k == |a| || a[k] < b[k])
  }

  lemma SharedPrefix(a: Text, b: Text, k: nat)
    requires a != [] && b != [] && Precedes(a, b, k)
    ensures 0 < k ==> a[0] == b[0]
  {
    assert 0 < k ==> a[..k][0] == a[0] && b[..k][0] == b[0];
  }

  lemma {:induction false} LessExactly(a: Text, b: Text)
    ensures Less(a, b) <==> exists k: nat :: Precedes(a, b, k)
  {
    if a == [] {
      assert b != [] ==> Precedes(a, b, 0);
    } else if b != [] {
      if a[0] == b[0] {
        LessExactly(a[1..], b[1..]);
        if Less(a[1..], b[1..]) {
          var k: nat :| Precedes(a[1..], b[1..], k);
          assert a[..k + 1] == [a[0]] + a[1..][..k] && b[..k + 1] == [b[0]] + b[1..][..k];
          assert Precedes(a, b, k + 1);
        }
        if k: nat :| Precedes(a, b, k) {
          assert a[1..][..k - 1] == a[..k][1..] && b[1..][..k - 1] == b[..k][1..];
          assert Precedes(a[1..], b[1..], k - 1);
        }
      } else {
        forall k: nat | Precedes(a, b, k) ensures k == 0 {
          SharedPrefix(a, b, k);
        }
        assert a[0] < b[0] ==> Precedes(a, b, 0);
      }
    }
  }

  lemma {:induction false} LessIsStrict(a: Text, b: Text)
    ensures !(Less(a, b) && Less(b, a))
    ensures a == b ==> !Less(a, b)
    ensures a == b || Less(a, b) || Less(b, a)
  {
    if a != [] && b != [] {
      LessIsStrict(a[1..], b[1..]);
      assert a == [a[0]] + a[1..] && b == [b[0]] + b[1..];
    }
  }

  lemma {:induction false} LessIsTransitive(a: Text, b: Text, c: Text)
    requires Less(a, b) && Less(b, c)
    ensures Less(a, c)
  {
    if a != [] && a[0] == b[0] && b[0] == c[0] {
      LessIsTransitive(a[1..], b[1..], c[1..]);
    }
  }

  predicate Distinct(keys: seq<Text>) {
    forall i, j :: 0 <= i < j < |keys| ==> keys[i] != keys[j]
  }

  predicate Ascending(keys: seq<Text>) {
    Ascends(Less, keys)
  }

  function KeyOrder(keys: seq<Text>): (nat, nat) -> bool {
    (i: nat, j: nat) => i < |keys| && j < |keys| && Less(keys[i], keys[j])
  }

  /** The order in which the sort lists the keys. */
  function Order(keys: seq<Text>): (r: seq<nat>)
    ensures |r| == |keys| && forall k :: 0 <= k < |r| ==> r[k] < |keys|
  {
    SortIndices(KeyOrder(keys), |keys|)
  }

  lemma OrderAscends(keys: seq<Text>)
    requires Distinct(keys)
    ensures Ascending(Permute(keys, Order(keys)))
    ensures ListsAll(Order(keys), |keys|)
  {
    hide SortIndices, Less, ListsAll;
    KeysAreOrdered(keys);
    SortListsAll(KeyOrder(keys), |keys|);
    SortSorts(KeyOrder(keys), |keys|);
  }

  lemma KeysAreOrdered(keys: seq<Text>)
    requires Distinct(keys)
    ensures IsOrder(KeyOrder(keys), |keys|)
  {
    hide Less;
    forall i: nat, j: nat | i < |keys| && j < |keys| && i != j
      ensures KeyOrder(keys)(i, j) <==> !KeyOrder(keys)(j, i)
    {
      assert keys[i] != keys[j];
      LessIsStrict(keys[i], keys[j]);
    }
    forall i: nat, j: nat, k: nat | i < |keys| && j < |keys| && k < |keys| && KeyOrder(keys)(i, j) && KeyOrder(keys)(j, k)
      ensures KeyOrder(keys)(i, k)
    {
      LessIsTransitive(keys[i], keys[j], keys[k]);
    }
  }

  // ---------------------------------------------------------------------------------------------
  // Normal form
  // ---------------------------------------------------------------------------------------------

  function Keys(entries: seq<Entry>): (r: seq<Text>)
    ensures |r| == |entries|
  {
    seq(|entries|, i requires 0 <= i < |entries| => entries[i].key)
  }

  /** Objects list no key twice. */
  predicate WellFormed(v: Json) {
    match v
    case Arr(items) => forall i :: 0 <= i < |items| ==> WellFormed(items[i])
    case Obj(entries) => Distinct(Keys(entries)) && forall i :: 0 <= i < |entries| ==> WellFormed(entries[i].value)
    case _ => true
  }

  function NormalItems(items: seq<Json>): (r: seq<Json>)
    ensures |r| == |items|
  {
    seq(|items|, i requires 0 <= i < |items| => Normal(items[i]))
  }

  function NormalEntries(entries: seq<Entry>): (r: seq<Entry>)
    ensures |r| == |entries|
    decreases entries, 0
  {
    seq(|entries|, i requires 0 <= i < |entries| => Entry(entries[i].key, Normal(entries[i].value)))
  }

  function SortedEntries(entries: seq<Entry>): (r: seq<Entry>)
    ensures |r| == |entries|
    decreases entries, 1
  {
    Permute(NormalEntries(entries), Order(Keys(entries)))
  }

  /** The value with every object's entries listed in key order. */
  function Normal(v: Json): Json {
    match v
    case Arr(items) => Arr(NormalItems(items))
    case Obj(entries) => Obj(SortedEntries(entries))
    case _ => v
  }

  function Canonical(v: Json): Text {
    Write(Normal(v))
  }

  /** Two values are the same when they differ in nothing but the insertion order of object keys. */
  ghost predicate Same(v: Json, w: Json) {
    match v
    case Arr(items) =>
      w.Arr? && |items| == |w.items| && forall i :: 0 <= i < |items| ==> Same(items[i], w.items[i])
    case Obj(entries) =>
      && w.Obj? && |entries| == |w.entries|
      && forall i :: 0 <= i < |entries| ==> SameAsSome(entries[i], w.entries)
    case _ => v == w
  }

  ghost predicate SameEntry(e: Entry, f: Entry) {
    e.key == f.key && Same(e.value, f.value)
  }

  ghost predicate SameAsSome(e: Entry, others: seq<Entry>) {
    exists j :: 0 <= j < |others| && SameEntry(e, others[j])
  }

  // ---------------------------------------------------------------------------------------------
  // Equal texts, equal values
  // ---------------------------------------------------------------------------------------------

  function EntryOrder(): (Entry, Entry) -> bool {
    (e: Entry, f: Entry) => Less(e.key, f.key)
  }

  lemma EntriesAscend(a: seq<Entry>)
    requires Ascending(Keys(a))
    ensures Ascends(EntryOrder(), a) && Asymmetric(EntryOrder(), a)
  {
    hide Less;
    forall i, j | 0 <= i < j < |a| ensures EntryOrder()(a[i], a[j]) {
      assert Less(Keys(a)[i], Keys(a)[j]);
    }
    forall i, j | 0 <= i < |a| && 0 <= j < |a| && EntryOrder()(a[i], a[j]) ensures !EntryOrder()(a[j], a[i]) {
      LessIsStrict(a[i].key, a[j].key);
    }
  }

  /** Ascending lists of the same length, one contained in the other, are equal. */
  lemma ContainedIsEqual(a: seq<Entry>, b: seq<Entry>)
    requires Ascending(Keys(a)) && Ascending(Keys(b)) && |a| == |b|
    requires forall e :: e in a ==> e in b
    ensures a == b
  {
    AscendingDistinct(a);
    AscendingDistinct(b);
    SubsetCardinality(Elements(a), Elements(b));
    forall e ensures e in a <==> e in b {
      assert e in a <==> e in Elements(a);
      assert e in b <==> e in Elements(b);
    }
    EntriesAscend(a);
    EntriesAscend(b);
    AscendingUnique(EntryOrder(), a, b);
  }

  lemma AscendingDistinct(a: seq<Entry>)
    requires Ascending(Keys(a))
    ensures |Elements(a)| == |a|
  {
    forall i, j | 0 <= i < j < |a| ensures a[i] != a[j] {
      assert Less(Keys(a)[i], Keys(a)[j]);
      LessIsStrict(a[i].key, a[j].key);
    }
    DistinctCardinality(a);
  }

  /** Sorting lists exactly the normalised entries, in key order. */
  lemma SortedMeaning(entries: seq<Entry>)
    requires Distinct(Keys(entries))
    ensures Ascending(Keys(SortedEntries(entries)))
    ensures forall i :: 0 <= i < |entries| ==> NormalEntries(entries)[i] in SortedEntries(entries)
    ensures forall e :: e in SortedEntries(entries) ==> e in NormalEntries(entries)
  {
    hide Less, Normal, NormalEntries, Distinct, Ascending, Order, Permute;
    var order := Order(Keys(entries));
    OrderAscends(Keys(entries));
    SortedKeys(entries);
    PermuteMembers(NormalEntries(entries), order);
  }

  lemma SortedKeys(entries: seq<Entry>)
    ensures Keys(SortedEntries(entries)) == Permute(Keys(entries), Order(Keys(entries)))
  {
    hide Order, Normal;
  }

  /** Normal forms agree exactly on values that are the same. */
  lemma {:induction false} NormalAgrees(v: Json, w: Json)
    requires WellFormed(v) && WellFormed(w)
    ensures Normal(v) == Normal(w) <==> Same(v, w)
    decreases v
  {
    match v
    case Arr(items) =>
      if w.Arr? && |items| == |w.items| {
        forall i | 0 <= i < |items| ensures NormalItems(items)[i] == NormalItems(w.items)[i] <==> Same(items[i], w.items[i]) {
          NormalAgrees(items[i], w.items[i]);
        }
        assert NormalItems(items) == NormalItems(w.items) <==> forall i :: 0 <= i < |items| ==> Same(items[i], w.items[i]);
      }
    case Obj(entries) =>
      if w.Obj? {
        forall i, j | 0 <= i < |entries| && 0 <= j < |w.entries|
          ensures NormalEntries(entries)[i] == NormalEntries(w.entries)[j] <==> SameEntry(entries[i], w.entries[j])
        {
          NormalAgrees(entries[i].value, w.entries[j].value);
        }
        ObjectsAgree(entries, w.entries);
      }
    case _ =>
  }

  ghost predicate EntriesMatch(entries: seq<Entry>, others: seq<Entry>) {
    forall i, j | 0 <= i < |entries| && 0 <= j < |others| ::
      NormalEntries(entries)[i] == NormalEntries(others)[j] <==> SameEntry(entries[i], others[j])
  }

  lemma ObjectsAgree(entries: seq<Entry>, others: seq<Entry>)
    requires Distinct(Keys(entries)) && Distinct(Keys(others)) && EntriesMatch(entries, others)
    ensures SortedEntries(entries) == SortedEntries(others)
       <==> |entries| == |others| && forall i :: 0 <= i < |entries| ==> SameAsSome(entries[i], others)
  {
    hide Same, SameAsSome, Distinct, Ascending, EntriesMatch, SortedEntries, NormalEntries;
    SortedMeaning(entries);
    SortedMeaning(others);
    if SortedEntries(entries) == SortedEntries(others) {
      forall i | 0 <= i < |entries| ensures SameAsSome(entries[i], others) {
        MatchingIsSame(entries, others, i);
      }
    }
    if |entries| == |others| && forall i :: 0 <= i < |entries| ==> SameAsSome(entries[i], others) {
      forall e | e in SortedEntries(entries) ensures e in SortedEntries(others) {
        var i :| 0 <= i < |entries| && NormalEntries(entries)[i] == e;
        SameIsMatching(entries, others, i);
      }
      ContainedIsEqual(SortedEntries(entries), SortedEntries(others));
    }
  }

  lemma MatchingIsSame(entries: seq<Entry>, others: seq<Entry>, i: nat)
    requires EntriesMatch(entries, others) && i < |entries| && NormalEntries(entries)[i] in NormalEntries(others)
    ensures SameAsSome(entries[i], others)
  {
    hide Same, NormalEntries;
    var j :| 0 <= j < |others| && NormalEntries(others)[j] == NormalEntries(entries)[i];
  }

  lemma SameIsMatching(entries: seq<Entry>, others: seq<Entry>, i: nat)
    requires EntriesMatch(entries, others) && i < |entries| && SameAsSome(entries[i], others)
    ensures NormalEntries(entries)[i] in NormalEntries(others)
  {
    hide Same, NormalEntries;
    var j :| 0 <= j < |others| && SameEntry(entries[i], others[j]);
    assert NormalEntries(others)[j] == NormalEntries(entries)[i];
  }

  /**
   Canonical text does not depend on insertion order, and it determines the value: two values have one text
   exactly when they are the same.
   */
  lemma CanonicalDetermines(v: Json, w: Json)
    requires WellFormed(v) && WellFormed(w)
    ensures Canonical(v) == Canonical(w) <==> Same(v, w)
  {
    hide Write, Normal, Same;
    NormalAgrees(v, w);
    if Canonical(v) == Canonical(w) {
      assert Canonical(v) + [] == Canonical(w) + [];
      WriteDetermines(Normal(v), [], Normal(w), []);
    }
  }

  /** Whether the evidence check lets the text through, for whatever `parse` makes of it. */
  predicate IsCanonicalText(parse: Text -> Option<Json>, t: Text) {
    parse(t).Some? && Canonical(parse(t).value) == t
  }

  /** Among the texts that parse to a value, exactly its canonical text passes. */
  lemma AcceptedExactly(parse: Text -> Option<Json>, v: Json, t: Text)
    requires WellFormed(v) && parse(t).Some? && WellFormed(parse(t).value) && Same(parse(t).value, v)
    ensures IsCanonicalText(parse, t) <==> t == Canonical(v)
  {
    hide Canonical, Same, WellFormed;
    CanonicalDetermines(parse(t).value, v);
  }

  /** Two texts that pass and parse to the same value are one text. */
  lemma OneTextPerValue(parse: Text -> Option<Json>, t: Text, u: Text)
    requires IsCanonicalText(parse, t) && IsCanonicalText(parse, u)
    requires WellFormed(parse(t).value) && WellFormed(parse(u).value)
    ensures t == u <==> Same(parse(t).value, parse(u).value)
  {
    hide Canonical, Same, WellFormed;
    CanonicalDetermines(parse(t).value, parse(u).value);
  }

  // ---------------------------------------------------------------------------------------------
  // Canonical text passes its own check
  // ---------------------------------------------------------------------------------------------

  lemma AscendingIsDistinct(keys: seq<Text>)
    requires Ascending(keys)
    ensures Distinct(keys)
  {
    hide Less;
    forall i, j | 0 <= i < j < |keys| ensures keys[i] != keys[j] {
      assert Less(keys[i], keys[j]);
      LessIsStrict(keys[i], keys[j]);
    }
  }

  ghost predicate Normalised(e: Entry) {
    WellFormed(e.value) ==> WellFormed(Normal(e.value)) && Same(Normal(e.value), e.value)
  }

  lemma SortedIsSame(entries: seq<Entry>)
    requires WellFormed(Obj(entries)) && forall i :: 0 <= i < |entries| ==> Normalised(entries[i])
    ensures WellFormed(Obj(SortedEntries(entries))) && Same(Obj(SortedEntries(entries)), Obj(entries))
  {
    hide Normal, Order, Permute, Less, SortedEntries;
    SortedMeaning(entries);
    AscendingIsDistinct(Keys(SortedEntries(entries)));
    var sorted := SortedEntries(entries);
    forall i | 0 <= i < |sorted| ensures WellFormed(sorted[i].value) && SameAsSome(sorted[i], entries) {
      assert sorted[i] in NormalEntries(entries);
      var j :| 0 <= j < |entries| && NormalEntries(entries)[j] == sorted[i];
      assert Normalised(entries[j]);
      assert SameEntry(sorted[i], entries[j]);
    }
  }

  lemma {:induction false} NormalIsSame(v: Json)
    requires WellFormed(v)
    ensures WellFormed(Normal(v)) && Same(Normal(v), v)
    decreases v
  {
    match v
    case Arr(items) =>
      forall i | 0 <= i < |items| ensures WellFormed(NormalItems(items)[i]) && Same(NormalItems(items)[i], items[i]) {
        NormalIsSame(items[i]);
      }
    case Obj(entries) =>
      forall i | 0 <= i < |entries| ensures Normalised(entries[i]) {
        NormalIsSame(entries[i].value);
      }
      SortedIsSame(entries);
    case _ =>
  }

  /**
   A reader of the JSON grammar reads the canonical text of a value as that value, up to the insertion order of object
   keys, and the evidence check with this reader accepts it.
   */
  lemma CanonicalIsAccepted(v: Json)
    requires WellFormed(v)
    ensures ReadAll(Canonical(v)).Some? && Same(ReadAll(Canonical(v)).value, v)
    ensures IsCanonicalText(ReadAll, Canonical(v))
  {
    hide Write, Normal, Same, ReadValue;
    NormalIsSame(v);
    NormalAgrees(Normal(v), v);
    assert Write(Normal(v)) + [] == Write(Normal(v));
    WriteReads(Normal(v), []);
  }
}
