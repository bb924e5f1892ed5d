/** Bytes: numbers of a fixed width, and records laid out as consecutive fields. */
module FixedWidth {
  import opened Arithmetic
  import opened Positional

  type Byte = b: int | 0 <= b < 256
  type Bytes = seq<Byte>
  type Bytes32 = b: Bytes | |b| == 32 witness seq(32, _ => 0)

  lemma {:induction false} PowerGrows(j: nat, k: nat)
    requires j <= k
    ensures Power(256, j) <= Power(256, k)
  {
    if j < k {
      PowerGrows(j, k - 1);
    }
  }

  /** The big-endian bytes of `n`, as many as `width`; higher digits are cut off. */
  function Fixed(n: nat, width: nat): (r: Bytes)
    ensures |r| == width
  {
    if width == 0 then [] else Fixed(Quot(n, 256), width - 1) + [Rem(n, 256)]
  }

  lemma {:induction false} FixedNumber(n: nat, width: nat)
    requires n < Power(256, width)
    ensures Number(Fixed(n, width), 256) == n
  {
    if width != 0 {
      ShiftBack(n, 256);
      QuotientFits(n, Power(256, width - 1));
      FixedNumber(Quot(n, 256), width - 1);
      assert Fixed(n, width)[..width - 1] == Fixed(Quot(n, 256), width - 1);
    }
  }

  lemma QuotientFits(n: nat, p: nat)
    requires n < p * 256
    ensures Quot(n, 256) < p
  {
  }

  lemma {:induction false} NumberFixed(s: Bytes)
    ensures Fixed(Number(s, 256), |s|) == s && Number(s, 256) < Power(256, |s|)
  {
    if s != [] {
      var init := s[..|s| - 1];
      NumberFixed(init);
      ShiftUnique(Number(init, 256), 256, s[|s| - 1]);
    }
  }

  // ---------------------------------------------------------------------------------------------
  // Consecutive fields
  // ---------------------------------------------------------------------------------------------

  function Concat(parts: seq<Bytes>): Bytes {
    if parts == [] then [] else Concat(parts[..|parts| - 1]) + parts[|parts| - 1]
  }

  /** Where field `k` starts. */
  function Offset(parts: seq<Bytes>, k: nat): nat
    requires k <= |parts|
  {
    if k == 0 then 0 else Offset(parts, k - 1) + |parts[k - 1]|
  }

  lemma OffsetStep(parts: seq<Bytes>, k: nat)
    requires k < |parts|
    ensures Offset(parts, k + 1) == Offset(parts, k) + |parts[k]|
  {
  }

  lemma {:induction false} OffsetInit(parts: seq<Bytes>, k: nat)
    requires k < |parts|
    ensures Offset(parts[..|parts| - 1], k) == Offset(parts, k)
  {
    if k != 0 {
      OffsetInit(parts, k - 1);
    }
  }

  /** `m` shows the fields `parts` at their places, and is no longer than they are. */
  ghost predicate Shows(m: Bytes, parts: seq<Bytes>) {
    && |m| == Offset(parts, |parts|)
    && forall k :: 0 <= k < |parts| ==> ShowsField(m, parts, k)
  }

  ghost predicate ShowsField(m: Bytes, parts: seq<Bytes>, k: nat)
    requires k < |parts|
  {
    Offset(parts, k + 1) <= |m| && m[Offset(parts, k)..Offset(parts, k + 1)] == parts[k]
  }

  /** A record is determined by its fields, and every field can be read back. */
  lemma {:induction false} ConcatExactly(m: Bytes, parts: seq<Bytes>)
    ensures m == Concat(parts) <==> Shows(m, parts)
    decreases |parts|
  {
    if parts != [] {
      var n := |parts| - 1;
      var cut := Offset(parts, n);
      OffsetInit(parts, n);
      ConcatLength(parts[..n]);
      if |m| == Offset(parts, n + 1) {
        ConcatExactly(m[..cut], parts[..n]);
        InitShows(m, parts);
        assert m == m[..cut] + m[cut..];
        LastField(m, Concat(parts[..n]), parts[n]);
      } else {
        ConcatLength(parts);
      }
    }
  }

  lemma LastField(m: Bytes, init: Bytes, last: Bytes)
    requires |m| == |init| + |last|
    ensures m == init + last <==> m[..|init|] == init && m[|init|..] == last
  {
    assert m == m[..|init|] + m[|init|..];
  }

  lemma {:induction false} ConcatLength(parts: seq<Bytes>)
    ensures |Concat(parts)| == Offset(parts, |parts|)
  {
    if parts != [] {
      ConcatLength(parts[..|parts| - 1]);
      OffsetInit(parts, |parts| - 1);
    }
  }

  lemma InitShows(m: Bytes, parts: seq<Bytes>)
    requires parts != [] && |m| == Offset(parts, |parts|)
    ensures Offset(parts, |parts| - 1) <= |m|
    ensures Shows(m, parts) <==> Shows(m[..Offset(parts, |parts| - 1)], parts[..|parts| - 1])
                                 && m[Offset(parts, |parts| - 1)..] == parts[|parts| - 1]
  {
    hide Offset, Shows, ShowsField;
    OffsetStep(parts, |parts| - 1);
    LastShows(m, parts);
    if Shows(m, parts) {
      FieldsOfInit(m, parts);
    }
    if Shows(m[..Offset(parts, |parts| - 1)], parts[..|parts| - 1]) && ShowsField(m, parts, |parts| - 1) {
      FieldsOfWhole(m, parts);
    }
  }

  lemma FieldsOfInit(m: Bytes, parts: seq<Bytes>)
    requires parts != [] && |m| == Offset(parts, |parts|) && Offset(parts, |parts| - 1) <= |m|
    requires Shows(m, parts)
    ensures Shows(m[..Offset(parts, |parts| - 1)], parts[..|parts| - 1]) && ShowsField(m, parts, |parts| - 1)
  {
    hide Offset, ShowsField;
    var n := |parts| - 1;
    OffsetInit(parts, n);
    forall k | 0 <= k < n ensures ShowsField(m[..Offset(parts, n)], parts[..n], k) {
      assert ShowsField(m, parts, k);
      FieldOfInit(m, parts, k);
    }
  }

  lemma FieldsOfWhole(m: Bytes, parts: seq<Bytes>)
    requires parts != [] && |m| == Offset(parts, |parts|) && Offset(parts, |parts| - 1) <= |m|
    requires Shows(m[..Offset(parts, |parts| - 1)], parts[..|parts| - 1]) && ShowsField(m, parts, |parts| - 1)
    ensures Shows(m, parts)
  {
    hide Offset, ShowsField;
    var n := |parts| - 1;
    forall k | 0 <= k < |parts| ensures ShowsField(m, parts, k) {
      if k < n {
        assert ShowsField(m[..Offset(parts, n)], parts[..n], k);
        FieldOfInit(m, parts, k);
      }
    }
  }

  lemma LastShows(m: Bytes, parts: seq<Bytes>)
    requires parts != [] && |m| == Offset(parts, |parts|) && Offset(parts, |parts| - 1) <= |m|
    ensures ShowsField(m, parts, |parts| - 1) <==> m[Offset(parts, |parts| - 1)..] == parts[|parts| - 1]
  {
    hide Offset;
  }

  lemma FieldOfInit(m: Bytes, parts: seq<Bytes>, k: nat)
    requires k < |parts| - 1 && |m| == Offset(parts, |parts|)
    requires Offset(parts, |parts| - 1) <= |m|
    ensures ShowsField(m, parts, k) <==> ShowsField(m[..Offset(parts, |parts| - 1)], parts[..|parts| - 1], k)
  {
    hide Offset;
    var n := |parts| - 1;
    var cut := Offset(parts, n);
    OffsetInit(parts, k);
    OffsetInit(parts, k + 1);
    OffsetOrdered(parts, k + 1, n);
    OffsetOrdered(parts, k, k + 1);
    var i, j := Offset(parts, k), Offset(parts, k + 1);
    assert m[..cut][i..j] == m[i..j];
  }

  lemma {:induction false} OffsetOrdered(parts: seq<Bytes>, j: nat, k: nat)
    requires j <= k <= |parts|
    ensures Offset(parts, j) <= Offset(parts, k)
  {
    if j < k {
      OffsetOrdered(parts, j, k - 1);
    }
  }
}
