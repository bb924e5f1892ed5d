/** Digit strings in a base, most significant digit first, and their conversion between bases. */
module Positional {

  predicate AreDigits(s: seq<int>, base: nat) {
    forall i :: 0 <= i < |s| ==> 0 <= s[i] < base
  }

  /** `n * base + d`: appends a digit. */
  function Shift(n: int, base: nat, d: int): (r: int)
    ensures 0 <= n && 0 <= d ==> 0 <= r
  {
    n * base + d
  }

  function Quot(n: nat, base: nat): (q: nat)
    requires 2 <= base
    ensures n != 0 ==> q < n
    ensures n == 0 ==> q == 0
  {
    SmallerQuotient(n, n / base, base);
    n / base
  }

  lemma SmallerQuotient(n: nat, q: int, base: nat)
    requires 2 <= base && q == n / base
    ensures 0 <= q && (n != 0 ==> q < n)
  {
    assert n == base * q + n % base;
    assert 0 <= q;
    assert 2 * q <= base * q;
  }

  function Rem(n: nat, base: nat): (r: nat)
    requires 2 <= base
    ensures r < base
    ensures n == 0 ==> r == 0
  {
    n % base
  }

  lemma ShiftBack(n: nat, base: nat)
    requires 2 <= base
    ensures Shift(Quot(n, base), base, Rem(n, base)) == n
    ensures Quot(n, base) == 0 ==> Rem(n, base) == n
  {
  }

  lemma ShiftUnique(n: nat, base: nat, d: nat)
    requires 2 <= base && d < base
    ensures Quot(Shift(n, base, d), base) == n && Rem(Shift(n, base, d), base) == d
    ensures Shift(n, base, d) == 0 <==> n == 0 && d == 0
  {
    var m := Shift(n, base, d);
    ShiftBack(m, base);
    assert n * base + d == m / base * base + m % base;
    SameQuotient(n, d, m / base, m % base, base);
    if 0 < n {
      PositiveShift(n, base, d);
    }
  }

  lemma PositiveShift(n: nat, base: nat, d: nat)
    requires 0 < base && 0 < n
    ensures 0 < Shift(n, base, d)
  {
    assert 0 < n * base;
  }

  lemma SameQuotient(n: int, d: int, q: int, r: int, base: int)
    requires 0 <= d < base && 0 <= r < base && n * base + d == q * base + r
    ensures n == q && d == r
  {
    assert base * (n - q) == r - d;
    SmallMultiple(base, n - q);
  }

  lemma SmallMultiple(base: int, k: int)
    requires -base < base * k < base
    ensures k == 0
  {
    assert base * 1 == base;
  }

  function Number(s: seq<int>, base: nat): (n: int)
    ensures AreDigits(s, base) ==> 0 <= n
  {
    if s == [] then 0 else Shift(Number(s[..|s| - 1], base), base, s[|s| - 1])
  }

  /** Digits without leading zeros, most significant first. */
  function BigEndian(n: nat, base: nat): seq<int>
    requires 2 <= base
  {
    if n == 0 then [] else BigEndian(Quot(n, base), base) + [Rem(n, base)]
  }

  /** Digits without leading zeros, least significant first. */
  function LittleEndian(n: nat, base: nat): seq<int>
    requires 2 <= base
  {
    if n == 0 then [] else [Rem(n, base)] + LittleEndian(Quot(n, base), base)
  }

  function Reversed(s: seq<int>): (r: seq<int>)
    ensures |r| == |s|
  {
    if s == [] then [] else Reversed(s[1..]) + [s[0]]
  }

  lemma {:induction false} ReversedDigits(n: nat, base: nat)
    requires 2 <= base
    ensures Reversed(LittleEndian(n, base)) == BigEndian(n, base)
  {
    if n != 0 {
      ReversedDigits(Quot(n, base), base);
      assert LittleEndian(n, base)[1..] == LittleEndian(Quot(n, base), base);
    }
  }

  function Zeros(k: nat): (r: seq<int>)
    ensures |r| == k
  {
    seq(k, i => 0)
  }

  function LeadingZeros(s: seq<int>): (k: nat)
    ensures k <= |s| && s[..k] == Zeros(k)
    ensures k < |s| ==> s[k] != 0
  {
    if s == [] || s[0] != 0 then 0
    else
      var k := LeadingZeros(s[1..]);
      assert s[..k + 1] == [0] + s[1..][..k];
      k + 1
  }

  lemma {:induction false} LeadingZerosUnique(s: seq<int>, k: nat)
    requires k <= |s| && s[..k] == Zeros(k) && (k < |s| ==> s[k] != 0)
    ensures LeadingZeros(s) == k
  {
    if k != 0 {
      assert s[0] == s[..k][0];
      assert s[1..][..k - 1] == s[..k][1..];
      LeadingZerosUnique(s[1..], k - 1);
    }
  }

  lemma {:induction false} BigEndianDigits(n: nat, base: nat)
    requires 2 <= base
    ensures AreDigits(BigEndian(n, base), base)
    ensures Number(BigEndian(n, base), base) == n
    ensures n != 0 ==> BigEndian(n, base) != [] && BigEndian(n, base)[0] != 0
  {
    hide Quot, Rem, Shift;
    if n != 0 {
      BigEndianDigits(Quot(n, base), base);
      var s := BigEndian(n, base);
      assert s[..|s| - 1] == BigEndian(Quot(n, base), base);
      ShiftBack(n, base);
    }
  }

  lemma {:induction false} ZerosCountNothing(k: nat, s: seq<int>, base: nat)
    ensures Number(Zeros(k) + s, base) == Number(s, base)
  {
    assert Shift(0, base, 0) == 0;
    hide Shift;
    var all := Zeros(k) + s;
    if s != [] {
      assert all[..|all| - 1] == Zeros(k) + s[..|s| - 1];
      ZerosCountNothing(k, s[..|s| - 1], base);
    } else if k != 0 {
      assert all[..k - 1] == Zeros(k - 1) + s;
      ZerosCountNothing(k - 1, s, base);
    }
  }

  /** A digit string is its leading zeros followed by the canonical digits of its value. */
  lemma {:induction false} CanonicalForm(s: seq<int>, base: nat)
    requires 2 <= base && AreDigits(s, base)
    ensures s == Zeros(LeadingZeros(s)) + BigEndian(Number(s, base), base)
    ensures Number(s, base) == 0 <==> LeadingZeros(s) == |s|
  {
    hide Quot, Rem, Shift;
    if s != [] {
      var init, d := s[..|s| - 1], s[|s| - 1];
      var n := Number(init, base);
      CanonicalForm(init, base);
      ShiftUnique(n, base, d);
      if n == 0 {
        CanonicalSmall(s, base, d);
      } else {
        CanonicalLarge(s, base, n, d);
      }
    }
  }

  lemma CanonicalLarge(s: seq<int>, base: nat, n: nat, d: nat)
    requires 2 <= base && d < base && 0 < n && s != [] && s[|s| - 1] == d
    requires var init := s[..|s| - 1];
      init == Zeros(LeadingZeros(init)) + BigEndian(n, base) && LeadingZeros(init) < |init|
    ensures s == Zeros(LeadingZeros(s)) + BigEndian(Shift(n, base, d), base) && LeadingZeros(s) < |s|
  {
    hide Quot, Rem, Shift;
    var init := s[..|s| - 1];
    var z := LeadingZeros(init);
    assert s[..z] == init[..z];
    LeadingZerosUnique(s, z);
    ShiftUnique(n, base, d);
    assert s == init + [d];
  }

  lemma CanonicalSmall(s: seq<int>, base: nat, d: nat)
    requires 2 <= base && d < base && s != [] && s[..|s| - 1] == Zeros(|s| - 1) && s[|s| - 1] == d
    ensures s == Zeros(LeadingZeros(s)) + BigEndian(d, base)
    ensures d == 0 <==> LeadingZeros(s) == |s|
  {
    hide Quot, Rem, Zeros;
    ZerosExtend(s);
    if d == 0 {
      LeadingZerosUnique(s, |s|);
    } else {
      SmallQuotient(d, base);
      LeadingZerosUnique(s, |s| - 1);
      assert s == s[..|s| - 1] + [d];
    }
  }

  lemma ZerosExtend(s: seq<int>)
    requires s != [] && s[..|s| - 1] == Zeros(|s| - 1)
    ensures s[|s| - 1] == 0 ==> s[..|s|] == s == Zeros(|s|)
  {
  }

  lemma SmallQuotient(d: nat, base: nat)
    requires 2 <= base && d < base
    ensures d != 0 ==> BigEndian(d, base) == [d]
  {
    assert d != 0 ==> BigEndian(d, base) == BigEndian(0, base) + [d];
  }

  /** Reads a digit string in one base and writes it in another; leading zeros are carried over one for one. */
  function Convert(s: seq<int>, from: nat, to: nat): seq<int>
    requires 2 <= to && AreDigits(s, from)
  {
    Zeros(LeadingZeros(s)) + BigEndian(Number(s, from), to)
  }

  /** Zeros before the digits of a number are its leading zeros. */
  lemma ZerosThenDigits(z: nat, n: nat, base: nat)
    requires 2 <= base
    ensures LeadingZeros(Zeros(z) + BigEndian(n, base)) == z
    ensures AreDigits(Zeros(z) + BigEndian(n, base), base)
  {
    hide Number, Quot, Rem;
    BigEndianDigits(n, base);
    var t := Zeros(z) + BigEndian(n, base);
    assert t[..z] == Zeros(z);
    assert n == 0 ==> BigEndian(n, base) == [];
    LeadingZerosUnique(t, z);
  }

  /** Conversion loses nothing: converting back gives the very same digits, leading zeros included. */
  lemma ConvertBack(s: seq<int>, from: nat, to: nat)
    requires 2 <= from && 2 <= to && AreDigits(s, from)
    ensures AreDigits(Convert(s, from, to), to)
    ensures Convert(Convert(s, from, to), to, from) == s
  {
    hide Number, BigEndian, LeadingZeros, Zeros;
    var n, z := Number(s, from), LeadingZeros(s);
    BigEndianDigits(n, to);
    ZerosCountNothing(z, BigEndian(n, to), to);
    ZerosThenDigits(z, n, to);
    CanonicalForm(s, from);
  }

  // ---------------------------------------------------------------------------------------------
  // Multiply-and-add on little-endian digits, the step of the conversion loops
  // ---------------------------------------------------------------------------------------------

  function MulAdd(digits: seq<int>, factor: nat, carry: nat, base: nat): seq<int>
    requires 2 <= base && AreDigits(digits, base)
  {
    if digits == [] then LittleEndian(carry, base)
    else
      var sum := Shift(digits[0], factor, carry);
      [Rem(sum, base)] + MulAdd(digits[1..], factor, Quot(sum, base), base)
  }

  /** The digit array of the conversion loops: a lone zero stands for zero. */
  function Stored(n: nat, base: nat): seq<int>
    requires 2 <= base
  {
    if n == 0 then [0] else LittleEndian(n, base)
  }

  lemma {:induction false} LittleEndianDigits(n: nat, base: nat)
    requires 2 <= base
    ensures AreDigits(LittleEndian(n, base), base)
    ensures n != 0 ==> LittleEndian(n, base) != [] && LittleEndian(n, base) != [0]
  {
    hide Quot, Rem;
    if n != 0 {
      LittleEndianDigits(Quot(n, base), base);
      ShiftBack(n, base);
      var r := LittleEndian(n, base);
      assert r == [Rem(n, base)] + LittleEndian(Quot(n, base), base);
      assert Quot(n, base) != 0 ==> 2 <= |r|;
      assert r[0] == Rem(n, base);
    }
  }

  /** Multiplying digit by digit: the lowest result digit, and the carry into the rest. */
  lemma CarryStep(n: nat, factor: nat, carry: nat, base: nat)
    requires 2 <= base
    ensures var sum := Shift(Rem(n, base), factor, carry);
      Shift(n, factor, carry) == Shift(Shift(Quot(n, base), factor, Quot(sum, base)), base, Rem(sum, base))
  {
    hide Quot, Rem, Shift;
    var q, r := Quot(n, base), Rem(n, base);
    var sum := Shift(r, factor, carry);
    ShiftBack(n, base);
    ShiftBack(sum, base);
    CarryArithmetic(n, q, r, factor, carry, base, sum, Shift(q, factor, Quot(sum, base)), Quot(sum, base), Rem(sum, base));
  }

  lemma CarryArithmetic(
    n: int, q: int, r: int, factor: int, carry: int, base: int, sum: int, next: int, high: int, low: int)
    requires 0 <= base && 0 <= factor
    requires n == Shift(q, base, r) && next == Shift(q, factor, high)
    requires sum == Shift(r, factor, carry) && sum == Shift(high, base, low)
    ensures Shift(n, factor, carry) == Shift(next, base, low)
  {
    assert n * factor == q * base * factor + r * factor;
    assert next * base == q * factor * base + high * base;
    assert q * base * factor == q * factor * base;
  }

  lemma {:induction false} MulAddCanonical(n: nat, factor: nat, carry: nat, base: nat)
    requires 2 <= base && 0 < factor && 0 < n
    decreases n
    ensures AreDigits(LittleEndian(n, base), base)
    ensures MulAdd(LittleEndian(n, base), factor, carry, base) == LittleEndian(Shift(n, factor, carry), base)
  {
    hide Quot, Rem, Shift;
    LittleEndianDigits(n, base);
    CarryStep(n, factor, carry, base);
    PositiveShift(n, factor, carry);
    var rest := Quot(n, base);
    var sum := Shift(Rem(n, base), factor, carry);
    ShiftUnique(Shift(rest, factor, Quot(sum, base)), base, Rem(sum, base));
    assert LittleEndian(n, base)[1..] == LittleEndian(rest, base);
    if rest == 0 {
      ZeroShift(factor, Quot(sum, base));
    } else {
      MulAddCanonical(rest, factor, Quot(sum, base), base);
    }
  }

  lemma ZeroShift(factor: nat, d: nat)
    ensures Shift(0, factor, d) == d
  {
  }

  /** One input digit takes the stored array of `n` to the stored array of `n * factor + digit`. */
  lemma MulAddStored(n: nat, factor: nat, digit: nat, base: nat)
    requires 2 <= base && 0 < factor
    ensures AreDigits(Stored(n, base), base)
    ensures MulAdd(Stored(n, base), factor, digit, base) == Stored(Shift(n, factor, digit), base)
  {
    hide Quot, Rem, Shift;
    if n == 0 {
      ZeroShift(factor, digit);
      assert Stored(n, base)[1..] == [];
      assert MulAdd([], factor, Quot(digit, base), base) == LittleEndian(Quot(digit, base), base);
      assert digit == 0 ==> LittleEndian(Quot(digit, base), base) == [];
    } else {
      PositiveShift(n, factor, digit);
      MulAddCanonical(n, factor, digit, base);
    }
  }
}
