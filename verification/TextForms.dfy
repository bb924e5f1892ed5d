/** Numbers and byte strings written as text, and read back. */
module TextForms {
  import opened Arithmetic
  import opened FixedWidth
  import opened Positional

  // ---------------------------------------------------------------------------------------------
  // Decimal
  // ---------------------------------------------------------------------------------------------

  function DecimalDigit(d: int): char {
    if 0 <= d < 10 then '0' + d as char else '0'
  }

  function DecimalChars(digits: seq<int>): (r: string)
    ensures |r| == |digits|
  {
    seq(|digits|, i requires 0 <= i < |digits| => DecimalDigit(digits[i]))
  }

  function DecimalDigits(t: string): (r: seq<int>)
    ensures |r| == |t|
  {
    seq(|t|, i requires 0 <= i < |t| => t[i] as int - '0' as int)
  }

  /** What the language prints for a non-negative integer. */
  function Decimal(n: nat): string {
    if n == 0 then "0" else DecimalChars(BigEndian(n, 10))
  }

  /** The pattern a stored integer has to match: at most twenty digits and no leading zero. */
  predicate IsStoredInteger(t: string) {
    || t == "0"
    || (1 <= |t| <= 20 && t[0] != '0' && forall i :: 0 <= i < |t| ==> '0' <= t[i] <= '9')
  }

  function ParseDecimal(t: string): (n: nat)
    requires IsStoredInteger(t)
  {
    assert AreDigits(DecimalDigits(t), 10);
    Number(DecimalDigits(t), 10)
  }

  /** The digits are the usual ones, most significant first and without leading zeros. */
  lemma DecimalUnfolds(n: nat)
    ensures n < 10 ==> Decimal(n) == ["0123456789"[n]]
    ensures 10 <= n ==> Decimal(n) == Decimal(n / 10) + ["0123456789"[n % 10]]
  {
    if n != 0 {
      var rest := BigEndian(Quot(n, 10), 10);
      assert BigEndian(n, 10) == rest + [Rem(n, 10)];
      assert DecimalChars(rest + [Rem(n, 10)]) == DecimalChars(rest) + [DecimalDigit(Rem(n, 10))];
      DigitChar(Rem(n, 10));
      if Quot(n, 10) == 0 {
        assert rest == [];
      }
    }
  }

  lemma DigitChar(d: nat)
    requires d < 10
    ensures DecimalDigit(d) == "0123456789"[d]
  {
  }

  lemma {:induction false} DigitCount(n: nat, k: nat)
    requires n < Power(10, k)
    ensures |BigEndian(n, 10)| <= k
  {
    if n != 0 {
      assert Quot(n, 10) < Power(10, k - 1);
      DigitCount(Quot(n, 10), k - 1);
    }
  }

  lemma TwentyDigits()
    ensures Power(10, 20) == 100_000_000_000_000_000_000
  {
    assert Power(10, 10) == 10_000_000_000;
  }

  lemma ZeroReadsBack(t: string)
    requires t == "0"
    ensures IsStoredInteger(t) && ParseDecimal(t) == 0
  {
    hide Number, DecimalDigits;
    ZeroDigits(t, 0);
    OneDigit(0);
  }

  lemma ZeroDigits(t: string, d: int)
    requires t == "0" && d == 0
    ensures DecimalDigits(t) == [d]
  {
  }

  lemma DigitsReadBackDecimal(digits: seq<int>)
    requires AreDigits(digits, 10)
    ensures DecimalDigits(DecimalChars(digits)) == digits
  {
  }

  lemma DigitsAreStored(digits: seq<int>)
    requires AreDigits(digits, 10) && 1 <= |digits| <= 20 && digits[0] != 0
    ensures IsStoredInteger(DecimalChars(digits))
  {
  }

  /** Every number below 10^20, hence every 64-bit one, can be stored and read back. */
  lemma DecimalReadsBack(n: nat)
    requires n < 100_000_000_000_000_000_000
    ensures IsStoredInteger(Decimal(n)) && ParseDecimal(Decimal(n)) == n
  {
    hide Number, BigEndian, AreDigits, IsStoredInteger, Power, DecimalChars, DecimalDigits;
    if n == 0 {
      ZeroReadsBack(Decimal(n));
    } else {
      BigEndianDigits(n, 10);
      TwentyDigits();
      DigitCount(n, 20);
      DigitsReadBackDecimal(BigEndian(n, 10));
      DigitsAreStored(BigEndian(n, 10));
    }
  }

  /** No other stored integer reads as the same number. */
  lemma DecimalIsUnique(t: string)
    requires IsStoredInteger(t)
    ensures Decimal(ParseDecimal(t)) == t
  {
    hide Number, BigEndian, LeadingZeros, AreDigits, IsStoredInteger;
    var digits := DecimalDigits(t);
    StoredDigits(t);
    if t == "0" {
      OneDigit(0);
      assert digits == [0];
    } else {
      CanonicalForm(digits, 10);
      LeadingZerosUnique(digits, 0);
      assert Zeros(0) + BigEndian(Number(digits, 10), 10) == BigEndian(Number(digits, 10), 10);
      assert DecimalChars(digits) == t;
    }
  }

  lemma StoredDigits(t: string)
    requires IsStoredInteger(t)
    ensures AreDigits(DecimalDigits(t), 10) && t != []
    ensures t != "0" ==> DecimalDigits(t)[0] != 0
    ensures DecimalChars(DecimalDigits(t)) == t
  {
  }

  lemma OneDigit(d: nat)
    ensures Number([d], 10) == d
  {
    assert [d][..0] == [];
  }

  // ---------------------------------------------------------------------------------------------
  // Hexadecimal
  // ---------------------------------------------------------------------------------------------

  function HexChar(d: int): char {
    if 0 <= d < 10 then '0' + d as char else if 10 <= d < 16 then 'a' + (d - 10) as char else '0'
  }

  predicate IsLowerHex(c: char) {
    '0' <= c <= '9' || 'a' <= c <= 'f'
  }

  predicate IsHex(c: char) {
    IsLowerHex(c) || 'A' <= c <= 'F'
  }

  function HexValue(c: char): (r: int)
    ensures 0 <= r < 16
  {
    if '0' <= c <= '9' then c as int - '0' as int
    else if 'a' <= c <= 'f' then c as int - 'a' as int + 10
    else if 'A' <= c <= 'F' then c as int - 'A' as int + 10
    else 0
  }

  function HexDigits(b: Bytes): (r: string)
    ensures |r| == 2 * |b|
  {
    if b == [] then "" else [HexChar(b[0] / 16), HexChar(b[0] % 16)] + HexDigits(b[1..])
  }

  function PairsOf(digits: string): (r: Bytes)
    ensures |r| == |digits| / 2
  {
    if |digits| < 2 then [] else [HexValue(digits[0]) * 16 + HexValue(digits[1])] + PairsOf(digits[2..])
  }

  /** Lower-case text of a byte string. */
  function HexText(b: Bytes): (r: string)
    ensures |r| == 2 + 2 * |b|
  {
    "0x" + HexDigits(b)
  }

  /** The bytes behind the two-character prefix. */
  function HexBytes(t: string): (r: Bytes)
    ensures 2 <= |t| ==> |r| == (|t| - 2) / 2
  {
    if |t| < 2 then [] else PairsOf(t[2..])
  }

  predicate AllLowerHex(digits: string) {
    forall i :: 0 <= i < |digits| ==> IsLowerHex(digits[i])
  }

  /** The pattern of a 32-byte identifier: lower case and of exact length. */
  predicate IsHex32(t: string) {
    |t| == 66 && t[..2] == "0x" && AllLowerHex(t[2..])
  }

  lemma {:induction false} DigitsReadBack(b: Bytes)
    ensures PairsOf(HexDigits(b)) == b && AllLowerHex(HexDigits(b))
  {
    if b != [] {
      ByteReadsBack(b[0]);
      DigitsReadBack(b[1..]);
      assert HexDigits(b)[2..] == HexDigits(b[1..]);
      AllLowerCons(HexChar(b[0] / 16), HexChar(b[0] % 16), HexDigits(b[1..]));
    }
  }

  lemma AllLowerCons(h: char, l: char, rest: string)
    ensures AllLowerHex([h, l] + rest) <==> IsLowerHex(h) && IsLowerHex(l) && AllLowerHex(rest)
  {
    var all := [h, l] + rest;
    assert all[0] == h && all[1] == l && all[2..] == rest;
    if AllLowerHex(all) {
      forall i | 0 <= i < |rest| ensures IsLowerHex(rest[i]) {
        assert IsLowerHex(all[i + 2]);
      }
    }
  }

  lemma ByteReadsBack(b: Byte)
    ensures HexValue(HexChar(b / 16)) * 16 + HexValue(HexChar(b % 16)) == b
    ensures IsLowerHex(HexChar(b / 16)) && IsLowerHex(HexChar(b % 16))
  {
  }

  /** Every byte is written as two of the usual digits, in its place. */
  lemma {:induction false} HexPlaces(b: Bytes, i: nat)
    requires i < |b|
    ensures HexText(b)[..2] == "0x"
    ensures HexText(b)[2 + 2 * i] == "0123456789abcdef"[b[i] / 16]
    ensures HexText(b)[3 + 2 * i] == "0123456789abcdef"[b[i] % 16]
  {
    HexDigitChar(b[i] / 16);
    HexDigitChar(b[i] % 16);
    if 0 < i {
      HexPlaces(b[1..], i - 1);
    }
  }

  lemma HexDigitChar(d: nat)
    requires d < 16
    ensures HexChar(d) == "0123456789abcdef"[d]
  {
  }

  /** And every byte is read from its own two digits. */
  lemma {:induction false} PairPlaces(digits: string, i: nat)
    requires i < |digits| / 2
    ensures PairsOf(digits)[i] == 16 * HexValue(digits[2 * i]) + HexValue(digits[2 * i + 1])
  {
    if 0 < i {
      PairPlaces(digits[2..], i - 1);
    }
  }

  /** A digit of either case is read as its place among the sixteen. */
  lemma HexValuePlace(c: char)
    requires IsHex(c)
    ensures c == "0123456789abcdef"[HexValue(c)] || c == "0123456789ABCDEF"[HexValue(c)]
  {
  }

  lemma HexReadsBack(b: Bytes)
    ensures HexBytes(HexText(b)) == b
    ensures |b| == 32 ==> IsHex32(HexText(b))
  {
    DigitsReadBack(b);
    assert HexText(b)[2..] == HexDigits(b) && HexText(b)[..2] == "0x";
  }

  lemma {:induction false} DigitsAreUnique(digits: string)
    requires AllLowerHex(digits) && |digits| % 2 == 0
    ensures HexDigits(PairsOf(digits)) == digits
  {
    hide HexValue, HexChar, IsLowerHex;
    if digits != [] {
      var h, l, rest := digits[0], digits[1], digits[2..];
      assert digits == [h, l] + rest;
      AllLowerCons(h, l, rest);
      DigitsAreUnique(rest);
      PairReadsBack(h, l);
      assert PairsOf(digits)[1..] == PairsOf(rest);
    }
  }

  lemma PairReadsBack(h: char, l: char)
    requires IsLowerHex(h) && IsLowerHex(l)
    ensures HexChar((HexValue(h) * 16 + HexValue(l)) / 16) == h
    ensures HexChar((HexValue(h) * 16 + HexValue(l)) % 16) == l
  {
    SplitPair(HexValue(h), HexValue(l));
    HexCharBack(h);
    HexCharBack(l);
  }

  lemma SplitPair(h: int, l: int)
    requires 0 <= h < 16 && 0 <= l < 16
    ensures (h * 16 + l) / 16 == h && (h * 16 + l) % 16 == l
  {
  }

  lemma HexCharBack(c: char)
    requires IsLowerHex(c)
    ensures HexChar(HexValue(c)) == c
  {
  }

  /** Lower-case text is the only form of a 32-byte identifier. */
  lemma HexIsUnique(t: string)
    requires IsHex32(t)
    ensures HexText(HexBytes(t)) == t
  {
    DigitsAreUnique(t[2..]);
    assert t == t[..2] + t[2..];
  }
}
