/** Base58 text of byte strings: three encoders and a decoder, and why they agree. */
module Base58 {
  import opened Wrappers
  import opened Positional

  const ALPHABET := "123456789" + "ABCDEFGH" + "JKLMN" + "PQRSTUVWXYZ" + "abcdefghijk" + "mnopqrstuvwxyz"

  /** `ALPHABET[d]`, by the alphabet's five runs of consecutive characters. */
  function DigitChar(d: int): char
    requires 0 <= d < 58
  {
    if d < 9 then '1' + d as char
    else if d < 17 then 'A' + (d - 9) as char
    else if d < 22 then 'J' + (d - 17) as char
    else if d < 33 then 'P' + (d - 22) as char
    else if d < 44 then 'a' + (d - 33) as char
    else 'm' + (d - 44) as char
  }

  predicate IsBase58(c: char) {
    '1' <= c <= '9' || 'A' <= c <= 'H' || 'J' <= c <= 'N' || 'P' <= c <= 'Z' || 'a' <= c <= 'k' || 'm' <= c <= 'z'
  }

  /** `ALPHABET.indexOf(c)`. */
  function CharDigit(c: char): (d: int)
    ensures IsBase58(c) ==> 0 <= d < 58
    ensures !IsBase58(c) ==> d == -1
  {
    if '1' <= c <= '9' then c as int - '1' as int
    else if 'A' <= c <= 'H' then c as int - 'A' as int + 9
    else if 'J' <= c <= 'N' then c as int - 'J' as int + 17
    else if 'P' <= c <= 'Z' then c as int - 'P' as int + 22
    else if 'a' <= c <= 'k' then c as int - 'a' as int + 33
    else if 'm' <= c <= 'z' then c as int - 'm' as int + 44
    else -1
  }

  lemma DigitChars(d: int)
    requires 0 <= d < 58
    ensures IsBase58(DigitChar(d)) && CharDigit(DigitChar(d)) == d
  {
  }

  /** The arithmetic of `DigitChar` is the alphabet string. */
  lemma DigitCharIsAlphabet(d: int)
    requires 0 <= d < 58
    ensures |ALPHABET| == 58 && DigitChar(d) == ALPHABET[d]
  {
    var a, b, c, e := "123456789", "ABCDEFGH", "JKLMN", "PQRSTUVWXYZ";
    if d < 9 {
      assert ALPHABET[d] == a[d];
    } else if d < 17 {
      assert ALPHABET[d] == b[d - 9];
    } else if d < 22 {
      assert ALPHABET[d] == c[d - 17];
    } else if d < 33 {
      assert ALPHABET[d] == e[d - 22];
    } else if d < 44 {
      assert ALPHABET[d] == "abcdefghijk"[d - 33];
    } else {
      assert ALPHABET[d] == "mnopqrstuvwxyz"[d - 44];
    }
  }

  lemma CharDigits(c: char)
    requires IsBase58(c)
    ensures DigitChar(CharDigit(c)) == c
  {
  }

  predicate IsText(s: string) {
    forall i :: 0 <= i < |s| ==> IsBase58(s[i])
  }

  function Text(digits: seq<int>): (s: string)
    requires AreDigits(digits, 58)
    ensures |s| == |digits|
  {
    seq(|digits|, i requires 0 <= i < |digits| => DigitChar(digits[i]))
  }

  function Digits(s: string): (r: seq<int>)
    requires IsText(s)
    ensures |r| == |s| && AreDigits(r, 58)
  {
    seq(|s|, i requires 0 <= i < |s| => CharDigit(s[i]))
  }

  lemma TextDigits(digits: seq<int>)
    requires AreDigits(digits, 58)
    ensures IsText(Text(digits)) && Digits(Text(digits)) == digits
  {
    forall i | 0 <= i < |digits| ensures IsBase58(Text(digits)[i]) && CharDigit(Text(digits)[i]) == digits[i] {
      DigitChars(digits[i]);
    }
  }

  lemma DigitsText(s: string)
    requires IsText(s)
    ensures Text(Digits(s)) == s
  {
    forall i | 0 <= i < |s| ensures Text(Digits(s))[i] == s[i] {
      CharDigits(s[i]);
    }
  }

  predicate AreBytes(b: seq<int>) {
    AreDigits(b, 256)
  }

  // ---------------------------------------------------------------------------------------------
  // What the encoders and the decoder compute
  // ---------------------------------------------------------------------------------------------

  function Encode(bytes: seq<int>): (s: string)
    requires AreBytes(bytes)
    ensures IsText(s)
  {
    ConvertBack(bytes, 256, 58);
    TextDigits(Convert(bytes, 256, 58));
    Text(Convert(bytes, 256, 58))
  }

  function Decode(s: string): (bytes: seq<int>)
    requires IsText(s)
    ensures AreBytes(bytes)
  {
    ConvertBack(Digits(s), 58, 256);
    Convert(Digits(s), 58, 256)
  }

  /** Decoding undoes encoding for every byte string. */
  lemma DecodeEncode(bytes: seq<int>)
    requires AreBytes(bytes)
    ensures Decode(Encode(bytes)) == bytes
  {
    hide Convert;
    ConvertBack(bytes, 256, 58);
    TextDigits(Convert(bytes, 256, 58));
  }

  lemma KnownNumber(bytes: seq<int>)
    requires bytes == [0, 255]
    ensures Number(bytes, 256) == 255
  {
    var zero := bytes[..1];
    assert zero[..0] == [] && Number([], 256) == 0;
    assert Number(zero, 256) == Shift(0, 256, 0) == 0;
    assert Number(bytes, 256) == Shift(0, 256, 255) == 255;
  }

  lemma KnownZeros(bytes: seq<int>)
    requires bytes == [0, 255]
    ensures LeadingZeros(bytes) == 1
  {
    hide LeadingZeros;
    assert bytes[..1] == Zeros(1);
    LeadingZerosUnique(bytes, 1);
  }

  lemma KnownDigits()
    ensures BigEndian(255, 58) == [4, 23]
  {
    assert Quot(255, 58) == 4 && Rem(255, 58) == 23;
    assert Quot(4, 58) == 0 && Rem(4, 58) == 4;
    assert BigEndian(4, 58) == [] + [4];
  }

  /** Zero bytes become ones, and the rest is a number, most significant digit first: 255 is 4 * 58 + 23. */
  lemma KnownText()
    ensures AreBytes([0, 255]) && Encode([0, 255]) == "15Q"
  {
    hide Number, BigEndian, Text;
    KnownNumber([0, 255]);
    KnownZeros([0, 255]);
    KnownDigits();
    assert Convert([0, 255], 256, 58) == Zeros(1) + [4, 23] == [0, 4, 23];
    ThreeDigits(0, 4, 23);
  }

  lemma ThreeDigits(a: int, b: int, c: int)
    requires 0 <= a < 58 && 0 <= b < 58 && 0 <= c < 58
    ensures AreDigits([a, b, c], 58) && Text([a, b, c]) == [DigitChar(a), DigitChar(b), DigitChar(c)]
  {
  }

  /** Encoding undoes decoding for every text over the alphabet, whatever its length. */
  lemma EncodeDecode(s: string)
    requires IsText(s)
    ensures Encode(Decode(s)) == s
  {
    hide Convert;
    ConvertBack(Digits(s), 58, 256);
    DigitsText(s);
  }

  /** The wallet service's text: it writes the stored digit array as it is, a lone zero included. */
  function WalletEncode(bytes: seq<int>): string
    requires AreBytes(bytes)
  {
    if Number(bytes, 256) == 0 then Encode(bytes) + "1" else Encode(bytes)
  }

  /** The wallet encoder agrees with the others exactly on inputs with a nonzero byte. */
  lemma WalletAgreesExactly(bytes: seq<int>)
    requires AreBytes(bytes)
    ensures WalletEncode(bytes) == Encode(bytes) <==> exists i :: 0 <= i < |bytes| && bytes[i] != 0
  {
    hide Encode;
    CanonicalForm(bytes, 256);
    var z := LeadingZeros(bytes);
    if z < |bytes| {
      assert bytes[z] != 0;
    } else {
      assert bytes[..z] == bytes;
    }
    assert Encode(bytes) + "1" != Encode(bytes) by {
      assert |Encode(bytes) + "1"| == |Encode(bytes)| + 1;
    }
  }

  // ---------------------------------------------------------------------------------------------
  // The program's loops
  // ---------------------------------------------------------------------------------------------

  /** The second carry loop: push what is left of the carry. */
  method PushCarry(digits: seq<int>, rest: nat, base: nat) returns (r: seq<int>)
    requires 2 <= base
    ensures r == digits + LittleEndian(rest, base)
  {
    hide Quot, Rem;
    r := digits;
    var carry := rest;
    while carry > 0
      invariant 0 <= carry
      invariant r + LittleEndian(carry, base) == digits + LittleEndian(rest, base)
      decreases carry
    {
      r := r + [Rem(carry, base)];
      carry := Quot(carry, base);
    }
  }

  /** One step of the first carry loop. */
  lemma CarryDigit(digits: seq<int>, index: nat, factor: nat, carry: nat, base: nat)
    requires 2 <= base && index < |digits| && AreDigits(digits, base)
    ensures AreDigits(digits[index..], base) && AreDigits(digits[index + 1..], base)
    ensures MulAdd(digits[index..], factor, carry, base) ==
            [Rem(Shift(digits[index], factor, carry), base)]
            + MulAdd(digits[index + 1..], factor, Quot(Shift(digits[index], factor, carry), base), base)
  {
    hide Quot, Rem, Shift;
    assert digits[index..][0] == digits[index] && digits[index..][1..] == digits[index + 1..];
  }

  /** The carry loops over one input digit: multiply the digit array, then push what is left of the carry. */
  method MultiplyAndAdd(digits: seq<int>, factor: nat, digit: nat, base: nat) returns (r: seq<int>)
    requires 2 <= base <= 256 && AreDigits(digits, base) && 0 < factor <= 256 && digit < factor
    ensures r == MulAdd(digits, factor, digit, base)
  {
    r := digits;
    var carry := digit;
    var index := 0;
    assert digits[index..] == digits;
    while index < |r|
      invariant 0 <= index <= |r| == |digits|
      invariant 0 <= carry < factor
      invariant r[index..] == digits[index..]
      invariant AreDigits(digits[index..], base)
      invariant r[..index] + MulAdd(digits[index..], factor, carry, base) == MulAdd(digits, factor, digit, base)
    {
      hide MulAdd, Quot, Rem, Shift;
      CarryDigit(digits, index, factor, carry, base);
      assert r[index] == digits[index];
      var sum := Shift(r[index], factor, carry);
      CarryFits(r[index], factor, carry, base);
      ghost var done := r[..index];
      r := r[index := Rem(sum, base)];
      assert r[..index + 1] == done + [Rem(sum, base)];
      carry := Quot(sum, base);
      index := index + 1;
    }
    assert r[..index] == r && digits[index..] == [];
    r := PushCarry(r, carry, base);
  }

  /** The carry stays below the factor, so sums stay far below the 32-bit range of the program's `&` and `>>`. */
  lemma CarryFits(d: nat, factor: nat, carry: nat, base: nat)
    requires 2 <= base <= 256 && d < base && 0 < factor <= 256 && carry < factor
    ensures 0 <= Shift(d, factor, carry) < 0x8000_0000
    ensures Quot(Shift(d, factor, carry), base) < factor
  {
    var sum := Shift(d, factor, carry);
    ShiftBack(sum, base);
    Products(d, factor, base);
    CarryBound(Quot(sum, base), base, factor, sum, Rem(sum, base));
  }

  lemma Products(d: nat, factor: nat, base: nat)
    requires d < base <= 256 && factor <= 256
    ensures d * factor + factor <= base * factor <= 65536
  {
    assert (d + 1) * factor <= base * factor;
    assert (d + 1) * factor == d * factor + factor;
    assert base * factor <= 256 * factor;
  }

  lemma CarryBound(q: int, base: nat, factor: nat, sum: int, r: nat)
    requires 0 < base && sum < base * factor && q * base + r == sum
    ensures q < factor
  {
    assert base * (factor - q) == base * factor - q * base;
    assert 0 < base * (factor - q);
  }

  /** The digit array after reading `input` from its most significant end. */
  method DigitArray(input: seq<int>, from: nat, to: nat) returns (digits: seq<int>)
    requires 2 <= from <= 256 && 2 <= to <= 256 && AreDigits(input, from)
    ensures 0 <= Number(input, from) && digits == Stored(Number(input, from), to)
  {
    hide Shift, Quot, Rem, MulAdd;
    digits := [0];
    for k := 0 to |input|
      invariant AreDigits(input[..k], from)
      invariant digits == Stored(Number(input[..k], from), to)
    {
      assert input[..k + 1][..k] == input[..k];
      MulAddStored(Number(input[..k], from), from, input[k], to);
      digits := MultiplyAndAdd(digits, from, input[k], to);
    }
    assert input[..|input|] == input;
  }

  method CountLeadingZeros(s: seq<int>) returns (k: nat)
    ensures k == LeadingZeros(s)
  {
    k := 0;
    while k < |s| && s[k] == 0
      invariant k <= |s| && s[..k] == Zeros(k)
    {
      assert s[..k + 1] == s[..k] + [0];
      k := k + 1;
    }
    LeadingZerosUnique(s, k);
  }

  /** The pieces the encoders put together. */
  lemma EncodedParts(bytes: seq<int>)
    requires AreBytes(bytes)
    ensures 0 <= Number(bytes, 256)
    ensures AreDigits(Zeros(LeadingZeros(bytes)), 58) && AreDigits(BigEndian(Number(bytes, 256), 58), 58)
    ensures Encode(bytes) == Text(Zeros(LeadingZeros(bytes))) + Text(BigEndian(Number(bytes, 256), 58))
  {
    ConvertBack(bytes, 256, 58);
    BigEndianDigits(Number(bytes, 256), 58);
    TextAppend(Zeros(LeadingZeros(bytes)), BigEndian(Number(bytes, 256), 58));
  }

  lemma TextAppend(a: seq<int>, b: seq<int>)
    requires AreDigits(a, 58) && AreDigits(b, 58)
    ensures AreDigits(a + b, 58) && Text(a + b) == Text(a) + Text(b)
  {
  }

  /** The stored array without a lone zero, most significant digit first. */
  lemma SignificantDigits(n: nat, base: nat)
    requires 2 <= base
    ensures var s := Stored(n, base);
      Reversed(if |s| == 1 && s[0] == 0 then [] else s) == BigEndian(n, base)
    ensures n != 0 ==> Reversed(Stored(n, base)) == BigEndian(n, base)
  {
    LittleEndianDigits(n, base);
    ReversedDigits(n, base);
  }

  /** The evidence bundle's encoder, with a digit array. */
  method EncodeBase58(value: seq<int>) returns (r: string)
    requires AreBytes(value)
    ensures r == Encode(value)
  {
    hide Encode, Text, Stored, Number, BigEndian;
    EncodedParts(value);
    SignificantDigits(Number(value, 256), 58);
    var littleEndianDigits := DigitArray(value, 256, 58);
    var leadingZeroBytes := CountLeadingZeros(value);
    var significantDigits := if |littleEndianDigits| == 1 && littleEndianDigits[0] == 0 then [] else littleEndianDigits;
    r := Text(Zeros(leadingZeroBytes)) + Text(Reversed(significantDigits));
  }

  /** The wallet service's encoder, without the check for a lone zero. */
  method WalletBase58(bytes: seq<int>) returns (r: string)
    requires AreBytes(bytes)
    ensures r == WalletEncode(bytes)
  {
    hide Encode, Text, Number;
    EncodedParts(bytes);
    SignificantDigits(Number(bytes, 256), 58);
    LoneZero();
    var digits := DigitArray(bytes, 256, 58);
    var zeroes := CountLeadingZeros(bytes);
    r := Text(Zeros(zeroes)) + Text(Reversed(digits));
  }

  lemma LoneZero()
    ensures Reversed(Stored(0, 58)) == [0] && Text([0]) == "1" && BigEndian(0, 58) == [] && Text([]) == ""
  {
    assert Reversed([0]) == Reversed([]) + [0];
  }

  /** The chain runtime's encoder, on one big integer. */
  method EncodeBigInteger(bytes: seq<int>) returns (r: string)
    requires AreBytes(bytes)
    ensures r == Encode(bytes)
  {
    hide Encode, Text, BigEndian;
    var numeric := BigInteger(bytes);
    EncodedParts(bytes);
    LoneZero();
    ghost var n := numeric;
    var encoded := "";
    while numeric > 0
      invariant 0 <= numeric && AreDigits(BigEndian(numeric, 58), 58)
      invariant Text(BigEndian(numeric, 58)) + encoded == Text(BigEndian(n, 58))
      decreases numeric
    {
      LastDigit(numeric);
      encoded := [DigitChar(numeric % 58)] + encoded;
      numeric := numeric / 58;
    }
    var leadingZeroes := CountLeadingZeros(bytes);
    r := Text(Zeros(leadingZeroes)) + encoded;
  }

  lemma LastText(d: int)
    requires 0 <= d < 58
    ensures AreDigits([d], 58) && Text([d]) == [DigitChar(d)]
  {
  }

  lemma LastDigit(n: nat)
    requires 0 < n
    ensures AreDigits(BigEndian(n, 58), 58) && AreDigits(BigEndian(n / 58, 58), 58)
    ensures Text(BigEndian(n, 58)) == Text(BigEndian(n / 58, 58)) + [DigitChar(n % 58)]
  {
    hide Number;
    BigEndianDigits(n, 58);
    BigEndianDigits(n / 58, 58);
    LastText(n % 58);
    TextAppend(BigEndian(n / 58, 58), [n % 58]);
  }

  method BigInteger(bytes: seq<int>) returns (numeric: int)
    requires AreBytes(bytes)
    ensures 0 <= numeric == Number(bytes, 256)
  {
    numeric := 0;
    for k := 0 to |bytes|
      invariant AreDigits(bytes[..k], 256) && numeric == Number(bytes[..k], 256)
    {
      assert bytes[..k + 1][..k] == bytes[..k];
      numeric := numeric * 256 + bytes[k];
    }
    assert bytes[..|bytes|] == bytes;
  }

  /** The shape a Solana identity must have. */
  predicate IsSolanaIdentity(s: string) {
    32 <= |s| <= 44 && IsText(s)
  }

  method DecodeBase58(value: string) returns (r: Option<seq<int>>)
    ensures r.Some? <==> 32 <= |value| <= 44 && IsText(value)
    ensures r.Some? ==> r.value == Decode(value)
  {
    if !IsSolanaIdentity(value) {
      return None;
    }
    var digits := Digits(value);
    hide Number, BigEndian;
    var littleEndianBytes := DigitArray(digits, 58, 256);
    var leadingZeroBytes := CountLeadingZeros(digits);
    SignificantDigits(Number(digits, 58), 256);
    var significant := if |littleEndianBytes| == 1 && littleEndianBytes[0] == 0 then [] else littleEndianBytes;
    r := Some(Zeros(leadingZeroBytes) + Reversed(significant));
  }
}
