/** The data of the Solana mint instruction, written into one buffer field by field. */
module MintInstruction {
  import opened FixedWidth

  const DISCRIMINATOR_LENGTH: nat := 8

  /** The little-endian bytes of a 32-bit length. */
  function Length32(n: nat): (r: Bytes)
    ensures |r| == 4
  {
    [n % 256, n / 256 % 256, n / 65536 % 256, n / 16777216 % 256]
  }

  function InstructionData(discriminator: Bytes, message: Bytes, attestation: Bytes): Bytes {
    discriminator + (Length32(|message|) + (message + (Length32(|attestation|) + attestation)))
  }

  /** `source.copy(data, start)` for a source that fits. */
  method CopyInto(data: array<Byte>, start: nat, source: Bytes)
    requires start + |source| <= data.Length
    modifies data
    ensures data[..] == old(data[..start]) + source + old(data[start + |source|..])
  {
    for i := 0 to |source|
      invariant forall k :: 0 <= k < data.Length ==>
                  data[k] == if start <= k < start + i then source[k - start] else old(data[k])
    {
      data[start + i] := source[i];
    }
  }

  /** The instruction builder's buffer: 16 bytes of header around the message and the attestation. */
  method WriteInstructionData(discriminator: Bytes, message: Bytes, attestation: Bytes) returns (data: array<Byte>)
    requires |discriminator| == DISCRIMINATOR_LENGTH
    ensures fresh(data) && data[..] == InstructionData(discriminator, message, attestation)
  {
    hide Length32;
    var m, a := |message|, |attestation|;
    data := new Byte[16 + m + a](_ => 0);
    CopyInto(data, 0, discriminator);
    CopyInto(data, 8, Length32(m));
    assert data[..12] == discriminator + Length32(m);
    CopyInto(data, 12, message);
    assert data[..12 + m] == discriminator + Length32(m) + message;
    CopyInto(data, 12 + m, Length32(a));
    assert data[..16 + m] == discriminator + Length32(m) + message + Length32(a);
    CopyInto(data, 16 + m, attestation);
    assert data[..] == discriminator + Length32(m) + message + Length32(a) + attestation;
    Regroup(discriminator, Length32(m), message, Length32(a), attestation);
  }

  lemma Regroup(a: Bytes, b: Bytes, c: Bytes, d: Bytes, e: Bytes)
    ensures a + b + c + d + e == a + (b + (c + (d + e)))
  {
  }

  /** A little-endian number of four bytes. */
  function LittleEndian(b: Bytes): int
    requires |b| == 4
  {
    b[0] as int + 256 * (b[1] as int) + 65536 * (b[2] as int) + 16777216 * (b[3] as int)
  }

  /** Where everything is: eight bytes of discriminator, then each part behind its own little-endian length. */
  lemma InstructionLayout(discriminator: Bytes, message: Bytes, attestation: Bytes)
    requires |discriminator| == 8 && |message| < 0x1_0000_0000 && |attestation| < 0x1_0000_0000
    ensures var data, m := InstructionData(discriminator, message, attestation), |message|;
      && |data| == 16 + m + |attestation|
      && data[0..8] == discriminator
      && LittleEndian(data[8..12]) == m
      && data[12..12 + m] == message
      && LittleEndian(data[12 + m..16 + m]) == |attestation|
      && data[16 + m..] == attestation
  {
    hide Length32;
    LengthReads(|message|);
    LengthReads(|attestation|);
    var data, m := InstructionData(discriminator, message, attestation), |message|;
    assert data[8..12] == Length32(m);
    assert data[12 + m..16 + m] == Length32(|attestation|);
  }

  lemma LengthReads(n: nat)
    requires n < 0x1_0000_0000
    ensures LittleEndian(Length32(n)) == n
  {
    Recompose(n);
  }

  lemma LengthDetermines(m: nat, n: nat)
    requires m < 0x1_0000_0000 && n < 0x1_0000_0000 && Length32(m) == Length32(n)
    ensures m == n
  {
    LengthReads(m);
    LengthReads(n);
  }

  lemma Recompose(n: nat)
    requires n < 0x1_0000_0000
    ensures n == n % 256 + n / 256 % 256 * 256 + n / 65536 % 256 * 65536 + n / 16777216 % 256 * 16777216
  {
    assert n / 256 / 256 == n / 65536 && n / 65536 / 256 == n / 16777216;
  }

  lemma SplitAt(a: Bytes, x: Bytes, b: Bytes, y: Bytes)
    requires |a| == |b| && a + x == b + y
    ensures a == b && x == y
  {
    assert (a + x)[..|a|] == a && (b + y)[..|b|] == b;
    assert (a + x)[|a|..] == x && (b + y)[|b|..] == y;
  }

  /** The data determines what is minted: no other message and attestation are written as the same bytes. */
  lemma DataDetermines(discriminator: Bytes, message: Bytes, attestation: Bytes, other: Bytes, signatures: Bytes)
    requires |message| < 0x1_0000_0000 && |attestation| < 0x1_0000_0000
    requires |other| < 0x1_0000_0000 && |signatures| < 0x1_0000_0000
    ensures InstructionData(discriminator, message, attestation) == InstructionData(discriminator, other, signatures)
            <==> message == other && attestation == signatures
  {
    hide Length32;
    if InstructionData(discriminator, message, attestation) == InstructionData(discriminator, other, signatures) {
      var x, y := Length32(|attestation|) + attestation, Length32(|signatures|) + signatures;
      SplitAt(discriminator, Length32(|message|) + (message + x), discriminator, Length32(|other|) + (other + y));
      SplitAt(Length32(|message|), message + x, Length32(|other|), other + y);
      LengthDetermines(|message|, |other|);
      SplitAt(message, x, other, y);
      SplitAt(Length32(|attestation|), attestation, Length32(|signatures|), signatures);
    }
  }
}
