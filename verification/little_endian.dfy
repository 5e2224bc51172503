/** Fixed-width unsigned and signed integers as little-endian bytes
    (`to_le_bytes` / `from_le_bytes`). */
module LittleEndian {
  import opened Utf8

  const U16_LIMIT: int := 0x1_0000
  const U32_LIMIT: int := 0x1_0000_0000

  /** `u16::to_le_bytes`. */
  function U16(n: nat): (r: seq<byte>)
    requires n < U16_LIMIT
    ensures |r| == 2
  {
    [(n % 256) as byte, (n / 256) as byte]
  }

  /** `u32::to_le_bytes`. */
  function U32(n: nat): (r: seq<byte>)
    requires n < U32_LIMIT
    ensures |r| == 4
  {
    [(n % 256) as byte, (n / 256 % 256) as byte, (n / 0x1_0000 % 256) as byte, (n / 0x100_0000) as byte]
  }

  /** `u16::from_le_bytes`. */
  function ReadU16(s: seq<byte>): (n: nat)
    requires |s| == 2
    ensures n < U16_LIMIT
  {
    s[0] as nat + 256 * s[1] as nat
  }

  /** `u32::from_le_bytes`. */
  function ReadU32(s: seq<byte>): (n: nat)
    requires |s| == 4
    ensures n < U32_LIMIT
  {
    s[0] as nat + 256 * s[1] as nat + 0x1_0000 * s[2] as nat + 0x100_0000 * s[3] as nat
  }

  /** `i16::from_le_bytes`: two's complement. */
  function ReadI16(s: seq<byte>): (n: int)
    requires |s| == 2
    ensures -0x8000 <= n < 0x8000
    ensures n >= 0 <==> s[1] < 128
  {
    var u := ReadU16(s);
    if u < 0x8000 then u else u - U16_LIMIT
  }

  lemma {:induction false} U16RoundTrip(n: nat)
    requires n < U16_LIMIT
    ensures ReadU16(U16(n)) == n
  {
  }

  lemma {:induction false} U32RoundTrip(n: nat)
    requires n < U32_LIMIT
    ensures ReadU32(U32(n)) == n
  {
    var q1 := n / 256;
    var q2 := q1 / 256;
    assert n / 0x1_0000 == q2 && n / 0x100_0000 == q2 / 256;
    assert n == n % 256 + 256 * (q1 % 256) + 0x1_0000 * (q2 % 256) + 0x100_0000 * (q2 / 256);
  }

  lemma {:induction false} U32Injective(s: seq<byte>)
    requires |s| == 4
    ensures U32(ReadU32(s)) == s
  {
    var a, b, c, d := s[0] as nat, s[1] as nat, s[2] as nat, s[3] as nat;
    var n := ReadU32(s);
    var hi := b + 256 * (c + 256 * d);
    assert n == a + 256 * hi;
    ByteDigit(a, hi);
    ByteDigit(b, c + 256 * d);
    ByteDigit(c, d);
    assert n / 0x1_0000 == (n / 256) / 256;
    assert n / 0x100_0000 == ((n / 256) / 256) / 256;
  }

  /** The low byte and the rest of `x + 256 * y`. */
  lemma {:induction false} ByteDigit(x: nat, y: nat)
    requires x < 256
    ensures (x + 256 * y) % 256 == x && (x + 256 * y) / 256 == y
  {
  }

  lemma {:induction false} U16Injective(s: seq<byte>)
    requires |s| == 2
    ensures U16(ReadU16(s)) == s
  {
    ByteDigit(s[0] as nat, s[1] as nat);
  }

  // ---------------------------------------------------------------------
  // 16-bit PCM samples
  // ---------------------------------------------------------------------

  predicate IsI16(v: int) {
    -0x8000 <= v < 0x8000
  }

  /** `i16::to_le_bytes`: the two's complement of `v`. */
  function I16(v: int): (r: seq<byte>)
    requires IsI16(v)
    ensures |r| == 2
  {
    U16(if v < 0 then v + U16_LIMIT else v)
  }

  lemma {:induction false} I16RoundTrip(v: int)
    requires IsI16(v)
    ensures ReadI16(I16(v)) == v
  {
    U16RoundTrip(if v < 0 then v + U16_LIMIT else v);
  }

  /** Samples as s16le bytes, two per sample. */
  function EncodeSamples(samples: seq<int>): (r: seq<byte>)
    requires forall i :: 0 <= i < |samples| ==> IsI16(samples[i])
    ensures |r| == 2 * |samples|
  {
    if samples == [] then [] else I16(samples[0]) + EncodeSamples(samples[1..])
  }

  /** `chunks_exact(2)` read as `i16::from_le_bytes`: one sample per whole
      pair of bytes; a trailing odd byte is ignored. */
  function DecodeSamples(bytes: seq<byte>): (r: seq<int>)
    ensures |r| == |bytes| / 2
    ensures forall i :: 0 <= i < |r| ==> IsI16(r[i]) && r[i] == ReadI16(bytes[2 * i..2 * i + 2])
  {
    if |bytes| < 2 then [] else [ReadI16(bytes[..2])] + DecodeSamples(bytes[2..])
  }

  lemma {:induction false} SamplesRoundTrip(samples: seq<int>)
    requires forall i :: 0 <= i < |samples| ==> IsI16(samples[i])
    ensures DecodeSamples(EncodeSamples(samples)) == samples
  {
    if samples != [] {
      var bytes := EncodeSamples(samples);
      assert bytes[..2] == I16(samples[0]);
      assert bytes[2..] == EncodeSamples(samples[1..]);
      I16RoundTrip(samples[0]);
      SamplesRoundTrip(samples[1..]);
    }
  }
}
