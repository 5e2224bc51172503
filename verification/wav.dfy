/** The canonical 44-byte RIFF/WAVE header for 16-bit mono PCM, as
    `WavConverter` (and the WhisperKit provider) write it, and a reader
    for it that serves as its inverse. */
module Wav {
  import opened Wrappers
  import opened Utf8
  import opened Text
  import opened LittleEndian

  const HEADER_SIZE: nat := 44

  /** `files::SAMPLE_RATE`; with `CHANNELS` 1 and `BYTES_PER_SAMPLE` 2 a
      second of audio is 32000 bytes. */
  const SAMPLE_RATE: nat := 16000
  const BYTES_PER_SECOND: nat := 32000

  /** The largest PCM payload a header can describe: `u32::MAX - 36`. */
  const MAX_DATA_SIZE: nat := 4294967259

  /** The chunk tags "RIFF", "WAVE", "fmt " and "data" in ASCII. */
  const RIFF: seq<byte> := [0x52, 0x49, 0x46, 0x46]
  const WAVE: seq<byte> := [0x57, 0x41, 0x56, 0x45]
  const FMT: seq<byte> := [0x66, 0x6d, 0x74, 0x20]
  const DATA: seq<byte> := [0x64, 0x61, 0x74, 0x61]

  /** The fields of a header that vary: the RIFF chunk size, the sample
      rate, the byte rate and the data size. The format tag (1, PCM), the
      channel count (1), the block alignment (2) and the bits per sample
      (16) are fixed. */
  datatype Fields = Fields(riffSize: nat, rate: nat, byteRate: nat, dataSize: nat)

  predicate Fits(f: Fields) {
    f.riffSize < U32_LIMIT && f.rate < U32_LIMIT && f.byteRate < U32_LIMIT && f.dataSize < U32_LIMIT
  }

  /** The header bytes, each field little-endian at its offset. */
  function Layout(f: Fields): (h: seq<byte>)
    requires Fits(f)
    ensures |h| == HEADER_SIZE
    ensures h[0..4] == RIFF && h[8..12] == WAVE && h[12..16] == FMT && h[36..40] == DATA
    ensures h[4..8] == U32(f.riffSize) && h[24..28] == U32(f.rate)
    ensures h[28..32] == U32(f.byteRate) && h[40..44] == U32(f.dataSize)
    ensures h[16..20] == U32(16) && h[20..22] == U16(1) && h[22..24] == U16(1)
    ensures h[32..34] == U16(2) && h[34..36] == U16(16)
  {
    var a := RIFF + U32(f.riffSize) + WAVE + FMT;
    var b := U32(16) + U16(1) + U16(1) + U32(f.rate);
    var c := U32(f.byteRate) + U16(2) + U16(16);
    var d := DATA + U32(f.dataSize);
    assert |a| == 16 && |b| == 12 && |c| == 8 && |d| == 8;
    a + b + c + d
  }

  /** Reads a header: the four tags and the fixed fields must be those of
      16-bit mono PCM. */
  function ParseHeader(h: seq<byte>): (r: Option<Fields>)
    ensures r.Some? ==> |h| >= HEADER_SIZE && Fits(r.value)
  {
    if |h| < HEADER_SIZE then None
    else if h[0..4] != RIFF || h[8..12] != WAVE || h[12..16] != FMT || h[36..40] != DATA then None
    else if ReadU32(h[16..20]) != 16 || ReadU16(h[20..22]) != 1 || ReadU16(h[22..24]) != 1 then None
    else if ReadU16(h[32..34]) != 2 || ReadU16(h[34..36]) != 16 then None
    else Some(Fields(ReadU32(h[4..8]), ReadU32(h[24..28]), ReadU32(h[28..32]), ReadU32(h[40..44])))
  }

  /** Reading a written header gives back its fields. */
  lemma {:induction false} LayoutRoundTrip(f: Fields)
    requires Fits(f)
    ensures ParseHeader(Layout(f)) == Some(f)
  {
    var h := Layout(f);
    U32RoundTrip(f.riffSize);
    U32RoundTrip(f.rate);
    U32RoundTrip(f.byteRate);
    U32RoundTrip(f.dataSize);
    U32RoundTrip(16);
    U16RoundTrip(1);
    U16RoundTrip(2);
    U16RoundTrip(16);
  }

  /** A header that reads is the one written from its fields. */
  lemma {:induction false} ParsedIsLayout(h: seq<byte>)
    requires ParseHeader(h).Some?
    ensures Layout(ParseHeader(h).value) == h[..HEADER_SIZE]
  {
    var w := Layout(ParseHeader(h).value);
    U32Injective(h[4..8]);
    U32Injective(h[16..20]);
    U32Injective(h[24..28]);
    U32Injective(h[28..32]);
    U32Injective(h[40..44]);
    U16Injective(h[20..22]);
    U16Injective(h[22..24]);
    U16Injective(h[32..34]);
    U16Injective(h[34..36]);
    forall i | 0 <= i < HEADER_SIZE
      ensures w[i] == h[i]
    {
      if i < 4 { assert w[i] == w[0..4][i]; assert h[i] == h[0..4][i]; }
      else if i < 8 { assert w[i] == w[4..8][i - 4]; assert h[i] == h[4..8][i - 4]; }
      else if i < 12 { assert w[i] == w[8..12][i - 8]; assert h[i] == h[8..12][i - 8]; }
      else if i < 16 { assert w[i] == w[12..16][i - 12]; assert h[i] == h[12..16][i - 12]; }
      else if i < 20 { assert w[i] == w[16..20][i - 16]; assert h[i] == h[16..20][i - 16]; }
      else if i < 22 { assert w[i] == w[20..22][i - 20]; assert h[i] == h[20..22][i - 20]; }
      else if i < 24 { assert w[i] == w[22..24][i - 22]; assert h[i] == h[22..24][i - 22]; }
      else if i < 28 { assert w[i] == w[24..28][i - 24]; assert h[i] == h[24..28][i - 24]; }
      else if i < 32 { assert w[i] == w[28..32][i - 28]; assert h[i] == h[28..32][i - 28]; }
      else if i < 34 { assert w[i] == w[32..34][i - 32]; assert h[i] == h[32..34][i - 32]; }
      else if i < 36 { assert w[i] == w[34..36][i - 34]; assert h[i] == h[34..36][i - 34]; }
      else if i < 40 { assert w[i] == w[36..40][i - 36]; assert h[i] == h[36..40][i - 36]; }
      else { assert w[i] == w[40..44][i - 40]; assert h[i] == h[40..44][i - 40]; }
    }
  }

  /** Only the first 44 bytes of a file decide how its header reads. */
  lemma {:induction false} ParseHeaderPrefix(w: seq<byte>)
    requires |w| >= HEADER_SIZE
    ensures ParseHeader(w) == ParseHeader(w[..HEADER_SIZE])
  {
    var h := w[..HEADER_SIZE];
    assert h[0..4] == w[0..4] && h[4..8] == w[4..8] && h[8..12] == w[8..12] && h[12..16] == w[12..16];
    assert h[16..20] == w[16..20] && h[20..22] == w[20..22] && h[22..24] == w[22..24] && h[24..28] == w[24..28];
    assert h[28..32] == w[28..32] && h[32..34] == w[32..34] && h[34..36] == w[34..36];
    assert h[36..40] == w[36..40] && h[40..44] == w[40..44];
  }

  /** The header of `dataSize` bytes of audio at `rate` samples a second:
      the RIFF size counts the 36 header bytes after it, the byte rate is
      two bytes a sample. */
  function Canonical(dataSize: nat, rate: nat): (f: Fields)
    requires dataSize <= MAX_DATA_SIZE && 2 * rate < U32_LIMIT
    ensures Fits(f)
  {
    Fields(dataSize + 36, rate, 2 * rate, dataSize)
  }

  /** `create_wav_header`: the canonical header at 16 kHz. Its caller has
      already bounded the size, so the `u32` addition cannot overflow. */
  function CreateHeader(dataSize: nat): (h: seq<byte>)
    requires dataSize <= MAX_DATA_SIZE
    ensures |h| == HEADER_SIZE
    ensures ParseHeader(h) == Some(Fields(dataSize + 36, SAMPLE_RATE, BYTES_PER_SECOND, dataSize))
  {
    LayoutRoundTrip(Canonical(dataSize, SAMPLE_RATE));
    Layout(Canonical(dataSize, SAMPLE_RATE))
  }

  /** The message for a payload of `size` bytes that is too large. */
  function TooLarge(size: nat): string {
    "PCM data too large (" + NatToString(size) + " bytes). WAV format supports " + "maximum 4294967259 bytes"
  }

  /** `from_pcm_bytes`: refuse a payload the header cannot describe, else
      put the header in front of it. */
  function FromPcmBytes(pcm: seq<byte>): (r: Result<seq<byte>>)
    ensures r.Err? <==> |pcm| > MAX_DATA_SIZE
    ensures r.Err? ==> r.error == TooLarge(|pcm|)
    ensures r.Ok? ==> |r.value| == HEADER_SIZE + |pcm| && r.value[HEADER_SIZE..] == pcm
    ensures r.Ok? ==> ParseHeader(r.value) == Some(Fields(|pcm| + 36, SAMPLE_RATE, BYTES_PER_SECOND, |pcm|))
  {
    if |pcm| > MAX_DATA_SIZE then
      Err(TooLarge(|pcm|))
    else
      var h := CreateHeader(|pcm|);
      assert (h + pcm)[..HEADER_SIZE] == h;
      ParseHeaderPrefix(h + pcm);
      Ok(h + pcm)
  }

  /** Splitting a converted file into header and payload gives back the
      audio, and the header's data size is the payload's length. */
  lemma {:induction false} PayloadRoundTrip(pcm: seq<byte>)
    requires |pcm| <= MAX_DATA_SIZE
    ensures var w := FromPcmBytes(pcm).value;
      && ParseHeader(w).value.dataSize == |w| - HEADER_SIZE
      && w[HEADER_SIZE..HEADER_SIZE + ParseHeader(w).value.dataSize] == pcm
  {
  }

  /** `pcm_to_wav`: read the file (its path as the error shows it), then
      convert. */
  function PcmToWav(read: Result<seq<byte>>, pathShown: string): (r: Result<seq<byte>>)
    ensures read.Err? ==> r == Err("Failed to read PCM file " + pathShown + ": " + read.error)
    ensures read.Ok? ==> r == FromPcmBytes(read.value)
  {
    match read
    case Err(e) => Err("Failed to read PCM file " + pathShown + ": " + e)
    case Ok(bytes) => FromPcmBytes(bytes)
  }
}
