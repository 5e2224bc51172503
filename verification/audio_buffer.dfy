/** `AudioBuffer`: accumulates s16le PCM bytes and hands out fixed windows
    that overlap by a fixed amount. Samples come out as `i16 / 32768`,
    which an `f32` holds exactly, so they are reals here. */
module AudioBuffer {
  import opened Wrappers
  import opened Utf8
  import opened LittleEndian

  datatype Buffer = Buffer(bytes: seq<byte>, windowBytes: nat, advanceBytes: nat, sampleRate: nat)

  /** A duration in bytes: `(secs * bytes_per_second) as usize`, which
      truncates toward zero and saturates at zero (the rounding of the
      `f32` product is not modelled). */
  function DurationBytes(secs: real, bytesPerSecond: nat): (n: nat)
    ensures secs >= 0.0 ==> n as real <= secs * bytesPerSecond as real < n as real + 1.0
    ensures secs <= 0.0 ==> n == 0
  {
    var x := secs * bytesPerSecond as real;
    if x < 0.0 then 0 else x.Floor
  }

  /** `new`: a window of `window` seconds advancing by `window - overlap`
      seconds, at two bytes a sample. */
  function New(window: real, overlap: real, sampleRate: nat): (b: Buffer)
    ensures b.bytes == [] && b.sampleRate == sampleRate
    ensures b.windowBytes == DurationBytes(window, 2 * sampleRate)
    ensures b.advanceBytes == DurationBytes(window - overlap, 2 * sampleRate)
  {
    Buffer([], DurationBytes(window, 2 * sampleRate), DurationBytes(window - overlap, 2 * sampleRate), sampleRate)
  }

  /** The default three-second window with half a second of overlap at
      16 kHz is 96000 bytes advancing by 80000. */
  lemma {:induction false} DefaultSizes()
    ensures New(3.0, 0.5, 16000).windowBytes == 96000
    ensures New(3.0, 0.5, 16000).advanceBytes == 80000
  {
    assert 3.0 * 32000 as real == 96000.0;
    assert (3.0 - 0.5) * 32000 as real == 80000.0;
  }

  /** A non-negative overlap never advances past the window. */
  lemma {:induction false} AdvanceWithinWindow(window: real, overlap: real, sampleRate: nat)
    requires overlap >= 0.0
    ensures New(window, overlap, sampleRate).advanceBytes <= New(window, overlap, sampleRate).windowBytes
  {
    var bps := (2 * sampleRate) as real;
    assert (window - overlap) * bps <= window * bps;
  }

  /** `push`. */
  function Push(b: Buffer, chunk: seq<byte>): (r: Buffer)
    ensures r.bytes == b.bytes + chunk
    ensures r.windowBytes == b.windowBytes && r.advanceBytes == b.advanceBytes && r.sampleRate == b.sampleRate
  {
    b.(bytes := b.bytes + chunk)
  }

  /** The samples of a byte run, normalised to [-1, 1). */
  function Normalised(bytes: seq<byte>): (r: seq<real>)
    ensures |r| == |bytes| / 2
    ensures forall i :: 0 <= i < |r| ==> -1.0 <= r[i] < 1.0
  {
    var s := DecodeSamples(bytes);
    seq(|s|, i requires 0 <= i < |s| => s[i] as real / 32768.0)
  }

  datatype Extracted =
    | NotEnough
    | Window(samples: seq<real>, rest: Buffer)
    /** The advance exceeds what is buffered: `drain` panics. Only a
        negative overlap gets here. */
    | Panicked

  /** `extract_window`. */
  function ExtractWindow(b: Buffer): (r: Extracted)
    ensures r == NotEnough <==> |b.bytes| < b.windowBytes
    ensures r.Panicked? <==> b.windowBytes <= |b.bytes| < b.advanceBytes
    ensures r.Window? ==>
      && r.samples == Normalised(b.bytes[..b.windowBytes])
      && r.rest == b.(bytes := b.bytes[b.advanceBytes..])
  {
    if |b.bytes| < b.windowBytes then NotEnough
    else if |b.bytes| < b.advanceBytes then Panicked
    else Window(Normalised(b.bytes[..b.windowBytes]), b.(bytes := b.bytes[b.advanceBytes..]))
  }

  /** Consecutive windows share their overlap: the bytes that start the
      next window are the ones that ended this one. */
  lemma {:induction false} WindowsOverlap(b: Buffer)
    requires ExtractWindow(b).Window? && b.advanceBytes <= b.windowBytes
    ensures var rest := ExtractWindow(b).rest.bytes;
      |rest| >= b.windowBytes - b.advanceBytes
      && rest[..b.windowBytes - b.advanceBytes] == b.bytes[b.advanceBytes..b.windowBytes]
  {
  }

  /** A window holds `window / 2` samples, each the little-endian sample of
      its byte pair. */
  lemma {:induction false} WindowSamples(b: Buffer, i: nat)
    requires ExtractWindow(b).Window? && i < b.windowBytes / 2
    ensures |ExtractWindow(b).samples| == b.windowBytes / 2
    ensures ExtractWindow(b).samples[i] == ReadI16(b.bytes[2 * i..2 * i + 2]) as real / 32768.0
  {
    var w := b.bytes[..b.windowBytes];
    assert w[2 * i..2 * i + 2] == b.bytes[2 * i..2 * i + 2];
  }

  /** `drain_remaining`: the buffer is always emptied; its samples come
      back only when it holds at least `minSecs` of audio. */
  function DrainRemaining(b: Buffer, minSecs: real): (r: (Buffer, Option<seq<real>>))
    ensures r.0 == b.(bytes := [])
    ensures r.1.Some? <==> |b.bytes| >= DurationBytes(minSecs, 2 * b.sampleRate)
    ensures r.1.Some? ==> r.1.value == Normalised(b.bytes)
  {
    if |b.bytes| < DurationBytes(minSecs, 2 * b.sampleRate) then (b.(bytes := []), None)
    else (b.(bytes := []), Some(Normalised(b.bytes)))
  }

  /** Pushing a whole window's worth and extracting it returns exactly the
      pushed audio, whatever was buffered before was less than a window. */
  lemma {:induction false} PushedWindowComesBack(b: Buffer, chunk: seq<byte>)
    requires b.bytes == [] && |chunk| == b.windowBytes && b.advanceBytes <= b.windowBytes
    ensures ExtractWindow(Push(b, chunk)) == Window(Normalised(chunk), b.(bytes := chunk[b.advanceBytes..]))
  {
    assert Push(b, chunk).bytes == chunk;
    assert chunk[..b.windowBytes] == chunk;
  }
}
