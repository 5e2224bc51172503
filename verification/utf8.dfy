/** UTF-8 byte strings, as laid down in section 4 of RFC 3629.

    Rust's `&str` is a byte string that is always valid UTF-8; its byte
    offsets are only usable as slice bounds when they fall on a character
    boundary (`str::is_char_boundary`). */
module Utf8 {
  import opened Wrappers

  newtype byte = x: int | 0 <= x < 256

  /** A byte of the form 10xxxxxx (UTF8-tail in RFC 3629). */
  predicate IsContinuation(b: byte) {
    0x80 <= b < 0xC0
  }

  /** Rust `str::is_char_boundary`: offset 0, the end, or an offset whose
      byte is not a continuation byte. */
  predicate IsCharBoundary(s: seq<byte>, i: int) {
    i == 0 || i == |s| || (0 < i < |s| && !IsContinuation(s[i]))
  }

  predicate InRange(b: byte, lo: int, hi: int) {
    lo <= b as int <= hi
  }

  /** Length of the encoded character at the front of `s`, following the
      UTF8-char rule of RFC 3629; 0 when the front is not a valid encoding. */
  function CharWidth(s: seq<byte>): (w: nat)
    ensures w <= 4 && w <= |s|
    ensures w > 0 ==> !IsContinuation(s[0])
    ensures forall k :: 0 < k < w ==> IsContinuation(s[k])
  {
    if |s| == 0 then 0
    else if s[0] < 0x80 then 1
    else if InRange(s[0], 0xC2, 0xDF) then
      if |s| >= 2 && IsContinuation(s[1]) then 2 else 0
    else if InRange(s[0], 0xE0, 0xEF) then
      if |s| >= 3 && IsContinuation(s[1]) && IsContinuation(s[2])
         && (s[0] != 0xE0 || InRange(s[1], 0xA0, 0xBF))
         && (s[0] != 0xED || InRange(s[1], 0x80, 0x9F))
      then 3 else 0
    else if InRange(s[0], 0xF0, 0xF4) then
      if |s| >= 4 && IsContinuation(s[1]) && IsContinuation(s[2]) && IsContinuation(s[3])
         && (s[0] != 0xF0 || InRange(s[1], 0x90, 0xBF))
         && (s[0] != 0xF4 || InRange(s[1], 0x80, 0x8F))
      then 4 else 0
    else 0
  }

  /** The byte string is a sequence of encoded characters (UTF8-octets). */
  predicate Valid(s: seq<byte>)
    decreases |s|
  {
    |s| == 0 || (CharWidth(s) > 0 && Valid(s[CharWidth(s)..]))
  }

  predicate IsAscii(s: seq<byte>) {
    forall i :: 0 <= i < |s| ==> s[i] < 0x80
  }

  lemma {:induction false} AsciiIsValid(s: seq<byte>)
    requires IsAscii(s)
    ensures Valid(s)
    decreases |s|
  {
    if |s| > 0 {
      AsciiIsValid(s[1..]);
    }
  }

  /** Every offset of an ASCII string is a character boundary. */
  lemma {:induction false} AsciiBoundaries(s: seq<byte>, i: int)
    requires IsAscii(s) && 0 <= i <= |s|
    ensures IsCharBoundary(s, i)
  {
  }

  /** The suffix of a valid string from a character boundary is valid. */
  lemma {:induction false} SuffixValid(s: seq<byte>, a: nat)
    requires Valid(s) && a <= |s| && IsCharBoundary(s, a)
    ensures Valid(s[a..])
    decreases |s|
  {
    if 0 < a < |s| {
      var w := CharWidth(s);
      assert w <= a;
      var t := s[w..];
      assert t[a - w..] == s[a..];
      assert IsCharBoundary(t, a - w);
      SuffixValid(t, a - w);
    }
  }

  /** The prefix of a valid string up to a character boundary is valid. */
  lemma {:induction false} PrefixValid(s: seq<byte>, b: nat)
    requires Valid(s) && b <= |s| && IsCharBoundary(s, b)
    ensures Valid(s[..b])
    decreases |s|
  {
    if 0 < b < |s| {
      var w := CharWidth(s);
      assert w <= b;
      var t := s[w..];
      assert IsCharBoundary(t, b - w);
      PrefixValid(t, b - w);
      assert s[..b][..w] == s[..w];
      assert CharWidth(s[..b]) == w;
      assert s[..b][w..] == t[..b - w];
    } else if b == |s| {
      assert s[..b] == s;
    }
  }

  /** The slice between two character boundaries of a valid string is valid. */
  lemma {:induction false} SliceValid(s: seq<byte>, a: nat, b: nat)
    requires Valid(s) && a <= b <= |s| && IsCharBoundary(s, a) && IsCharBoundary(s, b)
    ensures Valid(s[a..b])
  {
    PrefixValid(s, b);
    var p := s[..b];
    assert IsCharBoundary(p, a);
    SuffixValid(p, a);
    assert p[a..] == s[a..b];
  }

  /** In a valid string, the next boundary after a boundary `a` is at most
      four bytes away. */
  lemma {:induction false} NextBoundary(s: seq<byte>, a: nat) returns (b: nat)
    requires Valid(s) && a < |s| && IsCharBoundary(s, a)
    ensures a < b <= a + 4 && b <= |s| && IsCharBoundary(s, b)
  {
    SuffixValid(s, a);
    var t := s[a..];
    var w := CharWidth(t);
    b := a + w;
    if b < |s| {
      var u := t[w..];
      assert u[0] == s[b];
      assert CharWidth(u) > 0;
    }
  }

  /** The UTF-8 encoding of one character (section 3 of RFC 3629). */
  function EncodeChar(c: char): (r: seq<byte>)
    ensures 1 <= |r| <= 4
    ensures (c as int < 0x80) <==> |r| == 1
    ensures |r| == 1 ==> r[0] as int == c as int
  {
    var n := c as int;
    if n < 0x80 then [n as byte]
    else if n < 0x800 then [(0xC0 + n / 64) as byte, (0x80 + n % 64) as byte]
    else if n < 0x10000 then
      [(0xE0 + n / 4096) as byte, (0x80 + (n / 64) % 64) as byte, (0x80 + n % 64) as byte]
    else
      [(0xF0 + n / 262144) as byte, (0x80 + (n / 4096) % 64) as byte,
       (0x80 + (n / 64) % 64) as byte, (0x80 + n % 64) as byte]
  }

  /** The UTF-8 encoding of a string (Rust's `str::as_bytes`). */
  function Encode(s: string): (r: seq<byte>)
    ensures |r| >= |s|
  {
    if |s| == 0 then [] else EncodeChar(s[0]) + Encode(s[1..])
  }

  /** Byte length of a string (Rust's `str::len`). */
  function ByteLen(s: string): nat {
    |Encode(s)|
  }

  lemma {:induction false} EncodeCharWidth(c: char, rest: seq<byte>)
    ensures CharWidth(EncodeChar(c) + rest) == |EncodeChar(c)|
  {
    var e := EncodeChar(c);
    assert (e + rest)[..|e|] == e;
  }

  lemma {:induction false} EncodeValid(s: string)
    ensures Valid(Encode(s))
  {
    if |s| > 0 {
      var e := EncodeChar(s[0]);
      EncodeValid(s[1..]);
      EncodeCharWidth(s[0], Encode(s[1..]));
      assert (e + Encode(s[1..]))[|e|..] == Encode(s[1..]);
    }
  }

  lemma {:induction false} EncodeAppend(a: string, b: string)
    ensures Encode(a + b) == Encode(a) + Encode(b)
  {
    if |a| > 0 {
      assert (a + b)[1..] == a[1..] + b;
      EncodeAppend(a[1..], b);
    } else {
      assert a + b == b;
    }
  }

  /** ASCII text encodes byte for byte. */
  lemma {:induction false} EncodeAscii(s: string)
    requires forall i :: 0 <= i < |s| ==> s[i] as int < 0x80
    ensures |Encode(s)| == |s|
    ensures forall i :: 0 <= i < |s| ==> Encode(s)[i] as int == s[i] as int
  {
    if |s| > 0 {
      EncodeAscii(s[1..]);
    }
  }
  /** The character whose encoding starts `s` (the inverse of `EncodeChar`). */
  function DecodeChar(s: seq<byte>): (c: char)
    requires CharWidth(s) > 0
    ensures EncodeChar(c) == s[..CharWidth(s)]
  {
    var w := CharWidth(s);
    var n :=
      if w == 1 then s[0] as int
      else if w == 2 then (s[0] as int - 0xC0) * 64 + (s[1] as int - 0x80)
      else if w == 3 then
        (s[0] as int - 0xE0) * 4096 + (s[1] as int - 0x80) * 64 + (s[2] as int - 0x80)
      else
        (s[0] as int - 0xF0) * 262144 + (s[1] as int - 0x80) * 4096
        + (s[2] as int - 0x80) * 64 + (s[3] as int - 0x80);
    DecodeCharRange(s);
    var c := n as char;
    DecodeCharBytes(s, c);
    c
  }

  lemma {:induction false} DecodeCharRange(s: seq<byte>)
    requires CharWidth(s) > 0
    ensures var w := CharWidth(s);
      var n :=
        if w == 1 then s[0] as int
        else if w == 2 then (s[0] as int - 0xC0) * 64 + (s[1] as int - 0x80)
        else if w == 3 then
          (s[0] as int - 0xE0) * 4096 + (s[1] as int - 0x80) * 64 + (s[2] as int - 0x80)
        else
          (s[0] as int - 0xF0) * 262144 + (s[1] as int - 0x80) * 4096
          + (s[2] as int - 0x80) * 64 + (s[3] as int - 0x80);
      (0 <= n < 0xD800 || 0xE000 <= n < 0x11_0000)
  {
  }

  lemma {:induction false} DivMod64(q: int, r: int)
    requires 0 <= q && 0 <= r < 64
    ensures (q * 64 + r) / 64 == q && (q * 64 + r) % 64 == r
  {
  }

  lemma {:induction false} DecodeCharBytes(s: seq<byte>, c: char)
    requires CharWidth(s) > 0
    requires var w := CharWidth(s);
      c as int ==
        if w == 1 then s[0] as int
        else if w == 2 then (s[0] as int - 0xC0) * 64 + (s[1] as int - 0x80)
        else if w == 3 then
          (s[0] as int - 0xE0) * 4096 + (s[1] as int - 0x80) * 64 + (s[2] as int - 0x80)
        else
          (s[0] as int - 0xF0) * 262144 + (s[1] as int - 0x80) * 4096
          + (s[2] as int - 0x80) * 64 + (s[3] as int - 0x80)
    ensures EncodeChar(c) == s[..CharWidth(s)]
  {
    var w := CharWidth(s);
    var n := c as int;
    if w == 2 {
      DivMod64(s[0] as int - 0xC0, s[1] as int - 0x80);
    } else if w == 3 {
      var hi := (s[0] as int - 0xE0) * 64 + (s[1] as int - 0x80);
      DivMod64(hi, s[2] as int - 0x80);
      DivMod64(s[0] as int - 0xE0, s[1] as int - 0x80);
      assert n / 64 == hi;
      assert n / 4096 == (n / 64) / 64;
    } else if w == 4 {
      var mid := (s[0] as int - 0xF0) * 64 + (s[1] as int - 0x80);
      var hi := mid * 64 + (s[2] as int - 0x80);
      DivMod64(hi, s[3] as int - 0x80);
      DivMod64(mid, s[2] as int - 0x80);
      DivMod64(s[0] as int - 0xF0, s[1] as int - 0x80);
      assert n / 64 == hi;
      assert n / 4096 == hi / 64 == mid;
      assert n / 262144 == mid / 64;
    }
  }

  /** Decoding valid UTF-8 (Rust's `str::from_utf8` on valid input, or a
      `&str` viewed as characters): encoding the result gives the bytes back. */
  function Decode(s: seq<byte>): (r: string)
    requires Valid(s)
    ensures Encode(r) == s
    decreases |s|
  {
    if |s| == 0 then []
    else
      var w := CharWidth(s);
      var c := DecodeChar(s);
      var rest := Decode(s[w..]);
      assert ([c] + rest)[1..] == rest;
      assert s[..w] + s[w..] == s;
      [c] + rest
  }

  /** Decoding the encoding of a character gives the character back. */
  lemma {:induction false} DecodeCharOf(c: char)
    ensures CharWidth(EncodeChar(c)) == |EncodeChar(c)|
    ensures DecodeChar(EncodeChar(c)) == c
  {
    var e := EncodeChar(c);
    EncodeCharWidth(c, []);
    assert e + [] == e;
    var n := c as int;
    Radix64(n);
    if n >= 0x80 && n < 0x800 {
      assert n == (n / 64) * 64 + n % 64;
    } else if n >= 0x800 && n < 0x10000 {
      assert n == (n / 4096) * 4096 + ((n / 64) % 64) * 64 + n % 64;
    } else if n >= 0x10000 {
      assert n == (n / 262144) * 262144 + ((n / 4096) % 64) * 4096 + ((n / 64) % 64) * 64 + n % 64;
    }
  }

  /** A number's base-64 digits: each quotient is the next one's quotient
      and remainder. */
  lemma {:induction false} Radix64(n: int)
    requires n >= 0
    ensures n / 4096 == (n / 64) / 64 && n / 262144 == (n / 4096) / 64
    ensures n == (n / 64) * 64 + n % 64
    ensures n / 64 == (n / 4096) * 64 + (n / 64) % 64
    ensures n / 4096 == (n / 262144) * 64 + (n / 4096) % 64
  {
  }

  /** `EncodeChar` is injective. */
  lemma {:induction false} EncodeCharInjective(a: char, b: char)
    requires EncodeChar(a) == EncodeChar(b)
    ensures a == b
  {
    DecodeCharOf(a);
    DecodeCharOf(b);
  }

  /** Decoding the encoding of a string gives the string back. */
  lemma {:induction false} DecodeEncode(t: string)
    ensures Valid(Encode(t)) && Decode(Encode(t)) == t
  {
    EncodeValid(t);
    if |t| > 0 {
      var e := Encode(t);
      var w := |EncodeChar(t[0])|;
      EncodeCharWidth(t[0], Encode(t[1..]));
      assert e[..w] == EncodeChar(t[0]);
      EncodeCharInjective(DecodeChar(e), t[0]);
      assert e[w..] == Encode(t[1..]);
      DecodeEncode(t[1..]);
    }
  }

  /** Different strings have different encodings. */
  lemma {:induction false} EncodeInjective(a: string, b: string)
    requires Encode(a) == Encode(b)
    ensures a == b
  {
    DecodeEncode(a);
    DecodeEncode(b);
  }

  /** Decoding distributes over concatenation of valid byte strings. */
  lemma {:induction false} DecodeAppend(a: seq<byte>, b: seq<byte>)
    requires Valid(a) && Valid(b)
    ensures Valid(a + b) && Decode(a + b) == Decode(a) + Decode(b)
  {
    EncodeAppend(Decode(a), Decode(b));
    EncodeValid(Decode(a) + Decode(b));
    EncodeInjective(Decode(a + b), Decode(a) + Decode(b));
  }
  // ---------------------------------------------------------------------
  // Byte-offset slicing of Rust strings
  // ---------------------------------------------------------------------

  lemma {:induction false} ByteLenCons(c: char, t: string)
    ensures ByteLen([c] + t) == |EncodeChar(c)| + ByteLen(t)
  {
    assert ([c] + t)[0] == c && ([c] + t)[1..] == t;
  }

  /** `&s[..n]`: the characters making up the first `n` bytes, or `None`
      where Rust panics (`n` past the end or inside a character). */
  function BytePrefix(s: string, n: nat): (r: Option<string>)
    ensures r.Some? ==> |r.value| <= |s| && r.value == s[..|r.value|] && ByteLen(r.value) == n
    ensures r.None? ==> forall k :: 0 <= k <= |s| ==> ByteLen(s[..k]) != n
    decreases |s|
  {
    if n == 0 then Some([])
    else if |s| == 0 then None
    else
      var w := |EncodeChar(s[0])|;
      var rest := BytePrefix(s[1..], if n < w then 0 else n - w);
      if n < w || rest.None? then
        forall k | 0 < k <= |s| ensures ByteLen(s[..k]) != n {
          assert s[..k] == [s[0]] + s[1..][..k - 1];
          ByteLenCons(s[0], s[1..][..k - 1]);
        }
        None
      else
        ByteLenCons(s[0], rest.value);
        assert s[..1 + |rest.value|] == [s[0]] + s[1..][..|rest.value|];
        Some([s[0]] + rest.value)
  }

  /** `&s[n..]`: what follows the first `n` bytes, or `None` where Rust
      panics. */
  function ByteSuffix(s: string, n: nat): (r: Option<string>)
    ensures r.Some? <==> BytePrefix(s, n).Some?
    ensures r.Some? ==> BytePrefix(s, n).value + r.value == s
    ensures r.Some? ==> ByteLen(r.value) + n == ByteLen(s)
  {
    match BytePrefix(s, n)
    case None => None
    case Some(p) =>
      assert s == p + s[|p|..];
      EncodeAppend(p, s[|p|..]);
      Some(s[|p|..])
  }

  /** On ASCII text, bytes are characters and no slice falls inside one. */
  lemma {:induction false} AsciiBytePrefix(s: string, n: nat)
    requires forall i :: 0 <= i < |s| ==> s[i] as int < 0x80
    requires n <= |s|
    ensures BytePrefix(s, n) == Some(s[..n])
    decreases |s|
  {
    if n > 0 {
      AsciiBytePrefix(s[1..], n - 1);
      assert s[..n] == [s[0]] + s[1..][..n - 1];
    }
  }

  /** A cut at a byte offset strictly inside the encoding of `c` has no
      prefix to return: Rust panics there. */
  lemma {:induction false} BytePrefixInsideChar(a: string, c: char, b: string, n: nat)
    requires ByteLen(a) < n < ByteLen(a) + |EncodeChar(c)|
    ensures BytePrefix(a + [c] + b, n).None?
  {
    var s := a + [c] + b;
    forall k | 0 <= k <= |s| ensures ByteLen(s[..k]) != n {
      if k <= |a| {
        assert a == s[..k] + a[k..];
        EncodeAppend(s[..k], a[k..]);
      } else {
        assert s[..k] == a + ([c] + s[|a| + 1..k]);
        EncodeAppend(a, [c] + s[|a| + 1..k]);
        ByteLenCons(c, s[|a| + 1..k]);
      }
    }
  }

  /** `&s[..s.len().min(n)]`: the whole text when it has at most `n`
      bytes, otherwise its first `n` bytes; `None` where that cut falls
      inside a character and Rust panics. */
  function CapBytes(s: string, n: nat): (r: Option<string>)
    ensures ByteLen(s) <= n ==> r == Some(s)
    ensures r.Some? ==> |r.value| <= |s| && r.value == s[..|r.value|]
    ensures r.Some? ==> ByteLen(r.value) == if ByteLen(s) <= n then ByteLen(s) else n
  {
    if ByteLen(s) <= n then Some(s) else BytePrefix(s, n)
  }

  /** On ASCII text the capped cut never panics and keeps the first
      min(|s|, n) characters. */
  lemma {:induction false} AsciiCapBytes(s: string, n: nat)
    requires forall i :: 0 <= i < |s| ==> s[i] as int < 0x80
    ensures CapBytes(s, n) == Some(s[..if |s| <= n then |s| else n])
  {
    EncodeAscii(s);
    if |s| > n {
      AsciiBytePrefix(s, n);
    } else {
      assert s[..|s|] == s;
    }
  }

  /** A cap strictly inside the encoding of `c` panics. */
  lemma {:induction false} CapBytesInsideChar(a: string, c: char, b: string, n: nat)
    requires ByteLen(a) < n < ByteLen(a) + |EncodeChar(c)|
    ensures CapBytes(a + [c] + b, n).None?
  {
    EncodeAppend(a, [c] + b);
    assert a + [c] + b == a + ([c] + b);
    ByteLenCons(c, b);
    BytePrefixInsideChar(a, c, b, n);
  }
}
