/**
 * Wide strings for the Win32 API (src/windows/mod.rs): `widen` encodes a Rust
 * string as UTF-16 (section 2.1 of RFC 2781) and appends one NUL unit; the
 * reverse direction reads a buffer up to its first NUL unit and decodes it the
 * way `String::from_utf16_lossy` does.
 */
module WinWide {

  /** A UTF-16 code unit (`u16`). */
  newtype u16 = x: int | 0 <= x < 0x1_0000

  predicate IsSurrogate(u: u16) { 0xD800 <= u <= 0xDFFF }
  predicate IsHighSurrogate(u: u16) { 0xD800 <= u <= 0xDBFF }
  predicate IsLowSurrogate(u: u16) { 0xDC00 <= u <= 0xDFFF }

  /** A code point outside the Basic Multilingual Plane needs a surrogate pair. */
  predicate IsSupplementary(c: char) { c as int >= 0x1_0000 }

  /** The UTF-16 encoding of one Unicode scalar value. */
  function EncodeChar(c: char): (w: seq<u16>)
    ensures |w| == if IsSupplementary(c) then 2 else 1
    ensures 0 in w <==> c == '\0'
  {
    var v := c as int;
    if v < 0x1_0000 then [v as u16]
    else [(0xD800 + (v - 0x1_0000) / 0x400) as u16, (0xDC00 + (v - 0x1_0000) % 0x400) as u16]
  }

  /** `str::encode_utf16`, collected. */
  function Encode(s: string): (e: seq<u16>)
    ensures e == [] <==> s == ""
  {
    if s == "" then [] else EncodeChar(s[0]) + Encode(s[1..])
  }

  /** Number of characters of `s` that need a surrogate pair. */
  function SupplementaryCount(s: string): nat
  {
    if s == "" then 0 else (if IsSupplementary(s[0]) then 1 else 0) + SupplementaryCount(s[1..])
  }

  /** `widen`: the UTF-16 encoding followed by one NUL terminator. */
  function Widen(s: string): (w: seq<u16>)
    ensures |w| == |s| + SupplementaryCount(s) + 1
    ensures w[|w| - 1] == 0
    ensures UntilNul(w) == Encode(s) <==> '\0' !in s
  {
    EncodeLength(s);
    WidenScan(s);
    Encode(s) + [0]
  }

  /** The units before the first NUL, or all of them when there is none. */
  function UntilNul(u: seq<u16>): (r: seq<u16>)
    ensures |r| <= |u| && r == u[..|r|]
    ensures 0 !in r
    ensures |r| < |u| ==> u[|r|] == 0
  {
    if u == [] || u[0] == 0 then [] else [u[0]] + UntilNul(u[1..])
  }

  /** The scalar value a surrogate pair stands for. */
  function Combine(hi: u16, lo: u16): (c: char)
    requires IsHighSurrogate(hi) && IsLowSurrogate(lo)
    ensures IsSupplementary(c)
  {
    (0x1_0000 + (hi as int - 0xD800) * 0x400 + (lo as int - 0xDC00)) as char
  }

  /**
   * `String::from_utf16_lossy`: a valid surrogate pair decodes to one
   * character, any other surrogate to U+FFFD (the unit after an unpaired high
   * surrogate is decoded on its own).
   */
  function DecodeLossy(u: seq<u16>): (s: string)
    ensures |s| <= |u|
  {
    if u == [] then ""
    else if !IsSurrogate(u[0]) then [(u[0] as int) as char] + DecodeLossy(u[1..])
    else if IsHighSurrogate(u[0]) && |u| >= 2 && IsLowSurrogate(u[1]) then [Combine(u[0], u[1])] + DecodeLossy(u[2..])
    else ['�'] + DecodeLossy(u[1..])
  }

  /** `unwiden`: the text before the first NUL unit of a wide buffer. */
  function Unwiden(buffer: seq<u16>): (s: string)
    ensures |s| <= |buffer|
    ensures buffer != [] && buffer[0] == 0 ==> s == ""
  {
    DecodeLossy(UntilNul(buffer))
  }

  /** Encoding distributes over concatenation, so order is preserved. */
  lemma {:induction false} EncodeAppend(a: string, b: string)
    ensures Encode(a + b) == Encode(a) + Encode(b)
  {
    if a == "" {
      assert a + b == b;
    } else {
      assert (a + b)[1..] == a[1..] + b;
      EncodeAppend(a[1..], b);
    }
  }

  /** The encoded length is one unit per character plus one per surrogate pair. */
  lemma {:induction false} EncodeLength(s: string)
    ensures |Encode(s)| == |s| + SupplementaryCount(s)
  {
    if s != "" {
      EncodeLength(s[1..]);
    }
  }

  /** A NUL unit appears in the encoding exactly when U+0000 appears in the text. */
  lemma {:induction false} EncodeHasZero(s: string)
    ensures 0 in Encode(s) <==> '\0' in s
  {
    if s != "" {
      EncodeHasZero(s[1..]);
      assert Encode(s) == EncodeChar(s[0]) + Encode(s[1..]);
      assert s == [s[0]] + s[1..];
    }
  }

  /** Scanning a NUL-free run followed by a NUL stops exactly at that NUL. */
  lemma {:induction false} UntilNulOfZeroFree(w: seq<u16>, rest: seq<u16>)
    requires 0 !in w
    ensures UntilNul(w + rest) == w + UntilNul(rest)
  {
    if w != [] {
      assert (w + rest)[1..] == w[1..] + rest;
      UntilNulOfZeroFree(w[1..], rest);
    } else {
      assert w + rest == rest;
    }
  }

  /** The terminator is the first NUL of `widen`'s output exactly when the text has none. */
  lemma WidenScan(s: string)
    ensures UntilNul(Encode(s) + [0]) == Encode(s) <==> '\0' !in s
  {
    EncodeHasZero(s);
    if '\0' !in s {
      UntilNulOfZeroFree(Encode(s), [0]);
    }
  }

  /** Decoding the encoding of one character gives it back and leaves the rest alone. */
  lemma DecodeEncodeChar(c: char, rest: seq<u16>)
    ensures DecodeLossy(EncodeChar(c) + rest) == [c] + DecodeLossy(rest)
  {
    var u := EncodeChar(c) + rest;
    var v := c as int;
    if v < 0x1_0000 {
      assert u[1..] == rest;
    } else {
      var q, r := (v - 0x1_0000) / 0x400, (v - 0x1_0000) % 0x400;
      assert q * 0x400 + r == v - 0x1_0000;
      assert u[0] as int == 0xD800 + q && u[1] as int == 0xDC00 + r;
      assert Combine(u[0], u[1]) as int == v;
      assert u[2..] == rest;
    }
  }

  /** `from_utf16_lossy` inverts `encode_utf16`: nothing is lost for valid text. */
  lemma {:induction false} DecodeEncode(s: string)
    ensures DecodeLossy(Encode(s)) == s
  {
    if s != "" {
      DecodeEncodeChar(s[0], Encode(s[1..]));
      DecodeEncode(s[1..]);
    }
  }

  /**
   * For text without U+0000, reading `widen`'s output back up to the first
   * NUL returns the text unchanged.
   */
  lemma WidenRoundTrip(s: string)
    requires '\0' !in s
    ensures Unwiden(Widen(s)) == s
  {
    DecodeEncode(s);
  }
}
