/**
 * UTF-8 <-> UTF-32 conversion of one code point (unicode.h), locale
 * independent, with its departures from section 3 of RFC 3629 stated as lemmas.
 *
 * C's bit operations are written as arithmetic on the byte values:
 * `(b & 0xE0) == 0xC0` is `0xC0 <= b < 0xE0`, `x & 0x3F` is `x % 0x40`,
 * `x << 6` is `x * 0x40`, `x >> 6` is `x / 0x40`, and an `|` of operands
 * whose bits do not overlap is `+`.
 */
module Unicode {
  import opened Base

  const MAX_CODE_POINT: nat := 0x10_FFFF

  predicate IsSurrogate(c: int) {
    0xD800 <= c <= 0xDFFF
  }

  /** A code point RFC 3629 allows to be encoded. */
  predicate IsScalarValue(c: int) {
    0 <= c <= MAX_CODE_POINT && !IsSurrogate(c)
  }

  /** unicode_is_start_of_code_point: false exactly for continuation bytes 10xxxxxx. */
  predicate IsStartOfCodePoint(b: uint8): (start: bool)
    ensures start <==> b < 0x80 || 0xC0 <= b
  {
    (b / 0x40) * 0x40 != 0x80  // (b & 0xC0) != 0x80
  }

  /** The length of the form a lead byte announces; 0 for a byte that cannot lead one. */
  function LeadLength(b: uint8): nat {
    if b < 0x80 then 1
    else if 0xC0 <= b < 0xE0 then 2  // (b & 0xE0) == 0xC0
    else if 0xE0 <= b < 0xF0 then 3  // (b & 0xF0) == 0xE0
    else if 0xF0 <= b < 0xF8 then 4  // (b & 0xF8) == 0xF0
    else 0
  }

  /**
   * The value an n-byte form carries as unicode.h assembles it: the low 7 - n
   * bits of the lead byte, then six bits from each following byte, whose top
   * two bits are never looked at.
   */
  function Assemble(s: seq<uint8>, n: nat): (v: nat)
    requires 2 <= n <= 4 && n <= |s|
    ensures n == 2 ==> v <= 0x7FF
    ensures n == 3 ==> v <= 0xFFFF
    ensures n == 4 ==> v <= 0x1F_FFFF
  {
    var b0, b1: int := s[0], s[1];
    if n == 2 then
      (b0 % 0x20) * 0x40 + b1 % 0x40
    else if n == 3 then
      (b0 % 0x10) * 0x1000 + (b1 % 0x40) * 0x40 + s[2] as int % 0x40
    else
      (b0 % 0x08) * 0x4_0000 + (b1 % 0x40) * 0x1000 + (s[2] as int % 0x40) * 0x40 + s[3] as int % 0x40
  }

  /**
   * The four outcomes of unicode_utf8_to_utf32: 0 (a NUL, or nothing to read),
   * (size_t)-1 (invalid), (size_t)-2 (incomplete), or the number of bytes read.
   */
  datatype Status = Nul | Invalid | Incomplete | Read(count: nat)

  /** What unicode_utf8_to_utf32 returns, with the value it stores through `c`. */
  datatype Decoded = Decoded(status: Status, c: uint32)

  /**
   * unicode_utf8_to_utf32 given the `bytes` bytes it may read: decodes the
   * code point at the start of `s`.
   */
  function Utf8ToUtf32(s: seq<uint8>): (r: Decoded)
    ensures r.status == Nul <==> |s| == 0 || s[0] == 0
    ensures r.status == Incomplete <==> |s| > 0 && LeadLength(s[0]) > |s|
    ensures r.status == Invalid <==>
      |s| > 0 &&
      (|| LeadLength(s[0]) == 0
       || (LeadLength(s[0]) == 3 <= |s| && IsSurrogate(Assemble(s, 3)))
       || (LeadLength(s[0]) == 4 <= |s| && Assemble(s, 4) > MAX_CODE_POINT))
    ensures r.status.Read? ==>
      |s| > 0 && r.status.count == LeadLength(s[0]) && 1 <= r.status.count <= |s|
      && r.c <= MAX_CODE_POINT
    ensures !r.status.Read? ==> r.c == 0
    ensures |s| > 0 && 0 < s[0] < 0x80 ==> r == Decoded(Read(1), s[0])
    ensures r.status == Read(2) ==> r.c <= 0x7FF
    ensures r.status == Read(3) ==> r.c <= 0xFFFF && !IsSurrogate(r.c)
    ensures r.status.Read? && r.status.count >= 2 ==> r.c == Assemble(s, r.status.count)
  {
    if |s| == 0 then Decoded(Nul, 0)
    else
      var first := s[0];
      if first >= 0x80 then  // first & 0x80
        if 0xC0 <= first < 0xE0 then
          if |s| >= 2 then Decoded(Read(2), Assemble(s, 2)) else Decoded(Incomplete, 0)
        else if 0xE0 <= first < 0xF0 then
          if |s| >= 3 then
            var value := Assemble(s, 3);
            if value < 0xD800 || value > 0xDFFF then Decoded(Read(3), value) else Decoded(Invalid, 0)
          else Decoded(Incomplete, 0)
        else if 0xF0 <= first < 0xF8 then
          if |s| >= 4 then
            var value := Assemble(s, 4);
            if value <= MAX_CODE_POINT then Decoded(Read(4), value) else Decoded(Invalid, 0)
          else Decoded(Incomplete, 0)
        else Decoded(Invalid, 0)
      else if first == 0 then Decoded(Nul, 0)
      else Decoded(Read(1), first)
  }

  /**
   * What a UTF-32 to UTF-8 conversion returns: the count it reports (None for
   * (size_t)-1) and the bytes it stores (a single 0 on error).
   */
  datatype Encoded = Encoded(count: Option<nat>, bytes: seq<uint8>)

  /** What the conversion stores on error: a single zero byte. */
  const ERROR_BYTES: seq<uint8> := [0]

  /**
   * unicode_utf32_to_utf8 as written. Its middle threshold is 0x7FFF, so the
   * surrogate test inside that branch can never fail, and every code point
   * from 0x8000 to 0xFFFF, surrogates included, gets a four-byte form.
   */
  function Utf32ToUtf8(c: uint32): (r: Encoded)
    ensures 1 <= |r.bytes| <= 4
    ensures r.count.None? <==> c > MAX_CODE_POINT
    ensures r.count.None? ==> r.bytes == [0]
    ensures r.count.Some? ==> r.count.value == |r.bytes|
    ensures r.count == Some(1) <==> c <= 0x7F
    ensures r.count == Some(2) <==> 0x80 <= c <= 0x7FF
    ensures r.count == Some(3) <==> 0x800 <= c <= 0x7FFF
    ensures r.count == Some(4) <==> 0x8000 <= c <= MAX_CODE_POINT
  {
    if c <= 0x7F then
      Encoded(Some(1), [c])
    else if c <= 0x7FF then
      Encoded(Some(2), [0xC0 + c / 0x40, 0x80 + c % 0x40])
    else if c <= 0x7FFF then
      if c < 0xD800 || c > 0xDFFF then
        Encoded(Some(3), [0xE0 + c / 0x1000, 0x80 + (c / 0x40) % 0x40, 0x80 + c % 0x40])
      else
        Encoded(None, ERROR_BYTES)
    else if c <= MAX_CODE_POINT then
      Encoded(Some(4), [0xF0 + c / 0x4_0000, 0x80 + (c / 0x1000) % 0x40,
                        0x80 + (c / 0x40) % 0x40, 0x80 + c % 0x40])
    else
      Encoded(None, ERROR_BYTES)
  }

  /**
   * The conversion with the threshold RFC 3629 sets, 0xFFFF: three-byte forms
   * cover U+0800..U+FFFF and surrogates are refused.
   */
  function Utf32ToUtf8Rfc(c: uint32): (r: Encoded)
    ensures 1 <= |r.bytes| <= 4
    ensures r.count.None? <==> !IsScalarValue(c)
    ensures r.count.None? ==> r.bytes == [0]
    ensures r.count.Some? ==> r.count.value == |r.bytes|
    ensures r.count == Some(1) <==> c <= 0x7F
    ensures r.count == Some(2) <==> 0x80 <= c <= 0x7FF
    ensures r.count == Some(3) <==> 0x800 <= c <= 0xFFFF && !IsSurrogate(c)
    ensures r.count == Some(4) <==> 0x1_0000 <= c <= MAX_CODE_POINT
  {
    if c <= 0x7F then
      Encoded(Some(1), [c])
    else if c <= 0x7FF then
      Encoded(Some(2), [0xC0 + c / 0x40, 0x80 + c % 0x40])
    else if c <= 0xFFFF then
      if c < 0xD800 || c > 0xDFFF then
        Encoded(Some(3), [0xE0 + c / 0x1000, 0x80 + (c / 0x40) % 0x40, 0x80 + c % 0x40])
      else
        Encoded(None, ERROR_BYTES)
    else if c <= MAX_CODE_POINT then
      Encoded(Some(4), [0xF0 + c / 0x4_0000, 0x80 + (c / 0x1000) % 0x40,
                        0x80 + (c / 0x40) % 0x40, 0x80 + c % 0x40])
    else
      Encoded(None, ERROR_BYTES)
  }

  /** The six-bit groups of a code point, most significant first, put back together. */
  lemma SixBitGroups(c: nat)
    ensures c == (c / 0x40) * 0x40 + c % 0x40
    ensures c / 0x40 == (c / 0x1000) * 0x40 + (c / 0x40) % 0x40
    ensures c / 0x1000 == (c / 0x4_0000) * 0x40 + (c / 0x1000) % 0x40
  {
  }

  /**
   * Round trip: decoding, with `bytes` equal to their number, the bytes
   * unicode_utf32_to_utf8 writes for any code point from 1 to 0x10FFFF gives
   * that number and the code point back; for 0 the decoder reports a NUL.
   */
  lemma RoundTrip(c: uint32)
    requires c <= MAX_CODE_POINT
    ensures var e := Utf32ToUtf8(c);
      Utf8ToUtf32(e.bytes) == if c == 0 then Decoded(Nul, 0) else Decoded(Read(|e.bytes|), c)
  {
    if 0x80 <= c <= 0x7FF {
      DecodeTwoByteForm(c);
    } else if 0x800 <= c <= 0x7FFF {
      DecodeThreeByteForm(c);
    } else if 0x8000 <= c {
      DecodeFourByteForm(c);
    }
  }

  /**
   * Every value up to 0x7FF written as a two-byte form decodes to itself,
   * the overlong forms of 0..0x7F included.
   */
  lemma DecodeTwoByteForm(c: uint32)
    requires c <= 0x7FF
    ensures Utf8ToUtf32([0xC0 + c / 0x40, 0x80 + c % 0x40]) == Decoded(Read(2), c)
  {
    var q, r := c / 0x40, c % 0x40;
    assert (0xC0 + q) % 0x20 == q;
    assert (0x80 + r) % 0x40 == r;
    assert Assemble([0xC0 + q, 0x80 + r], 2) == c;
  }

  /**
   * Every non-surrogate value up to 0xFFFF written as a three-byte form
   * decodes to itself, the overlong forms of 0..0x7FF included.
   */
  lemma DecodeThreeByteForm(c: uint32)
    requires c <= 0xFFFF && !IsSurrogate(c)
    ensures Utf8ToUtf32([0xE0 + c / 0x1000, 0x80 + (c / 0x40) % 0x40, 0x80 + c % 0x40])
         == Decoded(Read(3), c)
  {
    SixBitGroups(c);
    var a, b, d := c / 0x1000, (c / 0x40) % 0x40, c % 0x40;
    assert (0xE0 + a) % 0x10 == a;
    assert (0x80 + b) % 0x40 == b;
    assert (0x80 + d) % 0x40 == d;
    assert Assemble([0xE0 + a, 0x80 + b, 0x80 + d], 3) == c;
  }

  /**
   * Every value up to 0x10FFFF written as a four-byte form decodes to itself,
   * the overlong forms of 0..0xFFFF (surrogates too) included.
   */
  lemma DecodeFourByteForm(c: uint32)
    requires c <= MAX_CODE_POINT
    ensures Utf8ToUtf32([0xF0 + c / 0x4_0000, 0x80 + (c / 0x1000) % 0x40,
                         0x80 + (c / 0x40) % 0x40, 0x80 + c % 0x40])
         == Decoded(Read(4), c)
  {
    SixBitGroups(c);
    var a, b, d, e := c / 0x4_0000, (c / 0x1000) % 0x40, (c / 0x40) % 0x40, c % 0x40;
    assert (0xF0 + a) % 0x08 == a;
    assert (0x80 + b) % 0x40 == b;
    assert (0x80 + d) % 0x40 == d;
    assert (0x80 + e) % 0x40 == e;
    assert Assemble([0xF0 + a, 0x80 + b, 0x80 + d, 0x80 + e], 4) == c;
  }

  /**
   * Every well-formed UTF-8 sequence of RFC 3629, followed by anything, is
   * decoded to its code point and length.
   */
  lemma RfcRoundTrip(c: uint32, rest: seq<uint8>)
    requires IsScalarValue(c) && c != 0
    ensures var e := Utf32ToUtf8Rfc(c);
      Utf8ToUtf32(e.bytes + rest) == Decoded(Read(|e.bytes|), c)
  {
    var e := Utf32ToUtf8Rfc(c);
    if c <= 0x7F {
    } else if c <= 0x7FF {
      DecodeTwoByteForm(c);
    } else if c <= 0xFFFF {
      DecodeThreeByteForm(c);
    } else {
      DecodeFourByteForm(c);
    }
    assert (e.bytes + rest)[..|e.bytes|] == e.bytes;
    DecodeReadsOnlyAnnounced(e.bytes + rest, |e.bytes|);
  }

  /**
   * The encoder departs from RFC 3629 exactly on U+8000..U+FFFF: there it
   * writes four bytes where RFC 3629 writes three, and it encodes surrogates,
   * which RFC 3629 forbids. Everywhere else the two agree.
   */
  lemma EncoderDepartsFromRfc3629(c: uint32)
    ensures 0x8000 <= c <= 0xFFFF ==>
      && Utf32ToUtf8(c).count == Some(4)
      && Utf32ToUtf8Rfc(c).count == (if IsSurrogate(c) then None else Some(3))
    ensures !(0x8000 <= c <= 0xFFFF) ==> Utf32ToUtf8(c) == Utf32ToUtf8Rfc(c)
  {
  }

  /**
   * The first byte an encoding writes starts a code point and announces the
   * encoding's length; every later byte is a continuation byte.
   */
  lemma EncodingBytesClassified(c: uint32)
    requires c <= MAX_CODE_POINT
    ensures var e := Utf32ToUtf8(c);
      && IsStartOfCodePoint(e.bytes[0])
      && LeadLength(e.bytes[0]) == |e.bytes|
      && forall i | 1 <= i < |e.bytes| :: !IsStartOfCodePoint(e.bytes[i])
  {
  }

  /**
   * The decoder reads no more than the form its lead byte announces: bytes
   * after it do not change the outcome.
   */
  lemma DecodeReadsOnlyAnnounced(s: seq<uint8>, k: nat)
    requires 1 <= k <= |s| && LeadLength(s[0]) <= k
    ensures Utf8ToUtf32(s[..k]) == Utf8ToUtf32(s)
  {
  }

  /**
   * Continuation bytes are never checked: only their low six bits matter, so
   * bytes that are not of the form 10xxxxxx are accepted in their place.
   */
  lemma DecodeIgnoresContinuationTags(s: seq<uint8>, t: seq<uint8>)
    requires |s| == |t| && |s| > 0 && s[0] == t[0]
    requires forall i | 1 <= i < |s| && i < 4 :: s[i] % 0x40 == t[i] % 0x40
    ensures Utf8ToUtf32(s) == Utf8ToUtf32(t)
  {
  }

  /**
   * Overlong forms, which RFC 3629 forbids, are accepted: C0 80 decodes to a
   * NUL code point read from two bytes, and C3 41 (a non-continuation second
   * byte) to U+00C1.
   */
  lemma DecodeAcceptsOverlongAndBadContinuation()
    ensures Utf8ToUtf32([0xC0, 0x80]) == Decoded(Read(2), 0)
    ensures Utf8ToUtf32([0xE0, 0x81, 0x81]) == Decoded(Read(3), 0x41)
    ensures Utf8ToUtf32([0xC3, 0x41]) == Decoded(Read(2), 0xC1)
  {
  }
}
