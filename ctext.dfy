/**
 * The pieces of the C library that the program's text handling relies on:
 * reading a C string, the digit strings printed by `%u`/`%x`, the whole-string
 * integer scan that `sscanf(s, "%d%n")` followed by `w == strlen(s)` performs,
 * the value rules of `strtoul`/`strtol` (C11 7.22.1.4), and `atoi`.
 *
 * A C string is modelled by the bytes before its terminator.
 */
module CText {
  import opened Base

  const NUL: uint8 := 0
  const PLUS: uint8 := 0x2B   // '+'
  const MINUS: uint8 := 0x2D  // '-'

  /** `s[i]` on a C string: past the last byte it reads the terminator. */
  function At(s: seq<uint8>, i: nat): (b: uint8)
    ensures i < |s| ==> b == s[i]
    ensures i >= |s| ==> b == NUL
  {
    if i < |s| then s[i] else NUL
  }

  /** `isspace` in the C locale. */
  predicate IsSpace(b: uint8) {
    b == 0x20 || 0x09 <= b <= 0x0D
  }

  predicate IsHexDigit(b: uint8) {
    0x30 <= b <= 0x39 || 0x41 <= b <= 0x46 || 0x61 <= b <= 0x66
  }

  /** The value of a hexadecimal digit of either case. */
  function DigitValue(b: uint8): (v: nat)
    requires IsHexDigit(b)
    ensures v < 16
  {
    if b <= 0x39 then b - 0x30 else if b <= 0x46 then b - 0x41 + 10 else b - 0x61 + 10
  }

  /** A digit of the given base: '0'..'9' for base 10, also 'a'..'f' and 'A'..'F' for base 16. */
  predicate IsDigitIn(b: uint8, base: nat) {
    IsHexDigit(b) && DigitValue(b) < base
  }

  predicate AllDigits(ds: seq<uint8>, base: nat) {
    forall i | 0 <= i < |ds| :: IsDigitIn(ds[i], base)
  }

  /** The number a digit string denotes, most significant digit first. */
  function Value(ds: seq<uint8>, base: nat): nat
    requires AllDigits(ds, base)
  {
    if ds == [] then 0 else Value(ds[..|ds| - 1], base) * base + DigitValue(ds[|ds| - 1])
  }

  /** The digit printf writes for `d` (lower-case letters, as `%x` does). */
  function DigitChar(d: nat): (b: uint8)
    requires d < 16
    ensures IsHexDigit(b) && DigitValue(b) == d
  {
    if d < 10 then 0x30 + d else 0x61 + (d - 10)
  }

  /**
   * The digits printf writes for `n` in `base`, zero-padded to at least
   * `width` digits (`%u` is width 1, `%02x` width 2, `%05lx` width 5).
   */
  function Digits(n: nat, base: nat, width: nat): (ds: seq<uint8>)
    requires base == 10 || base == 16
    ensures AllDigits(ds, base) && Value(ds, base) == n
    ensures |ds| >= 1 && |ds| >= width
    decreases n, width
  {
    if n < base && width <= 1 then [DigitChar(n)]
    else
      var q, d := n / base, n % base;
      assert n == q * base + d && d < base;
      assert q < n || (q == 0 && n == 0);
      var prefix := Digits(q, base, if width == 0 then 0 else width - 1);
      var ds := prefix + [DigitChar(d)];
      assert ds[..|ds| - 1] == prefix;
      assert AllDigits(ds, base);
      assert Value(ds, base) == Value(prefix, base) * base + d;
      ds
  }

  function Power(b: nat, k: nat): nat {
    if k == 0 then 1 else b * Power(b, k - 1)
  }

  /** A number below base^k takes at most k digits, when padded to at most k. */
  lemma {:induction false} DigitsFit(n: nat, base: nat, width: nat, k: nat)
    requires base == 10 || base == 16
    requires 1 <= k && width <= k && n < Power(base, k)
    ensures |Digits(n, base, width)| <= k
    decreases k
  {
    if !(n < base && width <= 1) {
      assert k >= 2;
      var p := Power(base, k - 1);
      assert n < base * p;
      assert n / base < p by {
        if base == 10 { assert n / 10 < p; } else { assert n / 16 < p; }
      }
      DigitsFit(n / base, base, if width == 0 then 0 else width - 1, k - 1);
    }
  }

  /** What an integer conversion of sscanf reads: a sign and the magnitude of the digits. */
  datatype Numeral = Numeral(negative: bool, magnitude: nat)

  /**
   * `sscanf(s, "%<int>%n", &v, &w) == 1 && w == strlen(s)`: the whole string is
   * an optional sign followed by at least one digit of the base.
   */
  function ScanNumeral(s: seq<uint8>, base: nat): (r: Option<Numeral>)
    ensures r.Some? ==> (|s| > 0 &&
      var start := if s[0] == PLUS || s[0] == MINUS then 1 else 0;
      && start < |s|
      && AllDigits(s[start..], base)
      && r.value == Numeral(s[0] == MINUS, Value(s[start..], base)))
    ensures (|s| > 0 && AllDigits(s, base)) ==> r == Some(Numeral(false, Value(s, base)))
    ensures (|s| > 0 &&
             var start := if s[0] == PLUS || s[0] == MINUS then 1 else 0;
             start < |s| && AllDigits(s[start..], base))
            ==> r.Some?
  {
    if |s| == 0 then None
    else
      var start := if s[0] == PLUS || s[0] == MINUS then 1 else 0;
      var ds := s[start..];
      if |ds| > 0 && AllDigits(ds, base) then Some(Numeral(s[0] == MINUS, Value(ds, base)))
      else None
  }

  /**
   * The value `strtoul` (and so `%lx`, `%u`) gives a numeral: a magnitude above
   * ULONG_MAX gives ULONG_MAX, and a minus sign negates in unsigned arithmetic.
   */
  function StrToUnsigned(n: Numeral): (v: uint64)
    ensures n.magnitude > UINT64_MAX ==> v == UINT64_MAX
    ensures n.magnitude <= UINT64_MAX ==>
      (if n.negative then v + n.magnitude else v - n.magnitude) % TWO_64 == 0
  {
    if n.magnitude > UINT64_MAX then UINT64_MAX
    else if n.negative then (TWO_64 - n.magnitude) % TWO_64
    else n.magnitude
  }

  /** The value `strtol` (and so `%d`) gives a numeral: clamped to the range of a 64-bit long. */
  function StrToSigned(n: Numeral): (v: int)
    ensures -0x8000_0000_0000_0000 <= v <= 0x7FFF_FFFF_FFFF_FFFF
    ensures (if n.negative then -(n.magnitude as int) else n.magnitude) == v
            || (n.magnitude > 0x7FFF_FFFF_FFFF_FFFF && (v == -0x8000_0000_0000_0000 || v == 0x7FFF_FFFF_FFFF_FFFF))
    ensures !n.negative && n.magnitude > 0x7FFF_FFFF_FFFF_FFFF ==> v == 0x7FFF_FFFF_FFFF_FFFF
    ensures n.negative && n.magnitude > 0x8000_0000_0000_0000 ==> v == -0x8000_0000_0000_0000
  {
    if n.negative then
      if n.magnitude > 0x8000_0000_0000_0000 then -0x8000_0000_0000_0000 else -(n.magnitude as int)
    else
      if n.magnitude > 0x7FFF_FFFF_FFFF_FFFF then 0x7FFF_FFFF_FFFF_FFFF else n.magnitude
  }

  /** The string left after `atoi` skips leading white space. */
  function SkipSpaces(s: seq<uint8>): (t: seq<uint8>)
    ensures |t| <= |s| && t == s[|s| - |t|..]
    ensures |t| > 0 ==> !IsSpace(t[0])
  {
    if |s| > 0 && IsSpace(s[0]) then SkipSpaces(s[1..]) else s
  }

  /** The length of the longest prefix of `s` made of digits of `base`. */
  function DigitRun(s: seq<uint8>, base: nat): (k: nat)
    ensures k <= |s| && AllDigits(s[..k], base)
    ensures k < |s| ==> !IsDigitIn(s[k], base)
  {
    if |s| > 0 && IsDigitIn(s[0], base) then
      var k := 1 + DigitRun(s[1..], base);
      assert forall i | 1 <= i < k :: s[..k][i] == s[1..][..k - 1][i - 1];
      k
    else 0
  }

  /**
   * `atoi`: white space, an optional sign, then as many decimal digits as there
   * are; the rest is ignored and no digits give 0. (Overflow, undefined in C,
   * is not modelled: the model's integers are unbounded.)
   */
  function Atoi(s: seq<uint8>): int {
    var t := SkipSpaces(s);
    var negative := |t| > 0 && t[0] == MINUS;
    var u := if |t| > 0 && (t[0] == PLUS || t[0] == MINUS) then t[1..] else t;
    var k := DigitRun(u, 10);
    if negative then -(Value(u[..k], 10) as int) else Value(u[..k], 10)
  }

  /** `atoi` of a string that starts with digits gives the value of those digits. */
  lemma AtoiOfDigits(ds: seq<uint8>, rest: seq<uint8>)
    requires |ds| > 0 && AllDigits(ds, 10)
    requires rest == [] || !IsDigitIn(rest[0], 10)
    ensures Atoi(ds + rest) == Value(ds, 10)
  {
    var s := ds + rest;
    assert !IsSpace(s[0]) && s[0] != PLUS && s[0] != MINUS;
    assert SkipSpaces(s) == s;
    DigitRunOfDigits(ds, rest);
    assert s[..|ds|] == ds;
  }

  lemma {:induction false} DigitRunOfDigits(ds: seq<uint8>, rest: seq<uint8>)
    requires AllDigits(ds, 10)
    requires rest == [] || !IsDigitIn(rest[0], 10)
    ensures DigitRun(ds + rest, 10) == |ds|
  {
    if ds != [] {
      assert (ds + rest)[1..] == ds[1..] + rest;
      DigitRunOfDigits(ds[1..], rest);
    } else {
      assert ds + rest == rest;
    }
  }

  /** What `%u`/`%x` print, read back by the whole-string scan, gives the number back. */
  lemma ScanDigits(n: nat, base: nat, width: nat, negative: bool)
    requires base == 10 || base == 16
    ensures ScanNumeral(Digits(n, base, width), base) == Some(Numeral(false, n))
    ensures ScanNumeral([MINUS] + Digits(n, base, width), base) == Some(Numeral(true, n))
  {
    var ds := Digits(n, base, width);
    assert ([MINUS] + ds)[1..] == ds;
    assert !IsDigitIn(MINUS, base);
    assert !IsDigitIn(PLUS, base);
  }
}
