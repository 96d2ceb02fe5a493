/**
 * The typed-value codec (data.c): the width of each data type, the type
 * selected by a widget name, the text form of characters and values and the
 * parse back, and byte-wise comparison.
 *
 * A value is the sequence of its bytes in memory, least significant first
 * (the program runs on little-endian x86-64). Floating-point types are not
 * part of this model.
 */
module Data {
  import opened Base
  import opened CText
  import opened Unicode

  // ASCII codes used by the names and escapes below.
  const CH_A: uint8 := 0x61          // 'a'
  const CH_F: uint8 := 0x66          // 'f'
  const CH_S: uint8 := 0x73          // 's'
  const CH_U: uint8 := 0x75          // 'u'
  const CH_N: uint8 := 0x6E          // 'n'
  const CH_T: uint8 := 0x74          // 't'
  const CH_R: uint8 := 0x72          // 'r'
  const CH_V: uint8 := 0x76          // 'v'
  const CH_X: uint8 := 0x78          // 'x'
  const CH_ZERO: uint8 := 0x30       // '0'
  const BACKSLASH: uint8 := 0x5C     // '\\'
  const SPACE: uint8 := 0x20         // ' '
  const NEWLINE: uint8 := 0x0A       // '\n'
  const TAB: uint8 := 0x09           // '\t'
  const CARRIAGE_RETURN: uint8 := 0x0D  // '\r'
  const VERTICAL_TAB: uint8 := 0x0B  // '\v'

  /** The largest `wint_t` (an unsigned 32-bit type on the target). */
  const WINT_MAX: int := 0xFFFF_FFFF

  /** data_type_size: the number of bytes a value of the type occupies. */
  function DataTypeSize(t: DataType): (n: nat)
    ensures n == 1 || n == 2 || n == 4 || n == 8
  {
    match t
    case U8 | S8 | Ascii => 1
    case U16 | S16 | Utf16 => 2
    case U32 | S32 | F32 | Utf32 => 4
    case U64 | S64 | F64 => 8
  }

  /** The letter a type's widget name starts with. */
  function Letter(t: DataType): uint8 {
    if t.IsSigned() then CH_S else if t.IsFloat() then CH_F else if t.Ascii? then CH_A else CH_U
  }

  /**
   * The widget name that selects each type: the letter and the width in
   * bits ("u8", "s64", "f32"),
   * "utf" and the code unit width ("utf16", "utf32"), or "ascii".
   */
  function TypeName(t: DataType): (name: seq<uint8>)
    ensures |name| >= 2 && name[0] == Letter(t)
  {
    if t.Ascii? then ASCII_NAME
    else if t.IsChar() then UTF_PREFIX + Digits(8 * DataTypeSize(t), 10, 1)
    else [Letter(t)] + Digits(8 * DataTypeSize(t), 10, 1)
  }

  const UTF_PREFIX: seq<uint8> := [CH_U, CH_T, CH_F]             // "utf"
  const ASCII_NAME: seq<uint8> := [CH_A, CH_S, 0x63, 0x69, 0x69] // "ascii"

  /**
   * data_type_from_name. The number after the first letter is read by `atoi`,
   * so anything after the digits is ignored ("u8x" selects U8). None stands
   * for the failed assertion the source reaches on any other name.
   */
  function DataTypeFromName(name: seq<uint8>): (r: Option<DataType>)
    ensures r.Some? ==> |name| > 0 && name[0] == TypeName(r.value)[0]
    ensures r.Some? && !r.value.IsChar() ==> 8 * DataTypeSize(r.value) == Atoi(name[1..])
    ensures r.Some? && r.value.Utf16? ==> |name| >= 3 && name[..3] == UTF_PREFIX && Atoi(name[3..]) == 16
    ensures r.Some? && r.value.Utf32? ==> |name| >= 3 && name[..3] == UTF_PREFIX && Atoi(name[3..]) == 32
    ensures r.Some? && r.value.Ascii? ==> name == ASCII_NAME
  {
    var isUtf := |name| >= 3 && name[..3] == UTF_PREFIX;  // strncmp(name, "utf", 3) == 0
    var bits := if |name| > 0 then Atoi(name[1..]) else 0;
    SelectType(At(name, 0), bits, isUtf, if isUtf then Atoi(name[3..]) else 0, name == ASCII_NAME)
  }

  /**
   * The decision data_type_from_name takes once the name is read: its first
   * letter, the number after it, whether it starts with "utf" and the number
   * after that, and whether it is exactly "ascii".
   */
  function SelectType(first: uint8, bits: int, isUtf: bool, unitBits: int, isAscii: bool): (r: Option<DataType>)
    ensures r.Some? ==> first == Letter(r.value)
    ensures r.Some? && !r.value.IsChar() ==> 8 * DataTypeSize(r.value) == bits
    ensures r.Some? && r.value.Utf16? ==> isUtf && unitBits == 16
    ensures r.Some? && r.value.Utf32? ==> isUtf && unitBits == 32
    ensures r.Some? && r.value.Ascii? ==> isAscii
  {
    if first == CH_U then
      if bits == 8 then Some(U8)
      else if bits == 16 then Some(U16)
      else if bits == 32 then Some(U32)
      else if bits == 64 then Some(U64)
      else if isUtf then
        if unitBits == 16 then Some(Utf16)
        else if unitBits == 32 then Some(Utf32)
        else None
      else None
    else if first == CH_S then
      if bits == 8 then Some(S8)
      else if bits == 16 then Some(S16)
      else if bits == 32 then Some(S32)
      else if bits == 64 then Some(S64)
      else None
    else if first == CH_F then
      if bits == 32 then Some(F32)
      else if bits == 64 then Some(F64)
      else None
    else if first == CH_A then
      if isAscii then Some(Ascii) else None
    else None
  }

  /** Every type's own widget name selects it. */
  lemma TypeNameSelectsType(t: DataType)
    ensures DataTypeFromName(TypeName(t)) == Some(t)
  {
    if t.Utf16? || t.Utf32? {
      CharNameSelects(t);
    } else if t.Ascii? {
      AsciiNameSelects();
    } else {
      SizedNameSelects(t);
    }
  }

  lemma AsciiNameSelects()
    ensures DataTypeFromName(ASCII_NAME) == Some(Ascii)
  {
    var bits := Atoi(ASCII_NAME[1..]);
    assert ASCII_NAME[..3] != UTF_PREFIX by {
      assert ASCII_NAME[..3][0] != UTF_PREFIX[0];
    }
    assert DataTypeFromName(ASCII_NAME) == SelectType(CH_A, bits, false, 0, true);
    SelectAscii(bits);
  }

  lemma SelectAscii(bits: int)
    ensures SelectType(CH_A, bits, false, 0, true) == Some(Ascii)
  {
  }

  lemma SelectUtf(t: DataType)
    requires t.Utf16? || t.Utf32?
    ensures SelectType(CH_U, 0, true, 8 * DataTypeSize(t), false) == Some(t)
  {
  }

  lemma SizedNameSelects(t: DataType)
    requires !t.IsChar()
    ensures DataTypeFromName(TypeName(t)) == Some(t)
  {
    var name := TypeName(t);
    SizedNameParts(t);
    assert DataTypeFromName(name) == SelectType(Letter(t), 8 * DataTypeSize(t), false, 0, false);
    SelectSized(t, false, 0, false);
  }

  /** How data_type_from_name reads "uN", "sN" and "fN". */
  lemma SizedNameParts(t: DataType)
    requires !t.IsChar()
    ensures var name := TypeName(t);
      && Atoi(name[1..]) == 8 * DataTypeSize(t)
      && !(|name| >= 3 && name[..3] == UTF_PREFIX)
      && name != ASCII_NAME
  {
    var digits := Digits(8 * DataTypeSize(t), 10, 1);
    assert TypeName(t) == [Letter(t)] + digits;
    SizedNameNumber(Letter(t), digits);
  }

  lemma SizedNameNumber(letter: uint8, digits: seq<uint8>)
    requires |digits| > 0 && AllDigits(digits, 10) && letter != CH_A
    ensures var name := [letter] + digits;
      && Atoi(name[1..]) == Value(digits, 10)
      && !(|name| >= 3 && name[..3] == UTF_PREFIX)
      && name != ASCII_NAME
  {
    var name := [letter] + digits;
    assert name[1..] == digits + [];
    AtoiOfDigits(digits, []);
    assert IsDigitIn(name[1], 10);
    if |name| >= 3 {
      assert name[..3][1] == name[1] != UTF_PREFIX[1];
    }
    assert name[0] != ASCII_NAME[0];
  }

  /** A sized type's letter and bit width select it, whatever the other tests say. */
  lemma SelectSized(t: DataType, isUtf: bool, unitBits: int, isAscii: bool)
    requires !t.IsChar()
    ensures SelectType(Letter(t), 8 * DataTypeSize(t), isUtf, unitBits, isAscii) == Some(t)
  {
  }

  /**
   * The names that select a sized type are exactly those that start with its
   * letter and continue with text `atoi` reads as its bit width.
   */
  lemma SizedNameSelection(name: seq<uint8>, t: DataType)
    requires !t.IsChar()
    ensures DataTypeFromName(name) == Some(t) <==>
      |name| > 0 && name[0] == Letter(t) && Atoi(name[1..]) == 8 * DataTypeSize(t)
  {
    if |name| > 0 && name[0] == Letter(t) && Atoi(name[1..]) == 8 * DataTypeSize(t) {
      var isUtf := |name| >= 3 && name[..3] == UTF_PREFIX;
      var unitBits := if isUtf then Atoi(name[3..]) else 0;
      assert DataTypeFromName(name) == SelectType(Letter(t), 8 * DataTypeSize(t), isUtf, unitBits, name == ASCII_NAME);
      SelectSized(t, isUtf, unitBits, name == ASCII_NAME);
    }
  }

  /** Text after the width is ignored: "u8" followed by anything but a digit ("u8x") selects U8. */
  lemma TrailingTextIgnored(name: seq<uint8>)
    requires |name| >= 2 && name[0] == CH_U && name[1] == 0x38
    requires |name| == 2 || !IsDigitIn(name[2], 10)
    ensures DataTypeFromName(name) == Some(U8)
  {
    var rest := name[2..];
    assert name[1..] == [0x38] + rest;
    AtoiOfDigits([0x38], rest);
    assert Value([0x38], 10) == 8;
    SizedNameSelection(name, U8);
  }

  lemma CharNameSelects(t: DataType)
    requires t.Utf16? || t.Utf32?
    ensures DataTypeFromName(TypeName(t)) == Some(t)
  {
    var name := TypeName(t);
    var digits := Digits(8 * DataTypeSize(t), 10, 1);
    var tail := name[1..];
    assert tail[0] == CH_T;
    assert !IsSpace(tail[0]) && !IsDigitIn(tail[0], 10) && tail[0] != PLUS && tail[0] != MINUS;
    assert DigitRun(tail, 10) == 0;
    assert tail[..0] == [];
    assert Atoi(tail) == 0;
    assert name[..3] == UTF_PREFIX;
    assert name[3..] == digits + [];
    AtoiOfDigits(digits, []);
    assert name != ASCII_NAME;
    assert DataTypeFromName(name) == SelectType(CH_U, 0, true, 8 * DataTypeSize(t), false);
    SelectUtf(t);
  }

  // ---------------------------------------------------------------------
  // Bytes of a value

  function Pow256(k: nat): (p: nat)
    ensures p >= 1
  {
    if k == 0 then 1 else 0x100 * Pow256(k - 1)
  }

  /** The number of distinct values of a type: 2^(8 * width). */
  function Modulus(t: DataType): (m: int)
    ensures m == Pow256(DataTypeSize(t))
  {
    match DataTypeSize(t)
    case 1 => 0x100
    case 2 => 0x1_0000
    case 4 => 0x1_0000_0000
    case 8 => 0x1_0000_0000_0000_0000
  }

  /**
   * The numbers a value of the type can hold: 0 .. 2^(8w) - 1 unsigned,
   * -2^(8w-1) .. 2^(8w-1) - 1 signed (two's complement).
   */
  predicate Holds(t: DataType, x: int) {
    if t.IsSigned() then -(Modulus(t) / 2) <= x < Modulus(t) / 2 else 0 <= x < Modulus(t)
  }

  /** Reduction modulo 2^(8w) of a number within one modulus of the range. */
  lemma ModulusReduces(t: DataType, x: int)
    requires -Modulus(t) <= x < Modulus(t)
    ensures x % Modulus(t) == if x < 0 then x + Modulus(t) else x
  {
    match DataTypeSize(t)
    case 1 =>
    case 2 =>
    case 4 =>
    case 8 =>
  }

  /** The low `w` bytes of `x`, least significant first. */
  function LittleEndian(x: nat, w: nat): (b: seq<uint8>)
    ensures |b| == w
  {
    if w == 0 then [] else [x % 0x100] + LittleEndian(x / 0x100, w - 1)
  }

  /** The number a little-endian byte sequence holds. */
  function FromLittleEndian(b: seq<uint8>): (x: nat)
    ensures x < Pow256(|b|)
  {
    if b == [] then 0 else b[0] + 0x100 * FromLittleEndian(b[1..])
  }

  lemma {:induction false} LittleEndianRoundTrip(b: seq<uint8>)
    ensures LittleEndian(FromLittleEndian(b), |b|) == b
  {
    if b != [] {
      var x := FromLittleEndian(b);
      assert x % 0x100 == b[0] && x / 0x100 == FromLittleEndian(b[1..]);
      LittleEndianRoundTrip(b[1..]);
    }
  }

  lemma {:induction false} FromLittleEndianOf(x: nat, w: nat)
    requires x < Pow256(w)
    ensures FromLittleEndian(LittleEndian(x, w)) == x
  {
    if w > 0 {
      var b := LittleEndian(x, w);
      assert b[1..] == LittleEndian(x / 0x100, w - 1);
      FromLittleEndianOf(x / 0x100, w - 1);
    }
  }

  /**
   * The number a value of an integer or character type holds: unsigned, or
   * two's complement for the signed types.
   */
  function ReadInteger(t: DataType, v: seq<uint8>): (x: int)
    requires |v| == DataTypeSize(t)
    ensures Holds(t, x)
    ensures x % Modulus(t) == FromLittleEndian(v)
  {
    var u := FromLittleEndian(v);
    var x := if t.IsSigned() && u >= Modulus(t) / 2 then u - Modulus(t) else u;
    ModulusReduces(t, x);
    x
  }

  /**
   * What a `*(T *)value = x` store of an integer leaves in memory: the low
   * 8 * width bits of x, in two's complement for a negative x.
   */
  function Store(t: DataType, x: int): (v: seq<uint8>)
    ensures |v| == DataTypeSize(t)
  {
    LittleEndian(x % Modulus(t), DataTypeSize(t))
  }

  /** Storing any number the type holds and reading it back gives that number. */
  lemma StoreThenRead(t: DataType, x: int)
    requires Holds(t, x)
    ensures ReadInteger(t, Store(t, x)) == x
  {
    ModulusReduces(t, x);
    FromLittleEndianOf(x % Modulus(t), DataTypeSize(t));
  }

  /** Reading a value and storing the number gives the same bytes back. */
  lemma ReadThenStore(t: DataType, v: seq<uint8>)
    requires |v| == DataTypeSize(t)
    ensures Store(t, ReadInteger(t, v)) == v
  {
    LittleEndianRoundTrip(v);
  }

  // ---------------------------------------------------------------------
  // Characters

  /**
   * What the C library contributes to char_to_str: which characters are
   * graphic (`iswgraph`) and the bytes `%lc` writes for them; both depend on
   * the locale.
   */
  datatype Locale = Locale(isGraphic: uint32 -> bool, glyph: uint32 -> seq<uint8>)

  /**
   * The locale renders `c` as a UTF-8 locale does: if graphic, `c` is a
   * nonzero Unicode scalar value and `%lc` writes its RFC 3629 encoding.
   */
  predicate RendersAsUtf8(loc: Locale, c: uint32) {
    loc.isGraphic(c) ==> IsScalarValue(c) && c != 0 && loc.glyph(c) == Utf32ToUtf8Rfc(c).bytes
  }

  /** The escape letter after `\` for the five named control characters. */
  function EscapeLetter(c: uint32): Option<uint8> {
    if c == NEWLINE as int then Some(CH_N)
    else if c == TAB as int then Some(CH_T)
    else if c == CARRIAGE_RETURN as int then Some(CH_R)
    else if c == VERTICAL_TAB as int then Some(CH_V)
    else if c == 0 then Some(CH_ZERO)
    else None
  }

  /** The character a named escape letter stands for. */
  function EscapedChar(letter: uint8): Option<uint32> {
    if letter == CH_N then Some(NEWLINE as uint32)
    else if letter == CH_T then Some(TAB as uint32)
    else if letter == CH_R then Some(CARRIAGE_RETURN as uint32)
    else if letter == CH_V then Some(VERTICAL_TAB as uint32)
    else if letter == CH_ZERO then Some(0)
    else None
  }

  const SPACE_TEXT: seq<uint8> := [0x28, 0x73, 0x70, 0x61, 0x63, 0x65, 0x29]

  /**
   * char_to_str: a graphic character as the locale writes it, space as
   * "(space)", the five named control characters as `\n` `\t` `\r` `\v` `\0`,
   * and anything else as `\x` and at least two (below 256) or five lower-case
   * hexadecimal digits. Apart from a graphic character's glyph, the text is at
   * most 10 bytes, so the 32-byte buffers of the callers never truncate it.
   */
  function CharToText(loc: Locale, c: uint32): (text: seq<uint8>)
    ensures !loc.isGraphic(c) ==> 2 <= |text| <= 10
    ensures !loc.isGraphic(c) && c != SPACE as int ==> text[0] == BACKSLASH
  {
    if c <= WINT_MAX && loc.isGraphic(c) then loc.glyph(c)
    else if c == SPACE as int then SPACE_TEXT
    else if EscapeLetter(c).Some? then [BACKSLASH, EscapeLetter(c).value]
    else if c < 256 then
      DigitsFit(c, 16, 2, 2);
      [BACKSLASH, CH_X] + Digits(c, 16, 2)
    else
      DigitsFit(c, 16, 5, 8);
      [BACKSLASH, CH_X] + Digits(c, 16, 5)
  }

  /**
   * char_from_str: a named escape that is the whole string, `\x` followed by
   * hexadecimal digits that make up the rest of the string and denote at most
   * UINT32_MAX, or else exactly one UTF-8 encoded code point.
   */
  function CharFromText(s: seq<uint8>): (r: Option<uint32>)
    ensures |s| == 0 ==> r.None?
    ensures |s| > 0 && !(s[0] == BACKSLASH && (EscapedChar(At(s, 1)).Some? || At(s, 1) == CH_X)) ==>
      r == (if Utf8ToUtf32(s).status == Read(|s|) then Some(Utf8ToUtf32(s).c) else None)
    ensures |s| >= 2 && s[0] == BACKSLASH && EscapedChar(s[1]).Some? ==>
      r == if |s| == 2 then EscapedChar(s[1]) else None
    ensures |s| >= 2 && s[0] == BACKSLASH && s[1] == CH_X ==>
      (r.Some? <==> ScanNumeral(s[2..], 16).Some? && StrToUnsigned(ScanNumeral(s[2..], 16).value) <= UINT32_MAX)
    ensures |s| >= 2 && s[0] == BACKSLASH && s[1] == CH_X && r.Some? ==>
      r.value == StrToUnsigned(ScanNumeral(s[2..], 16).value)
  {
    if |s| == 0 then None
    else if s[0] == BACKSLASH && EscapedChar(At(s, 1)).Some? then
      if |s| == 2 then EscapedChar(s[1]) else None  // str[2] == '\0'; a C string holds no NUL
    else if s[0] == BACKSLASH && At(s, 1) == CH_X then
      match ScanNumeral(s[2..], 16)
      case None => None
      case Some(numeral) =>
        var v := StrToUnsigned(numeral);
        if v > UINT32_MAX then None else Some(v)
    else
      var d := Utf8ToUtf32(s);
      if d.status == Read(|s|) then Some(d.c) else None
  }

  /**
   * char_from_str reads back what char_to_str writes, for every character
   * except a non-graphic space, provided graphic characters are written as
   * in a UTF-8 locale.
   */
  lemma CharTextRoundTrip(loc: Locale, c: uint32)
    requires RendersAsUtf8(loc, c)
    requires c != SPACE as int || loc.isGraphic(c)
    ensures CharFromText(CharToText(loc, c)) == Some(c)
  {
    if loc.isGraphic(c) {
      GlyphReadBack(c);
    } else if EscapeLetter(c).Some? {
      EscapeReadBack(c);
    } else {
      HexReadBack(c, if c < 256 then 2 else 5);
    }
  }

  lemma GlyphReadBack(c: uint32)
    requires IsScalarValue(c) && c != 0
    ensures CharFromText(Utf32ToUtf8Rfc(c).bytes) == Some(c)
  {
    var s := Utf32ToUtf8Rfc(c).bytes;
    RfcRoundTrip(c, []);
    assert s + [] == s;
  }

  lemma EscapeReadBack(c: uint32)
    requires EscapeLetter(c).Some?
    ensures CharFromText([BACKSLASH, EscapeLetter(c).value]) == Some(c)
  {
  }

  lemma HexReadBack(c: uint32, width: nat)
    ensures CharFromText([BACKSLASH, CH_X] + Digits(c, 16, width)) == Some(c)
  {
    var ds := Digits(c, 16, width);
    var s := [BACKSLASH, CH_X] + ds;
    ScanDigits(c, 16, width, false);
    assert s[0] == BACKSLASH && s[1] == CH_X && s[2..] == ds;
  }

  /** A non-graphic space is written "(space)", which is not read back. */
  lemma SpaceTextRejected(loc: Locale)
    requires !loc.isGraphic(SPACE as int)
    ensures CharToText(loc, SPACE as int) == SPACE_TEXT
    ensures CharFromText(SPACE_TEXT) == None
  {
    assert SPACE_TEXT[0] == 0x28;
    assert Utf8ToUtf32(SPACE_TEXT).status == Read(1);
  }

  // ---------------------------------------------------------------------
  // Values

  /** The largest code a character type holds, plus one. */
  function CharLimit(t: DataType): nat
    requires t.IsChar()
  {
    match t
    case Ascii => 128
    case Utf16 => 0x1_0000
    case Utf32 => 0x1_0000_0000
  }

  /** Decimal text as printf's `%d` and `%u` write it. */
  function Decimal(x: int): seq<uint8> {
    if x < 0 then [MINUS] + Digits(-x, 10, 1) else Digits(x, 10, 1)
  }

  /**
   * data_to_str for the integer and character types: integers in decimal,
   * characters through char_to_str (an ASCII value by its byte, unsigned).
   */
  function DataToText(loc: Locale, t: DataType, v: seq<uint8>): (text: seq<uint8>)
    requires !t.IsFloat() && |v| == DataTypeSize(t)
    ensures !t.IsChar() ==> 1 <= |text| <= 20
  {
    if t.IsChar() then CharToText(loc, FromLittleEndian(v))
    else
      var x := ReadInteger(t, v);
      DecimalFits(t, x);
      Decimal(x)
  }

  /**
   * A number an integer type holds takes at most 20 bytes in decimal, sign
   * included, so the 32-byte buffer of the memory view never truncates it.
   */
  lemma DecimalFits(t: DataType, x: int)
    requires Holds(t, x)
    ensures 1 <= |Decimal(x)| <= 20
  {
    HeldWithin64Bits(t, x);
    DecimalWithin64Bits(x);
  }

  lemma DecimalWithin64Bits(x: int)
    requires -0x8000_0000_0000_0000 <= x < 0x1_0000_0000_0000_0000
    ensures 1 <= |Decimal(x)| <= 20
  {
    TenToThe19();
    if x < 0 {
      DigitsFit(-x, 10, 1, 19);
    } else {
      DigitsFit(x, 10, 1, 20);
    }
  }

  /** Every number an integer type holds is within the 64-bit ranges. */
  lemma HeldWithin64Bits(t: DataType, x: int)
    requires Holds(t, x)
    ensures -0x8000_0000_0000_0000 <= x < 0x1_0000_0000_0000_0000
  {
    match DataTypeSize(t)
    case 1 =>
    case 2 =>
    case 4 =>
    case 8 =>
  }

  lemma TenToThe19()
    ensures Power(10, 19) == 10_000_000_000_000_000_000
    ensures Power(10, 20) == 100_000_000_000_000_000_000
  {
    assert Power(10, 10) == 10_000_000_000;
  }

  /**
   * data_from_str for the integer and character types. An integer must be
   * the whole string (sign and digits); its value is the one `strtoul` or
   * `strtol` gives, truncated to the type's width by the store. A character
   * must be accepted by char_from_str and fit the type: ASCII up to 127,
   * UTF-16 up to 65535. On failure the caller discards the buffer, which a
   * partial integer scan may already have written.
   */
  function DataFromText(t: DataType, s: seq<uint8>): (r: Option<seq<uint8>>)
    requires !t.IsFloat()
    ensures r.Some? ==> |r.value| == DataTypeSize(t) && |s| > 0
    ensures !t.IsChar() ==> (r.Some? <==> ScanNumeral(s, 10).Some?)
    ensures t.IsChar() ==>
      (r.Some? <==> CharFromText(s).Some? && CharFromText(s).value < CharLimit(t))
    ensures t.IsChar() && r.Some? ==> FromLittleEndian(r.value) == CharFromText(s).value
  {
    if t.IsChar() then
      match CharFromText(s)
      case None => None
      case Some(c) =>
        if c >= CharLimit(t) then None
        else
          FromLittleEndianOf(c, DataTypeSize(t));
          Some(LittleEndian(c, DataTypeSize(t)))
    else
      match ScanNumeral(s, 10)
      case None => None
      case Some(numeral) =>
        var x := if t.IsSigned() then StrToSigned(numeral) else StrToUnsigned(numeral);
        Some(Store(t, x))
  }

  /** The number a scanned numeral denotes. */
  function NumberOf(n: Numeral): int {
    if n.negative then -(n.magnitude as int) else n.magnitude
  }

  /**
   * An integer text whose number the type can hold is stored as that number.
   * (Out of range, the model stores what strtoul/strtol give, truncated; no
   * range check is claimed.)
   */
  lemma ScannedIntegerStored(t: DataType, s: seq<uint8>)
    requires !t.IsFloat() && !t.IsChar() && ScanNumeral(s, 10).Some?
    requires Holds(t, NumberOf(ScanNumeral(s, 10).value))
    ensures ReadInteger(t, DataFromText(t, s).value) == NumberOf(ScanNumeral(s, 10).value)
  {
    var n := ScanNumeral(s, 10).value;
    var x := NumberOf(n);
    var stored := if t.IsSigned() then StrToSigned(n) else StrToUnsigned(n);
    assert DataFromText(t, s) == Some(Store(t, stored));
    if t.IsSigned() {
      assert stored == x;
    } else {
      assert stored == x by {
        if n.negative {
          assert n.magnitude == 0;
        }
      }
    }
    StoreThenRead(t, x);
  }

  /**
   * Round trip: parsing the text data_to_str writes gives back the same bytes,
   * for every integer value, and for every character value that fits its type
   * and is written as in a UTF-8 locale (not a non-graphic space).
   */
  lemma DataTextRoundTrip(loc: Locale, t: DataType, v: seq<uint8>)
    requires !t.IsFloat() && |v| == DataTypeSize(t)
    requires t.IsChar() ==>
      var c := FromLittleEndian(v);
      && c < CharLimit(t)
      && RendersAsUtf8(loc, c)
      && (c != SPACE as int || loc.isGraphic(c))
    ensures DataFromText(t, DataToText(loc, t, v)) == Some(v)
  {
    if t.IsChar() {
      CharTextRoundTrip(loc, FromLittleEndian(v));
      LittleEndianRoundTrip(v);
    } else {
      IntegerTextRoundTrip(t, v);
    }
  }

  lemma IntegerTextRoundTrip(t: DataType, v: seq<uint8>)
    requires !t.IsFloat() && !t.IsChar() && |v| == DataTypeSize(t)
    ensures DataFromText(t, Decimal(ReadInteger(t, v))) == Some(v)
  {
    var x := ReadInteger(t, v);
    var text := Decimal(x);
    if x < 0 {
      ScanDigits(-x, 10, 1, true);
    } else {
      ScanDigits(x, 10, 1, false);
    }
    assert NumberOf(ScanNumeral(text, 10).value) == x;
    ScannedIntegerStored(t, text);
    var r := DataFromText(t, text).value;
    ReadThenStore(t, r);
    ReadThenStore(t, v);
  }

  /** data_equal: the first data_type_size(type) bytes of both buffers are equal. */
  function DataEqual(t: DataType, a: seq<uint8>, b: seq<uint8>): (r: bool)
    requires |a| >= DataTypeSize(t) && |b| >= DataTypeSize(t)
    ensures r <==> forall i | 0 <= i < DataTypeSize(t) :: a[i] == b[i]
  {
    a[..DataTypeSize(t)] == b[..DataTypeSize(t)]
  }

  /**
   * Bytes beyond the type's width never matter, and two values of exactly
   * the type's width compare equal only if they are the same bytes.
   */
  lemma DataEqualIgnoresTail(t: DataType, a: seq<uint8>, b: seq<uint8>, x: seq<uint8>, y: seq<uint8>)
    requires |a| == DataTypeSize(t) && |b| == DataTypeSize(t)
    ensures DataEqual(t, a + x, b + y) <==> a == b
  {
    assert (a + x)[..|a|] == a;
    assert (b + y)[..|b|] == b;
  }
}
