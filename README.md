# pokemem core in Dafny

pokemem is a GTK program for Linux that reads and edits the memory of
another process. It shows a table of values of a chosen data type starting
at a chosen address, and estimates what a value search would cost. This
project models the logic of that program that runs without I/O:

- **Unicode** (`unicode.dfy`, unicode.h): the locale-independent
  conversion of one code point from UTF-8 to UTF-32 and back, and the
  test for the start of a code point. Both converters are modelled as
  written, including their departures from section 3 of RFC 3629. A
  corrected encoder is modelled next to them.
- **Data** (`data.dfy`, data.c): the typed-value codec.
  - The width of each of the 13 data types.
  - The type a widget name selects.
  - Characters rendered as text and parsed back, escapes included.
  - Integer and character values rendered and parsed.
  - Byte-wise comparison of values.

  A value is the sequence of its bytes, least significant first.
- **Maps** (`maps.dfy`, main.c `update_maps`): the loop that keeps the
  writable private regions of the target's memory map. It records each
  region's start and size and sums the sizes. The loop is a method over a
  class whose fields are the program state's `maps`, `nmaps` and
  `total_memory`, and it writes into an array.
- **Configuration** (`configuration.dfy`, main.c): the search type a
  radio button selects, the memory and disk estimates of a search, the
  unit a byte count is shown in, and the write an edit of the memory view
  requests.
- **Base** and **CText** (`base.dfy`, `ctext.dfy`) hold the types of
  base.h and the C library behaviour the code relies on. That covers
  `printf`'s `%u`/`%x`/`%02x`/`%05lx` digits, the whole-string integer
  scan `sscanf("%…%n")` with `w == strlen`, `strtoul`/`strtol` value
  rules, and `atoi`.

Three things the program takes from its environment are parameters of the
model:

- **The locale.** `iswgraph` and the bytes `%lc` writes are a `Locale`
  value.
- **The memory map.** The contents of `/proc/<pid>/maps` are the lines
  after `sscanf`, plus the line count of the first pass.
- **The write.** The result of writing to the target process is the byte
  count the writer reports.

## Model

| member | source | states |
|---|---|---|
| `Unicode.IsStartOfCodePoint` | unicode.h:7-11 | the mask test `(b & 0xC0) != 0x80` is false exactly for the continuation bytes 0x80..0xBF |
| `Unicode.Assemble` | unicode.h:37-83 | the value an n-byte form carries is at most 0x7FF for two bytes, 0xFFFF for three and 0x1FFFFF for four |
| `Unicode.Utf8ToUtf32` | unicode.h:21-110 | NUL iff nothing to read or a zero first byte; incomplete iff the lead byte announces more bytes than available; invalid iff a bad lead byte, a three-byte surrogate or a four-byte value above 0x10FFFF; a read count equals the announced length, is at most the bytes available and gives a code point at most 0x10FFFF; every error stores 0; nonzero ASCII reads 1 byte as itself; two-byte forms give at most 0x7FF; three-byte forms give at most 0xFFFF and never a surrogate; every two- to four-byte read gives exactly the value assembled from the lead byte's low bits and the low six bits of each following byte |
| `Unicode.Utf32ToUtf8` | unicode.h:116-148 | as written: 1 to 4 bytes; 1 byte iff c <= 0x7F, 2 iff 0x80..0x7FF, 3 iff 0x800..0x7FFF, 4 iff 0x8000..0x10FFFF; error (one 0 byte) iff above 0x10FFFF, so the surrogate branch never runs |
| `Unicode.Utf32ToUtf8Rfc` | unicode.h:116-148 | the corrected encoder with threshold 0xFFFF: 3 bytes iff 0x800..0xFFFF and not a surrogate, 4 iff 0x10000..0x10FFFF, error iff not a Unicode scalar value |
| `Unicode.RoundTrip` | unicode.h:21-148 | decoding the bytes the encoder writes for 1..0x10FFFF returns their count and the code point; for 0 the decoder reports a NUL |
| `Unicode.RfcRoundTrip` | unicode.h:21-110 | every RFC 3629 encoding of a nonzero scalar value, followed by any bytes, decodes to that code point and length |
| `Unicode.EncoderDepartsFromRfc3629` | unicode.h:127-137 | on U+8000..U+FFFF the encoder writes 4 bytes where RFC 3629 writes 3, and it encodes surrogates RFC 3629 refuses; on every other input the two encoders agree |
| `Unicode.EncodingBytesClassified` | unicode.h:116-148 | the first byte written starts a code point and announces the encoding's length; every later byte is a continuation byte |
| `Unicode.DecodeReadsOnlyAnnounced` | unicode.h:31-100 | the decoder's outcome depends only on the bytes its lead byte announces |
| `Unicode.DecodeIgnoresContinuationTags` | unicode.h:36-83 | only the low six bits of a continuation byte matter, so its `10` tag is never checked |
| `Unicode.DecodeTwoByteForm` | unicode.h:32-40 | every value up to 0x7FF written as C0+c/64, 80+c%64 decodes from two bytes to itself, overlong forms of 0..0x7F included |
| `Unicode.DecodeThreeByteForm` | unicode.h:47-59 | every non-surrogate value up to 0xFFFF written as a three-byte form decodes to itself, overlong forms included |
| `Unicode.DecodeFourByteForm` | unicode.h:71-86 | every value up to 0x10FFFF written as a four-byte form decodes to itself, overlong forms of 0..0xFFFF and surrogates included |
| `Unicode.DecodeAcceptsOverlongAndBadContinuation` | unicode.h:32-40 | the overlong forms C0 80 and E0 81 81 and the badly continued C3 41 are accepted |
| `CText.Digits` | data.c:78-81 | printf's digits of n in base 10 or 16, zero-padded to a width, denote n |
| `CText.DigitsFit` | data.c:78-81 | a number below base^k, padded to at most k digits, takes at most k digits |
| `CText.ScanNumeral` | data.c:136-143 | the whole-string scan accepts a string iff it is an optional sign followed by at least one digit, and reads the sign and the digits' value |
| `CText.StrToUnsigned` | data.c:98-99 | `strtoul` saturates a magnitude above ULONG_MAX and otherwise negates modulo 2^64 for a minus sign |
| `CText.StrToSigned` | data.c:137-143 | `strtol` gives the signed number within the 64-bit `long` range; a positive overflow gives LONG_MAX and a negative one LONG_MIN |
| `CText.AtoiOfDigits` | data.c:6 | `atoi` of a string that starts with digits is the value of those digits |
| `CText.ScanDigits` | data.c:136-143 | the scan reads printed digits, with or without a minus sign, back as the number |
| `Data.DataTypeSize` | data.c:42-63 | every type has a width of 1, 2, 4 or 8 bytes |
| `Data.TypeName` | data.c:3-37 | each type's widget name begins with the letter its case of the switch tests |
| `Data.SelectType` | data.c:4-39 | a selected type's letter is the name's first byte; for u/s/f types the number read is the width in bits; utf16/utf32 need the "utf" prefix and 16 or 32 after it; ascii needs the exact name |
| `Data.TypeNameSelectsType` | data.c:3-40 | every type's own widget name ("u8".."u64", "s8".."s64", "f32", "f64", "utf16", "utf32", "ascii") selects that type |
| `Data.DataTypeFromName` | data.c:3-40 | any name that selects a type starts with that type's letter, and N in "uN"/"sN"/"fN", read by `atoi`, is the width in bits (N/8 bytes); utf16 and utf32 need the "utf" prefix and 16 or 32 after it; ascii is selected only by "ascii" |
| `Data.SizedNameSelection` | data.c:4-32 | a name selects an integer or float type if and only if it starts with that type's letter and `atoi` reads the rest as the type's width in bits |
| `Data.TrailingTextIgnored` | data.c:5-7 | text after the width is ignored: "u8" followed by anything but a digit, such as "u8x", selects U8 |
| `Data.ReadInteger` | data.c:111-118 | the number a value holds is within its type's range and agrees with its bytes modulo 2^(8·width), two's complement for the signed types |
| `Data.Store` | data.c:136-143 | an integer store writes exactly the type's width in bytes |
| `Data.StoreThenRead` | data.c:136-143 | storing a number the type holds and reading it back gives that number |
| `Data.ReadThenStore` | data.c:111-118 | reading a value and storing its number gives the same bytes back |
| `Data.CharToText` | data.c:66-84 | every non-graphic character is rendered in 2 to 10 bytes, so the 32-byte buffers never truncate it; all but space start with a backslash |
| `Data.CharFromText` | data.c:86-107 | the empty string is refused; a named escape is accepted only as the whole string; `\x` is accepted iff the rest is a hexadecimal numeral of at most UINT32_MAX; any other text, a lone or unknown backslash escape included, is accepted iff it decodes as exactly one UTF-8 code point of its whole length, and gives that code point |
| `Data.CharTextRoundTrip` | data.c:66-107 | parsing the text of any character gives the character back, if the locale writes graphic characters as UTF-8 and the character is not a non-graphic space |
| `Data.SpaceTextRejected` | data.c:71 | a non-graphic space is written "(space)", which the parser refuses |
| `Data.DataToText` | data.c:109-128 | integer text is 1 to 20 bytes |
| `Data.DecimalFits` | data.c:111-118 | the decimal text of any number an integer type holds is at most 20 bytes, sign included |
| `Data.DataFromText` | data.c:131-163 | success writes exactly the type's width; an integer is accepted iff the whole non-empty string scans; a character is accepted iff char_from_str accepts it and it is below 128 (ASCII), 65536 (UTF-16) or any value (UTF-32), and the value stored is that character |
| `Data.ScannedIntegerStored` | data.c:136-143 | integer text whose number the type holds is stored as that number |
| `Data.DataTextRoundTrip` | data.c:109-163 | parsing the text of a value gives back the same bytes: for every integer value, and for every character value that fits its type under a UTF-8 locale, except a non-graphic space |
| `Data.DataEqual` | data.c:165-167 | values are equal iff their first width bytes are |
| `Data.DataEqualIgnoresTail` | data.c:165-167 | bytes beyond the type's width never matter, and values of exactly the width compare equal iff they are the same bytes |
| `Maps.MapOf` | main.c:180-182 | a recorded map starts at the line's start; its size is end minus start, wrapping modulo 2^64 when the end is below the start |
| `Maps.Recorded` | main.c:175-186 | the loop records at most `capacity` maps and at most one per line |
| `Maps.RecordedIsPrefix` | main.c:175-186 | the recorded maps are exactly the first `capacity` writable private regions, in line order |
| `Maps.NothingDroppedWithinCapacity` | main.c:167-178 | if the file did not grow between the passes, every writable private region is recorded |
| `Maps.RecordedFromWantedLines` | main.c:178-182 | each recorded map comes from a line that was read and whose protections are "rw-p" |
| `Maps.TotalSizeAppend` | main.c:183 | the total of a list of maps is additive, so each recorded map is counted once |
| `Maps.State.UpdateMaps` | main.c:159-194 | as written: after a failed open the array is NULL and `nmaps` and `total_memory` are unchanged; after a failed allocation the array is NULL, `total_memory` is 0 and `nmaps` is unchanged; otherwise a fresh array of `capacity` maps whose first `nmaps` entries are the recorded maps, with `nmaps <= capacity` and `total_memory` their total size modulo 2^64 |
| `Maps.State.UpdateMapsChecked` | main.c:159-194 | the same update with `nmaps` cleared whenever the array is NULL, so a nonzero `nmaps` always indexes into the array |
| `Maps.State.Record` | main.c:172-187 | the loop leaves the recorded maps in the first `nmaps` slots of the array and `total_memory` equal to their total size modulo 2^64 |
| `Maps.StaleCountAfterFailedOpen` | main.c:226-231 | a state that recorded one map and then fails to open the next maps file has `nmaps` 1 and no array, which the `maps[0]` read of select_pid does not survive |
| `Maps.NoStaleCountWhenChecked` | memory.c:5-6 | the corrected update leaves that sequence with no array and `nmaps` 0, as close_process does |
| `Configuration.SearchTypeFromName` | main.c:6-14 | "enter-value" selects the enter-value search and "same-different" the same/different search, each iff the name is exactly that |
| `Configuration.SearchTypeNames` | main.c:6-14 | a name selects a search type iff it is that type's name, "enter-value" or "same-different"; any other name selects none |
| `Configuration.SearchEstimates` | main.c:122-151 | estimates exist iff a process is attached; the disk estimate is the process's total memory for a same/different search and 0 for an enter-value search |
| `Configuration.MemoryEstimateIsBitset` | main.c:123-126 | the memory estimate is the whole number of bytes of a one-bit-per-item bitset: its bits times the width is at most the total memory and one more byte would exceed it |
| `Configuration.BytesToText` | main.c:61-72 | exact text iff fewer than 1024 bytes; otherwise the amount times the unit is the byte count, and the amount is at least 1 and, below GB, under 1024 |
| `Configuration.ExactSizeReadsBack` | main.c:62-65 | an exact size text reads back as the byte count, and a nonzero one ends in "B" |
| `Configuration.RowAddressSteps` | main.c:38-39 | row addresses start at the view address and step by the type's width modulo 2^64, as the memory view lists them |
| `Configuration.EditRequest` | main.c:243-248 | an edit is requested iff the text parses for the type; it writes the type's width of bytes, the very bytes data_from_str stores, at the row address `memory_view_address + idx * item_size` (modulo 2^64) for the row number `idx` read by `atol` |
| `Configuration.MemoryEdited` | main.c:239-266 | rejected iff the text does not parse; written iff it parses and the writer wrote exactly the type's width; any attempted write is the requested edit |
| `Configuration.ShownTextRepeatsEdit` | main.c:248-261 | the text a written row shows, entered again in the same row, requests the very same write |

## Left out

- memory.c is not part of this model except the two resets in
  close_process: opening `/proc/<pid>/mem`, stopping and continuing the
  target, and the read and write loops are operating-system I/O. A write is
  modelled by the byte count it reports.
- GTK glue is not modelled. This covers update_memory_view's list
  store, the widget reads of update_configuration, select_pid apart from
  its `maps[0]` read, the list-store update of memory_edited,
  radio_group_get_selected, frame_callback, on_activate, main and the
  dialog helpers. update_memory_view's address stepping is stated by
  `Configuration.RowAddressSteps` only.
- search_start only shows and hides widgets, so it is not modelled.
- The declarations `MASK64` and `search_candidates` in base.h are unused,
  so they are not modelled.
- Reading `/proc/<pid>/maps` is not modelled: `fopen`, the two `fgets`
  passes and the `%8s` scan into `char[8]`. The scanned lines and the first
  pass's line count are inputs.
- Data.DataToText: the F32 and F64 cases (`%g`) are excluded by its
  precondition, because floating point is not modelled.
- Data.DataFromText: the F32 and F64 cases (`%f`, `%lf`) are excluded by
  its precondition, because floating point is not modelled.
- Configuration.BytesToText: the `%.1f` rounding is not modelled. A scaled
  size is the exact quotient.
- The locale is a parameter. Which characters are graphic and the bytes
  `%lc` writes for them are not modelled. The round-trip lemmas assume a
  UTF-8 locale, through `Data.RendersAsUtf8`.
- CText.ScanNumeral: `sscanf`'s skipping of leading white space and the
  `0x` prefix `%lx` accepts are not modelled. Such texts are refused by
  the model and accepted by the C library.
- Data.ScannedIntegerStored: no range check is claimed for integers. Out
  of range, the model stores what `strtoul`/`strtol` give, truncated to
  the width.
- CText.Atoi: overflow of `atoi` and `atol` (undefined behaviour in C) is
  not modelled, because the model's integers are unbounded.
- Maps.State.UpdateMaps: `nmaps` is a `nat`, not a 32-bit `unsigned`.
  Wrap-around would need more than 2^32 lines.
- Little-endian byte order is fixed, as on the x86-64 machines the program
  targets.

## Findings

| source | as written | input that shows it | evidently intended | confidence | as-written member | corrected member |
|---|---|---|---|---|---|---|
| unicode.h:127 | the three-byte branch of the encoder tests `c32 <= 0x7FFF` | U+8000 (and every code point up to U+FFFF, surrogates included) is given a 4-byte form | `c32 <= 0xFFFF`, as RFC 3629 and the surrogate test inside the branch require | high, not executed | `Unicode.EncoderDepartsFromRfc3629` | `Unicode.Utf32ToUtf8Rfc` |
| main.c:188-193 | update_maps sets `maps` to NULL but leaves `nmaps` unchanged when the maps file cannot be opened or the array cannot be allocated | one map recorded for one process, then a PID whose maps file cannot be opened: `nmaps` stays 1 with `maps` NULL, and select_pid reads `maps[0]` | `nmaps` reset to 0 with `maps`, as close_process does | medium, not executed | `Maps.StaleCountAfterFailedOpen` | `Maps.State.UpdateMapsChecked` |
