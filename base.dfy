/**
 * Types shared by the whole program (base.h): fixed-width unsigned integers,
 * the data types a memory value can be viewed as, the kinds of search, and a
 * memory map entry.
 */
module Base {

  datatype Option<+T> = None | Some(value: T)

  type uint8 = x: int | 0 <= x < 0x100
  type uint16 = x: int | 0 <= x < 0x1_0000
  type uint32 = x: int | 0 <= x < 0x1_0000_0000
  type uint64 = x: int | 0 <= x < 0x1_0000_0000_0000_0000

  /** An address in the target process (`typedef uint64_t Address`). */
  type Address = uint64

  const UINT32_MAX: int := 0xFFFF_FFFF
  const UINT64_MAX: int := 0xFFFF_FFFF_FFFF_FFFF
  /** 2^64: the modulus of `uint64_t` arithmetic. */
  const TWO_64: int := 0x1_0000_0000_0000_0000

  /** The thirteen ways a memory value can be viewed. */
  datatype DataType =
    | U8 | S8 | U16 | S16 | U32 | S32 | U64 | S64
    | Ascii | Utf16 | Utf32 | F32 | F64
  {
    predicate IsFloat() { F32? || F64? }
    predicate IsChar() { Ascii? || Utf16? || Utf32? }
    predicate IsSigned() { S8? || S16? || S32? || S64? }
  }

  datatype SearchType = EnterValue | SameDifferent

  /** A writable memory region of the target: its first address and its length in bytes. */
  datatype Map = Map(lo: Address, size: Address)

  /** Adding to a `uint64_t` that holds a wrapped sum wraps as adding to the exact sum does. */
  lemma AddModulo(sum: int, more: int)
    ensures (sum % TWO_64 + more) % TWO_64 == (sum + more) % TWO_64
  {
    var q := sum / TWO_64;
    assert sum == q * TWO_64 + sum % TWO_64;
    assert sum + more == q * TWO_64 + (sum % TWO_64 + more);
  }

  /** The bytes of an ASCII string literal, as a C compiler lays them out. */
  function Literal(s: string): (b: seq<uint8>)
    ensures |b| == |s|
  {
    seq(|s|, i requires 0 <= i < |s| => (s[i] as int) % 0x100)
  }
}
