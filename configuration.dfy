/**
 * The pure computations of main.c around the interface: the search type a
 * radio button selects, the memory and disk estimates for a search, the unit
 * a byte count is shown in, and where an edited row of the memory view is
 * written.
 */
module Configuration {
  import opened Base
  import opened CText
  import opened Data

  // ---------------------------------------------------------------------
  // Search type

  const ENTER_VALUE_NAME: seq<uint8> := Literal("enter-value")
  const SAME_DIFFERENT_NAME: seq<uint8> := Literal("same-different")

  /** The widget name of each search type's radio button. */
  function SearchTypeName(st: SearchType): seq<uint8> {
    match st
    case EnterValue => ENTER_VALUE_NAME
    case SameDifferent => SAME_DIFFERENT_NAME
  }

  /** search_type_from_str; None stands for the failed assertion on any other name. */
  function SearchTypeFromName(name: seq<uint8>): (r: Option<SearchType>)
    ensures r == Some(EnterValue) <==> name == ENTER_VALUE_NAME
    ensures r == Some(SameDifferent) <==> name == SAME_DIFFERENT_NAME
  {
    assert |ENTER_VALUE_NAME| != |SAME_DIFFERENT_NAME|;
    if name == ENTER_VALUE_NAME then Some(EnterValue)
    else if name == SAME_DIFFERENT_NAME then Some(SameDifferent)
    else None
  }

  /** A name selects a search type exactly when it is that type's widget name. */
  lemma SearchTypeNames(name: seq<uint8>, st: SearchType)
    ensures SearchTypeFromName(name) == Some(st) <==> name == SearchTypeName(st)
  {
    assert |ENTER_VALUE_NAME| != |SAME_DIFFERENT_NAME|;
  }

  // ---------------------------------------------------------------------
  // Estimates

  /** The two figures update_configuration shows for a search, in bytes. */
  datatype Estimates = Estimates(memory: uint64, disk: uint64)

  /**
   * The estimate arithmetic of update_configuration: with a process
   * selected, one bit per item of the chosen type in memory, and a copy of all
   * of the process's memory on disk for a same/different search; without
   * one, None ("N/A").
   */
  function SearchEstimates(attached: bool, totalMemory: uint64, t: DataType, st: SearchType): (r: Option<Estimates>)
    ensures r.Some? <==> attached
    ensures r.Some? ==> r.value.disk == if st == SameDifferent then totalMemory else 0
  {
    if !attached then None
    else
      var items := totalMemory / DataTypeSize(t);
      Some(Estimates(items / 8, if st == EnterValue then 0 else totalMemory))
  }

  /**
   * The memory estimate is the number of whole bytes the bitset of one bit
   * per item takes: at most the process's memory divided by 8 * width, and
   * fewer than one byte short of it.
   */
  lemma MemoryEstimateIsBitset(totalMemory: uint64, t: DataType, st: SearchType)
    ensures var bitsetBytes := SearchEstimates(true, totalMemory, t, st).value.memory;
      && bitsetBytes * 8 * DataTypeSize(t) <= totalMemory
      && totalMemory < (bitsetBytes + 1) * 8 * DataTypeSize(t)
  {
    var w := DataTypeSize(t);
    var items := totalMemory / w;
    var m := items / 8;
    assert items * w <= totalMemory < (items + 1) * w by {
      match w
      case 1 =>
      case 2 =>
      case 4 =>
      case 8 =>
    }
    assert m * 8 <= items < (m + 1) * 8;
    assert m * 8 * w <= items * w by {
      match w
      case 1 =>
      case 2 =>
      case 4 =>
      case 8 =>
    }
    assert (items + 1) * w <= (m + 1) * 8 * w by {
      match w
      case 1 =>
      case 2 =>
      case 4 =>
      case 8 =>
    }
  }

  // ---------------------------------------------------------------------
  // Sizes as text

  datatype Unit = KB | MB | GB

  function UnitBytes(u: Unit): nat {
    match u
    case KB => 0x400
    case MB => 0x10_0000
    case GB => 0x4000_0000
  }

  function UnitName(u: Unit): seq<uint8> {
    match u
    case KB => Literal("KB")
    case MB => Literal("MB")
    case GB => Literal("GB")
  }

  /**
   * The text bytes_to_text writes: exact for fewer than 1024 bytes, otherwise
   * an amount of a unit (written with one decimal by `%.1f`, which is not
   * modelled: `amount` is the exact quotient before that rounding).
   */
  datatype SizeText = Exact(text: seq<uint8>) | Scaled(amount: real, unit: Unit)

  const BYTE_SUFFIX: uint8 := 0x42  // 'B'

  /**
   * bytes_to_text: "0", a count of bytes below 1024, or the largest of KB,
   * MB, GB that leaves an amount of at least 1, below 1024 except in GB.
   */
  function BytesToText(n: uint64): (r: SizeText)
    ensures r.Exact? <==> n < 0x400
    ensures r.Scaled? ==> r.amount * (UnitBytes(r.unit) as real) == n as real
    ensures r.Scaled? ==> 1.0 <= r.amount
    ensures r.Scaled? && r.unit != GB ==> r.amount < 1024.0
  {
    if n == 0 then Exact([0x30])
    else if n < 0x400 then Exact(Digits(n, 10, 1) + [BYTE_SUFFIX])
    else if n < 0x10_0000 then Scaled(n as real / 1024.0, KB)
    else if n < 0x4000_0000 then Scaled(n as real / 1048576.0, MB)
    else Scaled(n as real / 1073741824.0, GB)
  }

  /**
   * An exact size text reads back as the byte count, and a nonzero one ends
   * in "B".
   */
  lemma ExactSizeReadsBack(n: uint64)
    requires n < 0x400
    ensures Atoi(BytesToText(n).text) == n
    ensures n > 0 ==> |BytesToText(n).text| >= 2 && BytesToText(n).text[|BytesToText(n).text| - 1] == BYTE_SUFFIX
  {
    if n > 0 {
      var ds := Digits(n, 10, 1);
      assert !IsDigitIn(BYTE_SUFFIX, 10);
      AtoiOfDigits(ds, [BYTE_SUFFIX]);
    } else {
      var zero: seq<uint8> := [0x30];
      assert zero + [] == zero;
      AtoiOfDigits(zero, []);
    }
  }

  // ---------------------------------------------------------------------
  // Editing a value in the memory view

  /** What memory_edited writes: `bytes` at `address` of the target process. */
  datatype Edit = Edit(address: Address, bytes: seq<uint8>)

  /**
   * How an edit ends: the text does not parse; it parses but the write does
   * not go through (no writer, or fewer bytes written); or it is written and
   * the row shows the value's text as data_to_str renders it.
   */
  datatype EditOutcome = Rejected | NotWritten(edit: Edit) | Written(edit: Edit, shown: seq<uint8>)

  /** The address of row `index` of a view starting at `viewAddress`, in `uint64_t` arithmetic. */
  function RowAddress(viewAddress: Address, t: DataType, index: nat): Address {
    (viewAddress + index * DataTypeSize(t)) % TWO_64
  }

  /**
   * Row by row, the addresses step by the type's width, as update_memory_view
   * steps `addr` while listing rows: an edited row is written where that row's
   * value was read.
   */
  lemma RowAddressSteps(viewAddress: Address, t: DataType, index: nat)
    ensures RowAddress(viewAddress, t, 0) == viewAddress
    ensures RowAddress(viewAddress, t, index + 1)
         == (RowAddress(viewAddress, t, index) + DataTypeSize(t)) % TWO_64
  {
    AddressStep(viewAddress, DataTypeSize(t), index);
  }

  /** One more step of width `w` adds `w` to the reduced address. */
  lemma AddressStep(start: int, w: int, index: int)
    ensures (start + (index + 1) * w) % TWO_64 == ((start + index * w) % TWO_64 + w) % TWO_64
  {
    var before := start + index * w;
    assert start + (index + 1) * w == before + w;
    AddModulo(before, w);
  }

  /**
   * The edit request of memory_edited: the row number is the path read by
   * `atol` and converted to `Address`, and the bytes are those data_from_str
   * stores for the text.
   */
  function EditRequest(viewAddress: Address, path: seq<uint8>, t: DataType, text: seq<uint8>): (r: Option<Edit>)
    requires !t.IsFloat()
    ensures r.Some? <==> DataFromText(t, text).Some?
    ensures r.Some? ==> |r.value.bytes| == DataTypeSize(t)
    ensures r.Some? ==>
      r.value == Edit(RowAddress(viewAddress, t, Atoi(path) % TWO_64), DataFromText(t, text).value)
  {
    var index := Atoi(path) % TWO_64;
    match DataFromText(t, text)
    case None => None
    case Some(bytes) => Some(Edit(RowAddress(viewAddress, t, index), bytes))
  }

  /**
   * memory_edited. `written` is what the writer reports: None when it cannot
   * be opened, otherwise the number of bytes memory_write_bytes wrote.
   */
  function MemoryEdited(loc: Locale, viewAddress: Address, path: seq<uint8>, t: DataType,
                        text: seq<uint8>, written: Option<nat>): (r: EditOutcome)
    requires !t.IsFloat()
    ensures r.Rejected? <==> DataFromText(t, text).None?
    ensures r.Written? <==> DataFromText(t, text).Some? && written == Some(DataTypeSize(t))
    ensures !r.Rejected? ==> Some(r.edit) == EditRequest(viewAddress, path, t, text)
  {
    match EditRequest(viewAddress, path, t, text)
    case None => Rejected
    case Some(edit) =>
      if written == Some(DataTypeSize(t)) then Written(edit, DataToText(loc, t, edit.bytes))
      else NotWritten(edit)
  }

  /**
   * The text a written row shows is canonical: entering it again in the same
   * row requests the very same write (for characters, provided the locale
   * renders them as UTF-8 and the value is not a non-graphic space).
   */
  lemma ShownTextRepeatsEdit(loc: Locale, viewAddress: Address, path: seq<uint8>, t: DataType,
                             text: seq<uint8>, written: Option<nat>)
    requires !t.IsFloat()
    requires MemoryEdited(loc, viewAddress, path, t, text, written).Written?
    requires t.IsChar() ==>
      var c := FromLittleEndian(DataFromText(t, text).value);
      RendersAsUtf8(loc, c) && (c != SPACE as int || loc.isGraphic(c))
    ensures var r := MemoryEdited(loc, viewAddress, path, t, text, written);
      EditRequest(viewAddress, path, t, r.shown) == Some(r.edit)
  {
    var r := MemoryEdited(loc, viewAddress, path, t, text, written);
    DataTextRoundTrip(loc, t, r.edit.bytes);
  }
}
