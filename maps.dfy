/**
 * The writable memory regions of the target process (update_maps in main.c).
 *
 * Reading /proc/<pid>/maps is not modelled: the second pass over the file is
 * given as the sequence of its lines, each either the three fields sscanf read
 * (start, end, protections) or a line it could not read; the first pass is
 * given as the `capacity` it counted. The two may disagree when the target maps
 * memory between the passes, which is why the loop checks `nmaps < capacity`.
 */
module Maps {
  import opened Base

  /** A line of the maps file after `sscanf(line, "%lx-%lx %8s", ...)`. */
  datatype Line =
    | Scanned(lo: Address, hi: Address, protections: seq<uint8>)
    | Unscanned

  /** "rw-p": readable, writable, not executable, private. */
  const RW_PRIVATE: seq<uint8> := [0x72, 0x77, 0x2D, 0x70]

  /** A line the loop records, capacity permitting. */
  predicate Wanted(line: Line) {
    line.Scanned? && line.protections == RW_PRIVATE
  }

  /** The map recorded for a line: its start, and end minus start in `uint64_t` arithmetic. */
  function MapOf(line: Line): (m: Map)
    requires line.Scanned?
    ensures m.lo == line.lo
    ensures line.lo <= line.hi ==> m.size == line.hi - line.lo
    ensures line.lo > line.hi ==> m.size == line.hi - line.lo + TWO_64
  {
    Map(line.lo, (line.hi - line.lo) % TWO_64)
  }

  /**
   * What update_maps has recorded after the first `n` of `lines`, given room
   * for `capacity` maps: each wanted line in turn while there is room.
   */
  function Recorded(lines: seq<Line>, n: nat, capacity: nat): (ms: seq<Map>)
    requires n <= |lines|
    ensures |ms| <= capacity && |ms| <= n
  {
    if n == 0 then []
    else
      var before := Recorded(lines, n - 1, capacity);
      if Wanted(lines[n - 1]) && |before| < capacity then before + [MapOf(lines[n - 1])] else before
  }

  /** Every writable private region among the first `n` lines, in line order, whatever the capacity. */
  function WritableRegions(lines: seq<Line>, n: nat): (ms: seq<Map>)
    requires n <= |lines|
    ensures |ms| <= n
  {
    if n == 0 then []
    else
      var before := WritableRegions(lines, n - 1);
      if Wanted(lines[n - 1]) then before + [MapOf(lines[n - 1])] else before
  }

  function Min(a: nat, b: nat): nat {
    if a <= b then a else b
  }

  /**
   * The recorded maps are the first `capacity` writable private regions: no
   * other line is recorded, none is skipped while there is room, and their
   * order is the order of the lines.
   */
  lemma {:induction false} RecordedIsPrefix(lines: seq<Line>, n: nat, capacity: nat)
    requires n <= |lines|
    ensures Recorded(lines, n, capacity)
         == WritableRegions(lines, n)[..Min(capacity, |WritableRegions(lines, n)|)]
  {
    if n > 0 {
      RecordedIsPrefix(lines, n - 1, capacity);
      var all := WritableRegions(lines, n - 1);
      if Wanted(lines[n - 1]) {
        var m := MapOf(lines[n - 1]);
        if Min(capacity, |all|) < capacity {
          assert (all + [m])[..Min(capacity, |all| + 1)] == all + [m];
        } else {
          assert (all + [m])[..capacity] == all[..capacity];
        }
      }
    }
  }

  /**
   * When the file did not grow between the two passes (capacity is at least
   * the number of lines), every writable private region is recorded.
   */
  lemma NothingDroppedWithinCapacity(lines: seq<Line>, capacity: nat)
    requires capacity >= |lines|
    ensures Recorded(lines, |lines|, capacity) == WritableRegions(lines, |lines|)
  {
    RecordedIsPrefix(lines, |lines|, capacity);
  }

  /** A map is recorded only for a wanted line, with that line's bounds. */
  lemma {:induction false} RecordedFromWantedLines(lines: seq<Line>, n: nat, capacity: nat, k: nat)
    requires n <= |lines| && k < |Recorded(lines, n, capacity)|
    ensures exists i | 0 <= i < n :: Wanted(lines[i]) && Recorded(lines, n, capacity)[k] == MapOf(lines[i])
  {
    var before := Recorded(lines, n - 1, capacity);
    if k < |before| {
      RecordedFromWantedLines(lines, n - 1, capacity, k);
    } else {
      assert Wanted(lines[n - 1]) && Recorded(lines, n, capacity)[k] == MapOf(lines[n - 1]);
    }
  }

  /** The exact total size of a list of maps. */
  function TotalSize(ms: seq<Map>): nat {
    if ms == [] then 0 else TotalSize(ms[..|ms| - 1]) + ms[|ms| - 1].size
  }

  /** The total counts each map once: recording one more map adds its size. */
  lemma {:induction false} TotalSizeAppend(ms: seq<Map>, more: seq<Map>)
    ensures TotalSize(ms + more) == TotalSize(ms) + TotalSize(more)
  {
    if more != [] {
      assert (ms + more)[..|ms + more| - 1] == ms + more[..|more| - 1];
      TotalSizeAppend(ms, more[..|more| - 1]);
    } else {
      assert ms + more == ms;
    }
  }

  /** The total modulo 2^64 after recording one more map, as `total_memory += size` computes it. */
  lemma TotalAfterAppend(ms: seq<Map>, m: Map)
    ensures TotalSize(ms + [m]) % TWO_64 == (TotalSize(ms) % TWO_64 + m.size) % TWO_64
  {
    TotalSizeAppend(ms, [m]);
    assert [m][..0] == [];
    AddModulo(TotalSize(ms), m.size);
  }

  /**
   * The fields update_maps maintains: the array of maps (`maps`, NULL or
   * allocated with room for `capacity` maps), how many of them are in use, and
   * the total size of those in use.
   */
  class State {
    var maps: array?<Map>
    var nmaps: nat
    var totalMemory: uint64

    /** What select_pid relies on when it reads `maps[0]` because `nmaps` is nonzero. */
    predicate MapsUsable()
      reads this
    {
      nmaps > 0 ==> maps != null && nmaps <= maps.Length
    }

    constructor ()
      ensures maps == null && nmaps == 0 && totalMemory == 0
      ensures MapsUsable()
    {
      maps := null;
      nmaps := 0;
      totalMemory := 0;
    }

    /**
     * update_maps as written. `listing` is None when the maps file cannot be
     * opened; `allocOk` is whether `calloc` of the array succeeded.
     */
    method UpdateMaps(listing: Option<seq<Line>>, capacity: nat, allocOk: bool)
      modifies this
      ensures listing.None? ==>
        maps == null && nmaps == old(nmaps) && totalMemory == old(totalMemory)
      ensures listing.Some? && !allocOk ==>
        maps == null && nmaps == old(nmaps) && totalMemory == 0
      ensures listing.Some? && allocOk ==>
        && maps != null && fresh(maps) && maps.Length == capacity
        && nmaps <= capacity
        && maps[..nmaps] == Recorded(listing.value, |listing.value|, capacity)
        && totalMemory == TotalSize(maps[..nmaps]) % TWO_64
    {
      maps := null;
      if listing.Some? {
        var a: array?<Map> := null;
        if allocOk {
          a := new Map[capacity](_ => Map(0, 0));
        }
        maps := a;
        totalMemory := 0;
        if a != null {
          Record(a, listing.value, capacity);
        }
      }
    }

    /**
     * update_maps with the map count cleared whenever the array is: what
     * close_process does, and what select_pid needs.
     */
    method UpdateMapsChecked(listing: Option<seq<Line>>, capacity: nat, allocOk: bool)
      modifies this
      ensures MapsUsable()
      ensures maps == null ==> nmaps == 0
      ensures listing.None? ==> maps == null && totalMemory == old(totalMemory)
      ensures listing.Some? && !allocOk ==> maps == null && totalMemory == 0
      ensures listing.Some? && allocOk ==>
        && maps != null && fresh(maps) && maps.Length == capacity
        && nmaps <= capacity
        && maps[..nmaps] == Recorded(listing.value, |listing.value|, capacity)
        && totalMemory == TotalSize(maps[..nmaps]) % TWO_64
    {
      UpdateMaps(listing, capacity, allocOk);
      if maps == null {
        nmaps := 0;
      }
    }

    /** The loop of update_maps over the lines of the second pass. */
    method Record(a: array<Map>, lines: seq<Line>, capacity: nat)
      requires a.Length == capacity && maps == a && totalMemory == 0
      modifies this, a
      ensures maps == a && nmaps <= capacity
      ensures a[..nmaps] == Recorded(lines, |lines|, capacity)
      ensures totalMemory == TotalSize(a[..nmaps]) % TWO_64
    {
      var count: nat := 0;
      ghost var recorded: seq<Map> := [];
      var i := 0;
      while i < |lines|
        invariant 0 <= i <= |lines| && maps == a
        invariant recorded == Recorded(lines, i, capacity)
        invariant count == |recorded| && count <= capacity
        invariant a[..count] == recorded
        invariant totalMemory == TotalSize(recorded) % TWO_64
      {
        var line := lines[i];
        if line.Scanned? && count < capacity {
          if line.protections == RW_PRIVATE {
            var m := MapOf(line);
            a[count] := m;
            TotalAfterAppend(recorded, m);
            recorded := recorded + [m];
            count := count + 1;
            totalMemory := (totalMemory + m.size) % TWO_64;
          }
        }
        i := i + 1;
      }
      nmaps := count;
    }
  }

  /**
   * The stale count of update_maps: a state that has recorded a map, then
   * fails to open the maps file of the next process, keeps `nmaps` at 1 with
   * no array, and select_pid would then read `maps[0]` through NULL.
   */
  method StaleCountAfterFailedOpen() returns (s: State)
    ensures s.nmaps == 1 && s.maps == null
    ensures !s.MapsUsable()
  {
    s := new State();
    s.UpdateMaps(Some([Scanned(0x1000, 0x2000, RW_PRIVATE)]), 1, true);
    assert [Scanned(0x1000, 0x2000, RW_PRIVATE)][..0] == [];
    s.UpdateMaps(None, 0, true);
  }

  /** The corrected update leaves the same sequence in a usable state. */
  method NoStaleCountWhenChecked() returns (s: State)
    ensures s.nmaps == 0 && s.maps == null
    ensures s.MapsUsable()
  {
    s := new State();
    s.UpdateMapsChecked(Some([Scanned(0x1000, 0x2000, RW_PRIVATE)]), 1, true);
    s.UpdateMapsChecked(None, 0, true);
  }
}
