/** The EEPROM file system: its memory, its bookkeeping and its operations. */
module EepromFs {
  import opened Bits
  import opened Common
  import opened EepromLayout
  import opened EepromStructure
  import opened EepromStore

  /** The error codes, and the end of the program at an assertion that does not hold. */
  datatype Error = Ok | FileNotFound | FileExists | DirFull | DiskFull | Invalid | Halted

  datatype OpenMode = ForReading | ForWriting | ForAppending

  datatype FileMode = NotOpen | ModeRead | ModeWrite

  /** An open file, or a handle that is not open. */
  class FileHandle {
    var size: nat
    var curOffset: nat
    var entry: byte
    var curSector: byte
    var curSoffset: nat
    var curEntry: byte
    var curSindex: byte
    var mode: FileMode

    constructor ()
      ensures mode == NotOpen
    {
      size, curOffset, entry, curSector, curSoffset, curEntry, curSindex, mode := 0, 0, 0, 0, 0, 0, 0, NotOpen;
    }

    /** Forgets everything about an earlier file. */
    method Clear()
      modifies this
      ensures size == curOffset == curSoffset == 0 && entry == curSector == curEntry == curSindex == 0
        && mode == NotOpen
    {
      size, curOffset, entry, curSector, curSoffset, curEntry, curSindex, mode := 0, 0, 0, 0, 0, 0, 0, NotOpen;
    }
  }

  /** A size that ends inside the last of `n` sectors. */
  predicate SizeEndsIn(z: nat, n: nat, size: nat) {
    if n == 0 then size == 0 else Times(z, n - 1) < size <= Times(z, n)
  }

  /** The position of a handle that is ready to append to `f`. */
  ghost predicate WriteSeat(g: Geometry, f: File, size: nat, curSector: byte, curSoffset: nat, curEntry: byte,
      curSindex: byte) {
    var z, n := g.sectorSize, |f.secs|;
    && f.chain != [] && curEntry as int == f.chain[|f.chain| - 1] && curSector < g.sectors
    && SizeEndsIn(z, n, size)
    && (n == 0 ==> curSoffset == 0 && curSindex == 255)
    && (n > 0 ==>
      (&& curSoffset == (if size == Times(z, n) then 0 else size - Times(z, n - 1))
       && (curSoffset != 0 ==> curSector as int == f.secs[n - 1])
       && (|| Seated(f, curSindex)
           || (n == Base(|f.chain|) && curSoffset == 0
               && Base(|f.chain|) - Base(|f.chain| - 1) <= curSindex < 255))))
  }

  /** The slot index names the file's last sector inside the last entry. */
  ghost predicate Seated(f: File, curSindex: byte) {
    f.chain != [] && Base(|f.chain| - 1) + curSindex as int == |f.secs| - 1
  }

  /** The next byte goes to offset `curSoffset` of the file's last sector. */
  ghost predicate WriteSpot(g: Geometry, f: File, size: nat, curSector: byte, curSoffset: nat, curEntry: byte,
      curSindex: byte) {
    && f.chain != [] && curEntry as int == f.chain[|f.chain| - 1]
    && f.secs != [] && curSector as int == f.secs[|f.secs| - 1]
    && size == Times(g.sectorSize, |f.secs| - 1) + curSoffset && curSoffset < g.sectorSize
    && Seated(f, curSindex)
  }

  /** The next byte goes to offset `curSoffset` of the file's last sector, whatever slot the handle thinks that is in. */
  ghost predicate LastSpot(g: Geometry, f: File, size: nat, curSector: byte, curSoffset: nat, curEntry: byte) {
    && f.chain != [] && curEntry as int == f.chain[|f.chain| - 1]
    && f.secs != [] && curSector as int == f.secs[|f.secs| - 1]
    && size == Times(g.sectorSize, |f.secs| - 1) + curSoffset && curSoffset < g.sectorSize
  }

  /**
   A handle in place for the rest of the file's last sector, but the slot it will put the next sector in is
   in use: it was opened for appending, or was refused a directory entry too often.
   */
  ghost predicate SlipSeat(g: Geometry, f: File, size: nat, curSector: byte, curSoffset: nat, curEntry: byte,
      curSindex: byte) {
    var z, n := g.sectorSize, |f.secs|;
    && f.chain != [] && curEntry as int == f.chain[|f.chain| - 1] && curSector < g.sectors
    && n > 0 && SizeEndsIn(z, n, size)
    && curSoffset == (if size == Times(z, n) then 0 else size - Times(z, n - 1))
    && (curSoffset != 0 ==> curSector as int == f.secs[n - 1])
    && Base(|f.chain| - 1) + Advance(curSindex) as int < n
  }

  /** The size counts `q` full sectors and `curSoffset` bytes, which is more than the file has; all those sectors are marked as used. */
  ghost predicate Overcounts(g: Geometry, L: Layout, h: nat, size: nat, curSoffset: nat, q: nat) {
    && h in L.files && curSoffset < g.sectorSize && size == Times(g.sectorSize, q) + curSoffset
    && |L.files[h].secs| < q + (if curSoffset == 0 then 0 else 1) <= |L.files[h].secs| + |L.lost|
  }

  /** Where the slot index of a handle may point: to a slot in use, or behind the slots of a full entry. */
  ghost predicate SlotInUse(f: File, curSoffset: nat, curSindex: byte) {
    && f.chain != [] && f.secs != []
    && (|| Base(|f.chain| - 1) + Advance(curSindex) as int <= |f.secs|
        || (|f.secs| == Base(|f.chain|) && curSoffset == 0 && Base(|f.chain|) - Base(|f.chain| - 1) <= curSindex as int))
  }

  /** A handle that has put sectors over others: its size is more than what the file's sectors hold. */
  ghost predicate TornSeat(g: Geometry, L: Layout, h: nat, size: nat, curSector: byte, curSoffset: nat,
      curEntry: byte, curSindex: byte) {
    && h in L.files && SlotInUse(L.files[h], curSoffset, curSindex)
    && curEntry as int == L.files[h].chain[|L.files[h].chain| - 1] && curSector < g.sectors
    && (curSoffset != 0 ==> curSector as int in L.files[h].secs)
    && exists q: nat :: Overcounts(g, L, h, size, curSoffset, q)
  }

  /** As before, with a sector to write to. */
  ghost predicate TornSpot(g: Geometry, L: Layout, h: nat, size: nat, curSector: byte, curSoffset: nat,
      curEntry: byte, curSindex: byte) {
    && h in L.files && L.files[h].chain != [] && L.files[h].secs != []
    && Base(|L.files[h].chain| - 1) + Advance(curSindex) as int <= |L.files[h].secs|
    && curEntry as int == L.files[h].chain[|L.files[h].chain| - 1] && curSector < g.sectors
    && curSector as int in L.files[h].secs && curSoffset < g.sectorSize
    && exists q: nat :: size == Times(g.sectorSize, q) + curSoffset && |L.files[h].secs| < q + 1 <= |L.files[h].secs| + |L.lost|
  }

  /** What is left of the sector a handle stands in. */
  function Rest(g: Geometry, curSoffset: nat): int { if curSoffset == 0 then 0 else g.sectorSize - curSoffset }

  /** How a handle appends: properly; properly as far as its sector goes; or to a file that is torn already. */
  datatype Mode = Proper | Slipping | Torn

  ghost predicate InMode(g: Geometry, mode: Mode, L: Layout, h: nat, size: nat, curSector: byte,
      curSoffset: nat, curEntry: byte, curSindex: byte) {
    match mode
    case Proper => h in L.files && WriteSeat(g, L.files[h], size, curSector, curSoffset, curEntry, curSindex)
    case Slipping => h in L.files && SlipSeat(g, L.files[h], size, curSector, curSoffset, curEntry, curSindex)
    case Torn => TornSeat(g, L, h, size, curSector, curSoffset, curEntry, curSindex)
  }

  ghost predicate SpotInMode(g: Geometry, mode: Mode, L: Layout, h: nat, size: nat, curSector: byte,
      curSoffset: nat, curEntry: byte, curSindex: byte) {
    match mode
    case Proper => h in L.files && WriteSpot(g, L.files[h], size, curSector, curSoffset, curEntry, curSindex) && curSector < g.sectors
    case Slipping =>
      && h in L.files && LastSpot(g, L.files[h], size, curSector, curSoffset, curEntry) && curSector < g.sectors
      && Base(|L.files[h].chain| - 1) + Advance(curSindex) as int < |L.files[h].secs|
    case Torn => TornSpot(g, L, h, size, curSector, curSoffset, curEntry, curSindex)
  }

  /** What has become of the store while `done` was written in a mode. */
  ghost predicate WrittenIn(g: Geometry, mode: Mode, S0: Snapshot, S: Snapshot, h: nat, n: nat, done: seq<byte>) {
    if mode == Torn then Touched(g, S0, S, h) else Appended(g, S0, S, h, n, done)
  }

  lemma NothingWritten(g: Geometry, mode: Mode, S: Snapshot, h: nat, size: nat, curSector: byte,
      curSoffset: nat, curEntry: byte, curSindex: byte)
    requires StoreOk(g, S) && InMode(g, mode, S.L, h, size, curSector, curSoffset, curEntry, curSindex)
    ensures h in S.L.files && WrittenIn(g, mode, S, S, h, size, []) && curSoffset < g.sectorSize
  {
    hide StoreOk, Times, Touched, Appended;
    SeatOffset(g, mode, S.L, h, size, curSector, curSoffset, curEntry, curSindex);
    if mode == Torn {
      TouchedNot(g, S, h);
    } else {
      AppendNothing(g, S, h, size);
    }
  }

  lemma SeatOffset(g: Geometry, mode: Mode, L: Layout, h: nat, size: nat, curSector: byte, curSoffset: nat,
      curEntry: byte, curSindex: byte)
    requires InMode(g, mode, L, h, size, curSector, curSoffset, curEntry, curSindex)
    ensures h in L.files && curSoffset < g.sectorSize
      && (mode != Torn ==> size <= Times(g.sectorSize, |L.files[h].secs|))
  {
    if mode != Torn && L.files[h].secs != [] {
      var n := |L.files[h].secs|;
      assert Times(g.sectorSize, n) == Times(g.sectorSize, n - 1) + g.sectorSize;
    }
  }

  /** In the middle of a sector a handle has a place to write to. */
  lemma SeatIsSpot(g: Geometry, mode: Mode, L: Layout, h: nat, size: nat, curSector: byte, curSoffset: nat,
      curEntry: byte, curSindex: byte)
    requires InMode(g, mode, L, h, size, curSector, curSoffset, curEntry, curSindex) && curSoffset != 0
    ensures SpotInMode(g, mode, L, h, size, curSector, curSoffset, curEntry, curSindex)
  {
    SeatOffset(g, mode, L, h, size, curSector, curSoffset, curEntry, curSindex);
    if mode == Torn {
      var q: nat :| Overcounts(g, L, h, size, curSoffset, q);
      assert size == Times(g.sectorSize, q) + curSoffset;
    } else {
      var n := |L.files[h].secs|;
      assert Times(g.sectorSize, n) == Times(g.sectorSize, n - 1) + g.sectorSize;
    }
  }

  /** After `len` bytes at its place a handle is ready again. */
  lemma SpotToSeat(g: Geometry, mode: Mode, L: Layout, h: nat, size: nat, curSector: byte, curSoffset: nat,
      curEntry: byte, curSindex: byte, len: nat)
    requires SpotInMode(g, mode, L, h, size, curSector, curSoffset, curEntry, curSindex)
    requires 0 < len && curSoffset + len <= g.sectorSize
    ensures InMode(g, mode, L, h, size + len, curSector, (curSoffset + len) % g.sectorSize, curEntry, curSindex)
  {
    var z := g.sectorSize;
    ModUpTo(curSoffset + len, z);
    if mode == Torn {
      var q: nat :| size == Times(z, q) + curSoffset && |L.files[h].secs| < q + 1 <= |L.files[h].secs| + |L.lost|;
      var q' := if curSoffset + len == z then q + 1 else q;
      assert Times(z, q + 1) == Times(z, q) + z;
      assert Overcounts(g, L, h, size + len, (curSoffset + len) % z, q');
    } else {
      var n := |L.files[h].secs|;
      assert Times(z, n) == Times(z, n - 1) + z;
    }
  }

  /** Bytes put at the place of a handle are written in its mode. */
  lemma ChunkInMode(g: Geometry, mode: Mode, S0: Snapshot, S: Snapshot, S': Snapshot, h: nat, n: nat, done: seq<byte>, chunk: seq<byte>,
                    size: nat, curSector: byte, curSoffset: nat, curEntry: byte, curSindex: byte)
    requires StoreOk(g, S) && SpotInMode(g, mode, S.L, h, size, curSector, curSoffset, curEntry, curSindex)
    requires WrittenIn(g, mode, S0, S, h, n, done) && size == n + |done| && curSoffset + |chunk| <= g.sectorSize
    requires (curSector as int) < |S.data| && |S.data[curSector]| == g.sectorSize
    requires S' == S.(data := S.data[curSector := Splice(S.data[curSector], curSoffset, chunk)])
    ensures StoreOk(g, S') && WrittenIn(g, mode, S0, S', h, n, done + chunk)
  {
    hide StoreOk, Appended, Touched, Times, Splice;
    if mode == Torn {
      PieceTouches(g, S, S', h, curSector, curSoffset, chunk);
      TouchedMore(g, S0, S, S', h);
      TouchedFacts(g, S, S', h);
    } else {
      ChunkAppends(g, S, S', h, curSoffset, chunk);
      AppendMore(g, S0, S, S', h, n, done, chunk);
      AppendedFacts(g, S, S', h, size, chunk);
    }
  }

  lemma TouchedFacts(g: Geometry, S: Snapshot, S': Snapshot, h: nat)
    requires Touched(g, S, S', h)
    ensures StoreOk(g, S') && h in S.L.files
  {
  }

  // ----- how the handle stands after a sector was added -----

  /** A handle without a sector to write to, whose size is all of its file or more; if it is just all, the next sector goes over another. */
  ghost predicate Drifting(g: Geometry, L: Layout, h: nat, size: nat, curEntry: byte, curSindex: byte) {
    && h in L.files && SlotInUse(L.files[h], 0, curSindex)
    && curEntry as int == L.files[h].chain[|L.files[h].chain| - 1]
    && exists q: nat :: Counting(g, L, h, size, curSindex, q)
  }

  ghost predicate Counting(g: Geometry, L: Layout, h: nat, size: nat, curSindex: byte, q: nat)
    requires h in L.files && L.files[h].chain != []
  {
    && size == Times(g.sectorSize, q) && |L.files[h].secs| <= q <= |L.files[h].secs| + |L.lost|
    && (q == |L.files[h].secs| ==> Base(|L.files[h].chain| - 1) + Advance(curSindex) as int < |L.files[h].secs|)
  }

  lemma SeatDrifts(g: Geometry, mode: Mode, L: Layout, h: nat, size: nat, curSector: byte, curEntry: byte,
      curSindex: byte)
    requires InMode(g, mode, L, h, size, curSector, 0, curEntry, curSindex) && mode != Proper
    ensures Drifting(g, L, h, size, curEntry, curSindex) && curSector < g.sectors
  {
    if mode == Torn {
      var q: nat :| Overcounts(g, L, h, size, 0, q);
      assert Counting(g, L, h, size, curSindex, q);
    } else {
      assert Counting(g, L, h, size, curSindex, |L.files[h].secs|);
    }
  }

  /** Which slot a drifting handle takes next: one in use, the next one, or the first of a new entry. */
  lemma DriftingSlot(g: Geometry, L: Layout, h: nat, size: nat, curEntry: byte, curSindex: byte)
    requires Drifting(g, L, h, size, curEntry, curSindex)
    requires Base(|L.files[h].chain| - 1) <= |L.files[h].secs| <= Base(|L.files[h].chain|)
    requires |L.files[h].chain| > 1 ==> Base(|L.files[h].chain| - 1) < |L.files[h].secs|
    ensures var f, i := L.files[h], Advance(curSindex);
      var m := Base(|f.chain|) - Base(|f.chain| - 1);
      && (i as int < m ==> Base(|f.chain| - 1) + i as int <= |f.secs|)
      && (i as int >= m ==>
        |f.secs| == Base(|f.chain|) && (Drifting(g, L, h, size, curEntry, i) && exists q: nat :: Overcounts(g, L, h, size, 0, q)))
  {
    var f, i := L.files[h], Advance(curSindex);
    var m := Base(|f.chain|) - Base(|f.chain| - 1);
    var q: nat :| Counting(g, L, h, size, curSindex, q);
    if i as int >= m {
      assert q > |f.secs|;
      assert Counting(g, L, h, size, i, q);
      assert Overcounts(g, L, h, size, 0, q);
    }
  }

  lemma TornInEntry(g: Geometry, L: Layout, h: nat, size: nat, s: byte, curEntry: byte, curSindex: byte)
    requires Drifting(g, L, h, size, curEntry, curSindex) && s < g.sectors
    requires Base(|L.files[h].chain| - 1) + Advance(curSindex) as int == |L.files[h].secs| && Advance(curSindex) < 30
    ensures TornSpot(g, Grown(L, h, s), h, size, s, 0, curEntry, Advance(curSindex))
  {
    var q: nat :| Counting(g, L, h, size, curSindex, q);
    var L' := Grown(L, h, s);
    assert L'.files[h].secs[|L.files[h].secs|] == s as int;
    assert size == Times(g.sectorSize, q) + 0 && |L'.files[h].secs| < q + 1 <= |L'.files[h].secs| + |L'.lost|;
  }

  lemma TornOverSlot(g: Geometry, L: Layout, L': Layout, h: nat, size: nat, s: byte, curEntry: byte, curSindex: byte)
    requires Drifting(g, L, h, size, curEntry, curSindex) && s < g.sectors && Advance(curSindex) < 30
    requires Base(|L.files[h].chain| - 1) + Advance(curSindex) as int < |L.files[h].secs|
    requires L' == Swapped(L, h, Base(|L.files[h].chain| - 1) + Advance(curSindex) as int, s)
      && |L'.lost| == |L.lost| + 1
    ensures TornSpot(g, L', h, size, s, 0, curEntry, Advance(curSindex))
  {
    var q: nat :| Counting(g, L, h, size, curSindex, q);
    assert L'.files[h].secs[Base(|L.files[h].chain| - 1) + Advance(curSindex) as int] == s as int;
    assert size == Times(g.sectorSize, q) + 0 && |L'.files[h].secs| < q + 1 <= |L'.files[h].secs| + |L'.lost|;
  }

  lemma TornInNewEntry(g: Geometry, L: Layout, h: nat, size: nat, s: byte, e: byte)
    requires h in L.files && |L.files[h].secs| == Base(|L.files[h].chain|) && s < g.sectors
    requires exists q: nat :: Overcounts(g, L, h, size, 0, q)
    ensures TornSpot(g, Extended(L, h, e, s), h, size, s, 0, e, 0)
  {
    var q: nat :| Overcounts(g, L, h, size, 0, q);
    var L' := Extended(L, h, e, s);
    assert L'.files[h].secs[|L.files[h].secs|] == s as int;
    assert size == Times(g.sectorSize, q) + 0 && |L'.files[h].secs| < q + 1 <= |L'.files[h].secs| + |L'.lost|;
  }

  lemma TornWaits(g: Geometry, L: Layout, h: nat, size: nat, curSector: byte, curEntry: byte, curSindex: byte)
    requires Drifting(g, L, h, size, curEntry, curSindex) && curSector < g.sectors && exists q: nat :: Overcounts(g, L, h, size, 0, q)
    ensures TornSeat(g, L, h, size, curSector, 0, curEntry, curSindex)
  {
  }

  /** Refused an entry so often that its slot index starts over, a handle will put its next sector over the first of the entry. */
  lemma RefusedTooOften(g: Geometry, f: File, size: nat, curSector: byte, curEntry: byte, s: byte)
    requires WriteSeat(g, f, size, curSector, 0, curEntry, 254) && s < g.sectors
    requires |f.secs| == Base(|f.chain|) && (|f.chain| > 1 ==> Base(|f.chain| - 1) < |f.secs|)
    ensures SlipSeat(g, f, size, s, 0, curEntry, 255)
  {
  }

  lemma SpotFacts(g: Geometry, mode: Mode, S: Snapshot, h: nat, size: nat, curSector: byte, curSoffset: nat,
      curEntry: byte, curSindex: byte)
    requires StoreOk(g, S) && SpotInMode(g, mode, S.L, h, size, curSector, curSoffset, curEntry, curSindex)
    ensures curSector < g.sectors && curSoffset < g.sectorSize
    ensures (curSector as int) < |S.data| && |S.data[curSector]| == g.sectorSize
  {
    hide Structure, Bookkeeping, NamesUnique, SizesFit;
  }

  lemma ReadyFacts(g: Geometry, mode: Mode, L: Layout, h: nat, size: nat, curSector: byte, curEntry: byte,
      curSindex: byte)
    requires InMode(g, mode, L, h, size, curSector, 0, curEntry, curSindex)
    ensures h in L.files && L.files[h].chain != [] && curEntry as int == L.files[h].chain[|L.files[h].chain| - 1]
      && curSector < g.sectors
    ensures mode == Proper ==> size == Times(g.sectorSize, |L.files[h].secs|)
  {
  }

  lemma FullBefore(g: Geometry, dir: seq<Entry>, L: Layout, h: nat)
    requires Structure(g, dir, L) && h in L.files
    ensures |L.files[h].chain| > 1 ==> Base(|L.files[h].chain| - 1) < |L.files[h].secs|
  {
    assert FileOk(g, dir, h, L.files[h]);
  }

  /** Where the next sector of the handle goes, and how the handle waits if it cannot go there. */
  lemma SlotOf(g: Geometry, mode: Mode, L: Layout, h: nat, size: nat, curSector: byte, curEntry: byte,
      curSindex: byte, s: byte)
    requires InMode(g, mode, L, h, size, curSector, 0, curEntry, curSindex) && s < g.sectors && h in L.files
    requires Base(|L.files[h].chain| - 1) <= |L.files[h].secs| <= Base(|L.files[h].chain|)
    requires L.files[h].secs == [] ==> |L.files[h].chain| == 1
    requires |L.files[h].chain| > 1 ==> Base(|L.files[h].chain| - 1) < |L.files[h].secs|
    ensures var f, i := L.files[h], Advance(curSindex);
      var m := Base(|f.chain|) - Base(|f.chain| - 1);
      && (i as int < m ==> Base(|f.chain| - 1) + i as int <= |f.secs| && i < 30)
      && (i as int < m && mode == Proper ==> Base(|f.chain| - 1) + i as int == |f.secs|)
      && (i as int >= m ==>
           (&& |f.secs| == Base(|f.chain|) && mode != Slipping
            && (mode == Torn ==> exists q: nat :: Overcounts(g, L, h, size, 0, q))
            && InMode(g, if mode == Proper && i == 255 then Slipping else mode, L, h, size, s, 0, curEntry, i)))
    ensures mode != Proper ==> Drifting(g, L, h, size, curEntry, curSindex)
  {
    hide Times;
    var f := L.files[h];
    if mode == Proper {
      NextSlot(g, f, size, curSector, curEntry, curSindex, s);
      if curSindex == 254 {
        NextSlotRange(g, f, size, curSector, curEntry, curSindex);
        RefusedTooOften(g, f, size, curSector, curEntry, s);
      }
    } else {
      SeatDrifts(g, mode, L, h, size, curSector, curEntry, curSindex);
      DriftingSlot(g, L, h, size, curEntry, curSindex);
      if mode == Torn && Advance(curSindex) as int >= Base(|f.chain|) - Base(|f.chain| - 1) {
        TornWaits(g, L, h, size, s, curEntry, Advance(curSindex));
      }
    }
  }

  lemma NextSlotRange(g: Geometry, f: File, size: nat, curSector: byte, curEntry: byte, curSindex: byte)
    requires WriteSeat(g, f, size, curSector, 0, curEntry, curSindex) && curSindex == 254
    requires Base(|f.chain| - 1) <= |f.secs| <= Base(|f.chain|)
    ensures |f.secs| == Base(|f.chain|)
  {
  }

  /** After a sector was entered in the last entry the handle has a place to write to. */
  lemma EnteredFacts(g: Geometry, mode: Mode, L: Layout, L': Layout, h: nat, size: nat, s: byte, curEntry: byte,
      curSindex: byte)
    requires h in L.files && L.files[h].chain != [] && curEntry as int == L.files[h].chain[|L.files[h].chain| - 1]
      && s < g.sectors
    requires var k := Base(|L.files[h].chain| - 1) + Advance(curSindex) as int;
      && k <= |L.files[h].secs| && Advance(curSindex) < 30
      && (mode == Proper ==> k == |L.files[h].secs|)
      && if k == |L.files[h].secs| then L' == Grown(L, h, s) else L' == Swapped(L, h, k, s) && |L'.lost| == |L.lost| + 1
    requires if mode == Proper then size == Times(g.sectorSize, |L.files[h].secs|) else Drifting(g, L, h, size, curEntry, curSindex)
    ensures SpotInMode(g, if mode == Proper then Proper else Torn, L', h, size, s, 0, curEntry, Advance(curSindex))
  {
    hide Grown, Swapped, Drifting, Times, WriteSpot, TornSpot, Base;
    if mode == Proper {
      SpotInEntry(g, L, h, s, curEntry, Advance(curSindex));
    } else if Base(|L.files[h].chain| - 1) + Advance(curSindex) as int == |L.files[h].secs| {
      TornInEntry(g, L, h, size, s, curEntry, curSindex);
    } else {
      TornOverSlot(g, L, L', h, size, s, curEntry, curSindex);
    }
  }

  lemma LinkedFacts(g: Geometry, mode: Mode, L: Layout, h: nat, size: nat, s: byte, e: byte)
    requires h in L.files && |L.files[h].secs| == Base(|L.files[h].chain|) && s < g.sectors
    requires if mode == Proper then size == Times(g.sectorSize, |L.files[h].secs|) else exists q: nat :: Overcounts(g, L, h, size, 0, q)
    ensures SpotInMode(g, if mode == Proper then Proper else Torn, Extended(L, h, e, s), h, size, s, 0, e, 0)
  {
    hide Times, Overcounts, Extended, WriteSpot, TornSpot, Base;
    if mode == Proper {
      SpotInNewEntry(g, L, h, s, e);
    } else {
      TornInNewEntry(g, L, h, size, s, e);
    }
  }

  lemma WrittenIs(g: Geometry, mode: Mode, S0: Snapshot, S: Snapshot, h: nat, n: nat, done: seq<byte>)
    requires WrittenIn(g, mode, S0, S, h, n, done)
    ensures if mode == Torn then Touched(g, S0, S, h) else Appended(g, S0, S, h, n, done)
  {
    hide Touched, Appended;
  }

  /** The size of any file being written can be recorded. */
  lemma SeatRecords(g: Geometry, mode: Mode, S: Snapshot, h: nat, size: nat, curSector: byte, curSoffset: nat,
      curEntry: byte, curSindex: byte)
    requires StoreOk(g, S) && InMode(g, mode, S.L, h, size, curSector, curSoffset, curEntry, curSindex)
    ensures h in S.L.files && size < 65536
      && (size <= Times(g.sectorSize, |S.L.files[h].secs|) || S.L.files[h].secs != [])
    ensures mode == Torn ==> size > Times(g.sectorSize, |S.L.files[h].secs|)
  {
    hide StoreOk;
    SeatOffset(g, mode, S.L, h, size, curSector, curSoffset, curEntry, curSindex);
    if mode == Torn {
      var q: nat :| Overcounts(g, S.L, h, size, curSoffset, q);
      var n, c := |S.L.files[h].secs|, q + (if curSoffset == 0 then 0 else 1);
      HeldBound(g, S, h);
      assert Times(g.sectorSize, q + 1) == Times(g.sectorSize, q) + g.sectorSize;
      TimesBound(g.sectorSize, c);
      if n < q {
        TimesGrow(g.sectorSize, n, q);
      }
    } else {
      SizesStaySmall(g, S, h);
    }
  }

  lemma SameInMode(g: Geometry, mode: Mode, mode': Mode, S0: Snapshot, S: Snapshot, S': Snapshot, h: nat,
      n: nat, done: seq<byte>)
    requires WrittenIn(g, mode, S0, S, h, n, done) && S' == S && (mode' == Torn <==> mode == Torn)
    ensures WrittenIn(g, mode', S0, S', h, n, done)
  {
  }

  /** A sector added in a mode is no byte written. */
  lemma GrownInMode(g: Geometry, mode: Mode, mode': Mode, S0: Snapshot, S: Snapshot, S': Snapshot, h: nat,
      n: nat, done: seq<byte>, s: nat)
    requires mode' == if mode == Proper then Proper else Torn
    requires StoreOk(g, S) && WrittenIn(g, mode, S0, S, h, n, done) && h in S.L.files
    requires mode == Proper ==> GrowStep(g, S, S', h, s) && n + |done| <= Times(g.sectorSize, |S.L.files[h].secs|)
    requires mode != Proper ==> Touched(g, S, S', h)
    ensures WrittenIn(g, mode', S0, S', h, n, done)
  {
    hide StoreOk, GrowStep, Appended, Touched, Times;
    if mode == Proper {
      GrowAppendsNothing(g, S, S', h, s, n + |done|);
      AppendMore(g, S0, S, S', h, n, done, []);
      assert done + [] == done;
    } else {
      if mode == Slipping {
        AppendedTouches(g, S0, S, h, n, done);
      }
      TouchedMore(g, S0, S, S', h);
    }
  }

  function Advance(curSindex: byte): byte {
    if curSindex == 255 then 0 else curSindex + 1
  }

  lemma SeatFacts(g: Geometry, f: File, size: nat, curSector: byte, curEntry: byte, curSindex: byte)
    requires WriteSeat(g, f, size, curSector, 0, curEntry, curSindex)
    ensures f.chain != [] && curEntry as int == f.chain[|f.chain| - 1] && curSector < g.sectors
    ensures size == Times(g.sectorSize, |f.secs|)
  {
  }

  /** The advanced slot index tells whether the file's last entry has room, and is then its next slot. */
  lemma NextSlot(g: Geometry, f: File, size: nat, curSector: byte, curEntry: byte, curSindex: byte, s: byte)
    requires WriteSeat(g, f, size, curSector, 0, curEntry, curSindex) && s < g.sectors
    requires Base(|f.chain| - 1) <= |f.secs| <= Base(|f.chain|)
    requires f.secs == [] ==> |f.chain| == 1
    ensures var i := Advance(curSindex);
      && (i as int >= Base(|f.chain|) - Base(|f.chain| - 1) ==>
           (&& |f.secs| == Base(|f.chain|)
            && (WriteSeat(g, f, size, s, 0, curEntry, i) <==> i < 255)))
      && (i as int < Base(|f.chain|) - Base(|f.chain| - 1) ==>
           |f.secs| == Base(|f.chain| - 1) + i as int && |f.secs| < Base(|f.chain|))
  {
  }

  lemma SpotInEntry(g: Geometry, L: Layout, h: nat, s: byte, e: byte, i: byte)
    requires h in L.files && L.files[h].chain != [] && e as int == L.files[h].chain[|L.files[h].chain| - 1]
    requires |L.files[h].secs| == Base(|L.files[h].chain| - 1) + i as int
    ensures h in Grown(L, h, s).files
    ensures WriteSpot(g, Grown(L, h, s).files[h], Times(g.sectorSize, |L.files[h].secs|), s, 0, e, i)
  {
  }

  lemma SpotInNewEntry(g: Geometry, L: Layout, h: nat, s: byte, e: byte)
    requires h in L.files && |L.files[h].secs| == Base(|L.files[h].chain|)
    ensures h in Extended(L, h, e, s).files
    ensures WriteSpot(g, Extended(L, h, e, s).files[h], Times(g.sectorSize, |L.files[h].secs|), s, 0, e, 0)
  {
  }

  lemma ModUpTo(x: nat, z: nat)
    requires 0 < z && x <= z
    ensures x % z == if x == z then 0 else x
  {
  }

  /** The next byte is read from offset `curSoffset` of a sector of `h`, unless the handle is at its end. */
  ghost predicate ReadSeat(g: Geometry, L: Layout, h: nat, size: nat, curOffset: nat,
                           curSector: byte, curSoffset: nat, curEntry: byte, curSindex: byte) {
    && h in L.files && curOffset <= size && curOffset <= Times(g.sectorSize, |L.files[h].secs|)
    && (curOffset < size ==> ReadSpot(g, L, h, curOffset, curSector, curSoffset, curEntry, curSindex))
  }

  ghost predicate ReadSpot(g: Geometry, L: Layout, h: nat, curOffset: nat,
                           curSector: byte, curSoffset: nat, curEntry: byte, curSindex: byte) {
    && h in L.files
    && curEntry as int in L.entOwner && L.entOwner[curEntry as int].file == h
    && var c := L.entOwner[curEntry as int].index;
    && var k := Base(c) + curSindex as int;
    && k < Base(c + 1) && k < |L.files[h].secs|
    && curSector as int == L.files[h].secs[k]
    && curOffset == Times(g.sectorSize, k) + curSoffset && curSoffset < g.sectorSize
  }

  /** Reading stands inside the sector that holds the contents around `curOffset`. */
  lemma ReadChunk(g: Geometry, S: Snapshot, h: nat, curOffset: nat, curSector: byte, curSoffset: nat,
                  curEntry: byte, curSindex: byte, len: nat)
    requires StoreOk(g, S) && ReadSpot(g, S.L, h, curOffset, curSector, curSoffset, curEntry, curSindex)
    requires curSoffset + len <= g.sectorSize
    ensures curSector < g.sectors && h in ViewOf(S).contents && curOffset + len <= |ViewOf(S).contents[h]|
    ensures S.data[curSector][curSoffset..curSoffset + len] == ViewOf(S).contents[h][curOffset..curOffset + len]
  {
    hide StoreOk, Structure, Splice, Times, EntryOk, Flat, NamesOf, SizesOf, Base;
    var secs := S.L.files[h].secs;
    var k := Base(S.L.entOwner[curEntry as int].index) + curSindex as int;
    ContentsLength(g, S, h);
    DataFacts(g, S, h);
    FlatAt(g.sectorSize, S.data, secs, k);
    SliceOfSlice(Flat(S.data, secs), Times(g.sectorSize, k), g.sectorSize, curSoffset, len);
  }

  lemma Adjoin(q: seq<byte>, a: nat, b: nat, c: nat)
    requires a <= b <= c <= |q|
    ensures q[a..b] + q[b..c] == q[a..c]
  {
  }

  lemma SliceOfSlice(q: seq<byte>, a: nat, z: nat, b: nat, len: nat)
    requires b + len <= z && a + z <= |q|
    ensures q[a..a + z][b..b + len] == q[a + b..a + b + len]
  {
    var x, y := q[a..a + z][b..b + len], q[a + b..a + b + len];
    assert forall i :: 0 <= i < len ==> x[i] == y[i];
  }

  /** The entry a read stands in, seen from the directory. */
  lemma ReadEntryFacts(g: Geometry, S: Snapshot, h: nat, curOffset: nat, curSector: byte, curSoffset: nat,
                       curEntry: byte, curSindex: byte)
    requires StoreOk(g, S) && ReadSpot(g, S.L, h, curOffset, curSector, curSoffset, curEntry, curSindex)
    ensures curEntry < g.entries && (curEntry as int) < |S.dir|
    ensures var c := S.L.entOwner[curEntry as int].index;
      && c < |S.L.files[h].chain| && S.L.files[h].chain[c] == curEntry as int
      && EntryOk(S.dir[curEntry], S.L.files[h], c)
      && |S.L.files[h].secs| <= Base(|S.L.files[h].chain|)
      && (forall k :: 0 <= k < |S.L.files[h].secs| ==> S.L.files[h].secs[k] < g.sectors)
  {
    hide StoreOk, Structure, EntryOk;
    StoreFacts(g, S);
    EntryInChain(g, S.dir, S.L, curEntry);
    ChainEntryFacts(g, S.dir, S.L, h, S.L.entOwner[curEntry as int].index);
    DataFacts(g, S, h);
  }

  /** At the end of a sector the next slot of the same entry names the file's next sector. */
  lemma NextReadSlot(g: Geometry, S: Snapshot, h: nat, curOffset: nat, curSector: byte, curSoffset: nat,
                     curEntry: byte, curSindex: byte, next: nat)
    requires StoreOk(g, S) && ReadSpot(g, S.L, h, curOffset, curSector, curSoffset, curEntry, curSindex)
    requires next == curOffset - curSoffset + g.sectorSize < Times(g.sectorSize, |S.L.files[h].secs|)
    requires (curEntry as int) < |S.dir| && curSindex as int + 1 < MaxSectors(S.dir[curEntry])
    ensures S.dir[curEntry][curSindex + 1] != NONE
    ensures ReadSpot(g, S.L, h, next, S.dir[curEntry][curSindex + 1], 0, curEntry, curSindex + 1)
  {
    hide StoreOk, Structure;
    ReadEntryFacts(g, S, h, curOffset, curSector, curSoffset, curEntry, curSindex);
    var c := S.L.entOwner[curEntry as int].index;
    MoreSectors(g.sectorSize, Base(c) + curSindex as int, |S.L.files[h].secs|);
  }

  /** At the end of a full entry the link names the entry whose first slot is the file's next sector. */
  lemma NextReadEntry(g: Geometry, S: Snapshot, h: nat, curOffset: nat, curSector: byte, curSoffset: nat,
                      curEntry: byte, curSindex: byte, next: nat)
    requires StoreOk(g, S) && ReadSpot(g, S.L, h, curOffset, curSector, curSoffset, curEntry, curSindex)
    requires next == curOffset - curSoffset + g.sectorSize < Times(g.sectorSize, |S.L.files[h].secs|)
    requires (curEntry as int) < |S.dir| && curSindex as int + 1 >= MaxSectors(S.dir[curEntry])
    ensures AtEntryStart(g, S, h, next, Next(S.dir[curEntry]))
  {
    hide StoreOk, Structure, FileOk, EntriesOwned, SectorsOwned, Deleted, EntryOk, Times;
    var f, c := S.L.files[h], S.L.entOwner[curEntry as int].index;
    ReadEntryFacts(g, S, h, curOffset, curSector, curSoffset, curEntry, curSindex);
    MoreSectors(g.sectorSize, Base(c) + curSindex as int, |f.secs|);
    SlotsOf(S.dir[curEntry], f, c);
    assert Base(c + 1) == Base(c) + curSindex as int + 1;
    TimesNext(g.sectorSize, Base(c) + curSindex as int);
    EntryAfter(g, S, h, c);
  }

  lemma TimesNext(z: nat, k: nat)
    ensures Times(z, k + 1) == Times(z, k) + z
  {
  }

  lemma SlotsOf(e: Entry, f: File, c: nat)
    requires EntryOk(e, f, c)
    ensures MaxSectors(e) == Base(c + 1) - Base(c) && Next(e) as int == if c + 1 < |f.chain| then f.chain[c + 1] else NONE
  {
  }

  /** The entry behind position `c` of a file that has more sectors than the entries up to there. */
  lemma EntryAfter(g: Geometry, S: Snapshot, h: nat, c: nat)
    requires StoreOk(g, S) && h in S.L.files && c < |S.L.files[h].chain| && Base(c + 1) < |S.L.files[h].secs|
    ensures var f := S.L.files[h];
      && c + 1 < |f.chain| && f.chain[c + 1] < |S.dir| == g.entries
      && f.chain[c + 1] in S.L.entOwner && S.L.entOwner[f.chain[c + 1]] == Place(h, c + 1)
      && S.dir[f.chain[c + 1]][0] as int == f.secs[Base(c + 1)] < g.sectors
  {
    hide StoreOk, Structure, EntryOk;
    var f := S.L.files[h];
    StoreFacts(g, S);
    DataFacts(g, S, h);
    LastEntryFacts(g, S.dir, S.L, h);
    BaseMonotone(|f.chain|, if |f.chain| <= c + 1 then c + 1 else |f.chain|);
    ChainEntryFacts(g, S.dir, S.L, h, c + 1);
    FirstSlot(S.dir[f.chain[c + 1]], f, c + 1);
  }

  lemma FirstSlot(e: Entry, f: File, c: nat)
    requires EntryOk(e, f, c) && Base(c) < |f.secs|
    ensures e[0] as int == f.secs[Base(c)]
  {
  }

  /** Behind the last sector of the file the entry names no other one, neither in its next slot nor by its link. */
  lemma NoNextSector(g: Geometry, S: Snapshot, h: nat, curOffset: nat, curSector: byte, curSoffset: nat,
                     curEntry: byte, curSindex: byte, next: nat)
    requires StoreOk(g, S) && ReadSpot(g, S.L, h, curOffset, curSector, curSoffset, curEntry, curSindex)
    requires next == curOffset - curSoffset + g.sectorSize >= Times(g.sectorSize, |S.L.files[h].secs|)
    ensures next == Times(g.sectorSize, |S.L.files[h].secs|) && (curEntry as int) < |S.dir|
    ensures if curSindex as int + 1 < MaxSectors(S.dir[curEntry]) then S.dir[curEntry][curSindex + 1] == NONE
            else Next(S.dir[curEntry]) == NONE
  {
    hide StoreOk, Structure, FileOk, EntriesOwned, SectorsOwned, Deleted, EntryOk, Times;
    var f, c := S.L.files[h], S.L.entOwner[curEntry as int].index;
    ReadEntryFacts(g, S, h, curOffset, curSector, curSoffset, curEntry, curSindex);
    LastSlotNow(g.sectorSize, Base(c) + curSindex as int, |f.secs|, next);
    LastEntryNow(g, S, h, c, curSindex);
    SlotBehind(S.dir[curEntry], f, c, curSindex);
  }

  lemma LastSlotNow(z: nat, k: nat, n: nat, next: nat)
    requires 0 < z && k < n && next == Times(z, k) + z >= Times(z, n)
    ensures k + 1 == n && next == Times(z, n)
  {
    TimesGrow(z, k + 1, n);
  }

  lemma LastEntryNow(g: Geometry, S: Snapshot, h: nat, c: nat, curSindex: byte)
    requires StoreOk(g, S) && h in S.L.files && c < |S.L.files[h].chain|
    requires Base(c) + curSindex as int + 1 == |S.L.files[h].secs| <= Base(c + 1)
    ensures c == |S.L.files[h].chain| - 1
  {
    hide StoreOk, Structure;
    StoreFacts(g, S);
    if c + 1 < |S.L.files[h].chain| {
      BaseMonotone(c + 1, |S.L.files[h].chain| - 1);
      MoreThanFull(g, S.dir, S.L, h);
    }
  }

  lemma SlotBehind(e: Entry, f: File, c: nat, slot: byte)
    requires EntryOk(e, f, c) && c == |f.chain| - 1 && Base(c) + slot as int + 1 == |f.secs|
    ensures if slot as int + 1 < MaxSectors(e) then e[slot + 1] == NONE else Next(e) == NONE
  {
  }

  lemma MoreThanFull(g: Geometry, dir: seq<Entry>, L: Layout, h: nat)
    requires Structure(g, dir, L) && h in L.files && |L.files[h].chain| > 1
    ensures Base(|L.files[h].chain| - 1) < |L.files[h].secs|
  {
    assert FileOk(g, dir, h, L.files[h]);
  }

  lemma ReadSpotFacts(g: Geometry, L: Layout, h: nat, curOffset: nat, curSector: byte, curSoffset: nat,
      curEntry: byte, curSindex: byte)
    requires ReadSpot(g, L, h, curOffset, curSector, curSoffset, curEntry, curSindex)
    ensures curSoffset < g.sectorSize && curSoffset <= curOffset
  {
  }

  lemma SpotInside(g: Geometry, S: Snapshot, h: nat, curOffset: nat, curSector: byte, curSoffset: nat,
                   curEntry: byte, curSindex: byte, len: nat)
    requires ReadSpot(g, S.L, h, curOffset, curSector, curSoffset, curEntry, curSindex)
      && curSoffset + len <= g.sectorSize
    ensures curOffset + len <= Times(g.sectorSize, |S.L.files[h].secs|)
    ensures curSoffset + len < g.sectorSize ==> curOffset + len < Times(g.sectorSize, |S.L.files[h].secs|)
  {
    TimesGrow(g.sectorSize, Base(S.L.entOwner[curEntry as int].index) + curSindex as int, |S.L.files[h].secs|);
  }

  lemma StayInSector(g: Geometry, L: Layout, h: nat, curOffset: nat, curSector: byte, curSoffset: nat,
                     curEntry: byte, curSindex: byte, len: nat)
    requires ReadSpot(g, L, h, curOffset, curSector, curSoffset, curEntry, curSindex)
    ensures curSoffset < g.sectorSize && curSoffset <= curOffset
    ensures curSoffset + len < g.sectorSize ==>
      ReadSpot(g, L, h, curOffset + len, curSector, curSoffset + len, curEntry, curSindex)
  {
  }

  /** Byte `next` of the file is the first one behind the link `e`. */
  ghost predicate AtEntryStart(g: Geometry, S: Snapshot, h: nat, next: nat, e: byte) {
    && e != NONE && e < g.entries && (e as int) < |S.dir| && S.dir[e][0] != NONE
    && ReadSpot(g, S.L, h, next, S.dir[e][0], 0, e, 0)
  }

  lemma MoreSectors(z: nat, k: nat, n: nat)
    requires Times(z, k) + z < Times(z, n)
    ensures k + 1 < n
  {
    if n < k + 1 {
      TimesGrow(z, n, k + 1);
    }
  }

  /** The slots in front of slot `n` are in use, and slot `n` is not. */
  ghost predicate UsedSlots(e: Entry, n: nat) {
    && n <= MaxSectors(e)
    && (forall j :: 0 <= j < n ==> e[j] != NONE)
    && (n < MaxSectors(e) ==> e[n] == NONE)
  }

  /** How many sectors the last entry of a file holds. */
  function LastHeld(f: File): int
    requires f.chain != []
  {
    |f.secs| - Base(|f.chain| - 1)
  }

  /** A file whose size ends in its last sector, as closing leaves it. */
  ghost predicate WellEnded(g: Geometry, f: File, size: nat) {
    f.chain != [] && SizeEndsIn(g.sectorSize, |f.secs|, size)
  }

  lemma AppendSeat(g: Geometry, f: File, size: nat, curSector: byte, curEntry: byte, e: Entry, slot: nat)
    requires f.chain != [] && EntryOk(e, f, |f.chain| - 1) && curEntry as int == f.chain[|f.chain| - 1]
    requires Base(|f.chain| - 1) <= |f.secs| <= Base(|f.chain|)
    requires forall k :: 0 <= k < |f.secs| ==> f.secs[k] < g.sectors
    requires slot < MaxSectors(e) && curSector == e[slot]
    requires exists n: nat :: UsedSlots(e, n) && slot == if n == 0 then 0 else n - 1
    ensures WriteSeat(g, f, size, curSector, size % g.sectorSize, curEntry, 0) <==> WellEnded(g, f, size) && LastHeld(f) == 1
    ensures SlipSeat(g, f, size, curSector, size % g.sectorSize, curEntry, 0) <==> WellEnded(g, f, size) && LastHeld(f) > 1
  {
    var n: nat :| UsedSlots(e, n) && slot == if n == 0 then 0 else n - 1;
    var c, z := |f.chain| - 1, g.sectorSize;
    assert n == |f.secs| - Base(c) by {
      var m := |f.secs| - Base(c);
      assert m < MaxSectors(e) ==> e[m] == NONE;
      assert forall j :: 0 <= j < m ==> e[j] != NONE;
    }
    if SizeEndsIn(z, |f.secs|, size) && |f.secs| > 0 {
      TimesMod(z, |f.secs| - 1, size - Times(z, |f.secs| - 1));
    }
  }

  lemma {:induction false} TimesMod(z: nat, k: nat, r: nat)
    requires 0 < r <= z
    ensures (Times(z, k) + r) % z == if r == z then 0 else r
  {
    if k == 0 {
      ModUpTo(r, z);
    } else {
      TimesMod(z, k - 1, r);
      ModPlus(Times(z, k - 1) + r, z);
    }
  }

  lemma ModPlus(x: nat, z: nat)
    requires 0 < z
    ensures (x + z) % z == x % z
  {
    var d := (x + z) / z - x / z - 1;
    assert z * d == z * ((x + z) / z) - z * (x / z) - z;
    assert z * d == x % z - (x + z) % z;
    if d >= 1 {
      ProductAtLeast(z, d);
    } else if d <= -1 {
      ProductAtLeast(z, -d);
    }
  }

  lemma {:induction false} ProductAtLeast(z: nat, d: nat)
    requires d >= 1
    ensures z * d >= z
  {
    if d > 1 {
      ProductAtLeast(z, d - 1);
      assert z * d == z * (d - 1) + z;
    }
  }

  /** Some file is called `name`. */
  ghost predicate Taken(v: View, name: seq<byte>) {
    exists h :: h in v.names && v.names[h] == name
  }

  lemma TakenOrNot(v: View, name: seq<byte>, r: byte)
    requires r != NONE ==> r as int in v.names && v.names[r as int] == name
    requires r == NONE ==> forall h :: h in v.names ==> v.names[h] != name
    ensures Taken(v, name) <==> r != NONE
  {
  }

  lemma NamesInDir(dir: seq<Entry>, L: Layout)
    requires Indexed(dir, L)
    ensures NamesOf(dir, L).Keys == L.files.Keys == SizesOf(dir, L).Keys
    ensures forall h :: h in L.files ==> NamesOf(dir, L)[h] == Name(dir[h]) && SizesOf(dir, L)[h] == Size(dir[h])
  {
  }

  lemma OpenedForReading(g: Geometry, S: Snapshot, h: byte, size: nat)
    requires StoreOk(g, S) && h as int in S.L.files && h < g.entries && |S.dir| == g.entries && size == Size(S.dir[h])
    ensures ReadSeat(g, S.L, h, size, 0, S.dir[h][0], 0, h, 0)
  {
    hide StoreOk, Structure, SizesOf, Size, Deleted, IsList, Name;
    var f := S.L.files[h as int];
    StoreFacts(g, S);
    ChainStart(g, S.dir, S.L, h);
    ChainEntryFacts(g, S.dir, S.L, h, 0);
    RecordedFits(g, S, h);
  }

  lemma RecordedFits(g: Geometry, S: Snapshot, h: nat)
    requires StoreOk(g, S) && h in S.L.files && h < |S.dir|
    ensures SizeFits(g.sectorSize, Size(S.dir[h]), S.L, h)
  {
    hide Structure, Bookkeeping, Size;
    assert SizesOf(S.dir, S.L)[h] == Size(S.dir[h]);
  }

  lemma CreatedReady(g: Geometry, S: Snapshot, S': Snapshot, h: byte, name: seq<byte>)
    requires FileCreated(g, S, S', h, name)
    ensures StoreOk(g, S') && h as int in S'.L.files && WriteSeat(g, S'.L.files[h as int], 0, 0, 0, h, 255)
  {
  }

  lemma ChainStart(g: Geometry, dir: seq<Entry>, L: Layout, h: nat)
    requires Structure(g, dir, L) && h in L.files
    ensures L.files[h].chain != [] && L.files[h].chain[0] == h && h < |dir|
  {
    assert FileOk(g, dir, h, L.files[h]);
  }

  /** Only the last entry of a chain carries no link. */
  lemma LinkIsEntry(g: Geometry, dir: seq<Entry>, L: Layout, h: nat, c: nat)
    requires Structure(g, dir, L) && h in L.files && c < |L.files[h].chain| && L.files[h].chain[c] < |dir|
    requires Next(dir[L.files[h].chain[c]]) == NONE
    ensures c == |L.files[h].chain| - 1
  {
    var f := L.files[h];
    assert FileOk(g, dir, h, f) && EntryOk(dir[f.chain[c]], f, c);
  }

  lemma ResizeFacts(g: Geometry, S: Snapshot, h: nat, size: nat)
    requires StoreOk(g, S) && h in S.L.files && h < |S.dir| == g.entries && size < 65536
    ensures var e := WithSize(S.dir[h], size);
      && SameLinks(S.dir[h], e) && Size(e) == size && Name(e) == Name(S.dir[h])
      && forall k :: k in S.L.files && k != h && k < |S.dir| ==> Name(S.dir[k]) != Name(e)
    ensures h in ViewOf(S).names && ViewOf(S).names[h] == Name(S.dir[h])
  {
    hide Structure, Bookkeeping, SizesFit, Name, Size;
    DescribeFacts(S.dir[h], seq(NAME_LENGTH, _ => 0), size);
    NamesDistinct(S.dir, S.L, h);
  }

  /** The layout once `size` is recorded for file `h`. */
  function Recorded(g: Geometry, L: Layout, h: nat, size: nat): Layout
    requires h in L.files
  {
    L.(torn := if size <= Times(g.sectorSize, |L.files[h].secs|) then L.torn - {h} else L.torn + {h})
  }

  lemma RecordedSize(g: Geometry, S: Snapshot, h: nat, size: nat)
    requires h in S.L.files && (size <= Times(g.sectorSize, |S.L.files[h].secs|) || S.L.files[h].secs != [])
    ensures SizeFits(g.sectorSize, size, Recorded(g, S.L, h, size), h) && TornOnly(S.L, Recorded(g, S.L, h, size), h)
  {
  }

  lemma NamesDistinct(dir: seq<Entry>, L: Layout, h: nat)
    requires NamesUnique(NamesOf(dir, L)) && h in L.files && h < |dir|
    ensures forall k :: k in L.files && k != h && k < |dir| ==> Name(dir[k]) != Name(dir[h])
  {
    forall k | k in L.files && k != h && k < |dir|
      ensures Name(dir[k]) != Name(dir[h])
    {
      assert NamesOf(dir, L)[k] == Name(dir[k]) && NamesOf(dir, L)[h] == Name(dir[h]);
    }
  }

  lemma RedescribedFacts(g: Geometry, S: Snapshot, S': Snapshot, h: nat, name: seq<byte>, size: nat)
    requires Redescribed(g, S, S', h, name, size) && ViewOf(S).names[h] == name
    ensures StoreOk(g, S') && ViewOf(S') == ViewOf(S).(sizes := ViewOf(S).sizes[h := size])
  {
    hide StoreOk, ViewOf;
    assert ViewOf(S).names[h := name] == ViewOf(S).names;
  }

  lemma RenameFacts(g: Geometry, S: Snapshot, h: nat, name: seq<byte>)
    requires StoreOk(g, S) && h in S.L.files && h < |S.dir| == g.entries && |name| == NAME_LENGTH
    requires !Taken(ViewOf(S), name)
    ensures var e := WithName(S.dir[h], name);
      && SameLinks(S.dir[h], e) && Size(e) == Size(S.dir[h]) && Name(e) == name
      && SizeFits(g.sectorSize, Size(e), S.L, h)
      && forall k :: k in S.L.files && k != h && k < |S.dir| ==> Name(S.dir[k]) != Name(e)
    ensures h in ViewOf(S).sizes && ViewOf(S).sizes[h] == Size(S.dir[h])
  {
    hide Structure, Bookkeeping, NamesUnique, Name, Size;
    DescribeFacts(S.dir[h], name, 0);
    forall k | k in S.L.files && k != h && k < |S.dir|
      ensures Name(S.dir[k]) != name
    {
      assert ViewOf(S).names[k] == Name(S.dir[k]);
    }
    assert ViewOf(S).sizes[h] == Size(S.dir[h]);
    RecordedFits(g, S, h);
  }

  lemma RenamedFacts(g: Geometry, S: Snapshot, S': Snapshot, h: nat, name: seq<byte>, size: nat)
    requires Redescribed(g, S, S', h, name, size) && ViewOf(S).sizes[h] == size
    ensures StoreOk(g, S') && ViewOf(S') == ViewOf(S).(names := ViewOf(S).names[h := name])
  {
    hide StoreOk, ViewOf;
    assert ViewOf(S).sizes[h := size] == ViewOf(S).sizes;
  }

  lemma RemovedFacts(g: Geometry, S: Snapshot, S': Snapshot, h: nat)
    requires FileRemoved(g, S, S', h)
    ensures StoreOk(g, S')
  {
  }

  /** Every entry of the chain of `f` is stored as the layout says. */
  ghost predicate ChainStored(dir: seq<Entry>, f: File) {
    forall c {:trigger f.chain[c]} :: 0 <= c < |f.chain| ==> f.chain[c] < |dir| && EntryOk(dir[f.chain[c]], f, c)
  }

  lemma DeletionStart(g: Geometry, S: Snapshot, h: nat)
    requires StoreOk(g, S) && h in S.L.files
    ensures ChainStored(S.dir, S.L.files[h]) && S.L.files[h].chain != [] && S.L.files[h].chain[0] == h
  {
    hide StoreOk, Structure, EntryOk;
    StoreFacts(g, S);
    ChainStart(g, S.dir, S.L, h);
    forall c | 0 <= c < |S.L.files[h].chain|
      ensures S.L.files[h].chain[c] < |S.dir| && EntryOk(S.dir[S.L.files[h].chain[c]], S.L.files[h], c)
    {
      ChainEntryFacts(g, S.dir, S.L, h, c);
    }
  }

  lemma ChainStoredAt(dir: seq<Entry>, f: File, c: nat)
    requires ChainStored(dir, f) && c < |f.chain|
    ensures f.chain[c] < |dir| && EntryOk(dir[f.chain[c]], f, c)
    ensures Next(dir[f.chain[c]]) as int == if c + 1 < |f.chain| then f.chain[c + 1] else NONE
  {
  }

  /** How many sectors the first `c` entries of the chain of `f` hold. */
  function Filled(f: File, c: nat): (n: nat)
    ensures n <= |f.secs|
  {
    if Base(c) <= |f.secs| then Base(c) else |f.secs|
  }

  lemma DeletableFacts(g: Geometry, f: File, us: seq<byte>, free: nat)
    requires Deletable(g, f, us)
    ensures f.chain != [] && Filled(f, 0) == 0 && Released(g, us, free, us, free, f.secs[..0])
  {
  }

  lemma ErasedNothing(dir: seq<Entry>)
    ensures forall chain: seq<nat> :: ErasedIn(dir, dir, chain[..0])
  {
  }

  lemma NotYetErasedIn(dir: seq<Entry>, dir': seq<Entry>, f: File, c: nat, us: seq<byte>, g: Geometry)
    requires Deletable(g, f, us) && c < |f.chain| && f.chain[c] < |dir| && ErasedIn(dir, dir', f.chain[..c])
    ensures |dir'| == |dir| && dir'[f.chain[c]] == dir[f.chain[c]]
  {
    NotYetErased(dir, dir', f, c);
  }

  lemma AllFilled(f: File, us: seq<byte>, g: Geometry)
    requires Deletable(g, f, us)
    ensures f.secs[..Filled(f, |f.chain|)] == f.secs && f.chain[..|f.chain|] == f.chain
  {
  }

  lemma FilledBase(g: Geometry, f: File, us: seq<byte>, c: nat)
    requires Deletable(g, f, us) && c < |f.chain|
    ensures Filled(f, c) == Base(c) <= |f.secs|
  {
    BaseMonotone(c, |f.chain| - 1);
  }

  // ----- starting up -----

  /** The stored part of `StoreOk`, which says nothing of the copies in memory. */
  ghost predicate StoredOk(g: Geometry, S: Snapshot) {
    && DataShaped(g, S.data)
    && Structure(g, S.dir, S.L)
    && NamesUnique(NamesOf(S.dir, S.L))
    && SizesFit(g.sectorSize, SizesOf(S.dir, S.L), S.L)
  }

  lemma ZeroBits(us: seq<byte>)
    requires forall k :: 0 <= k < |us| ==> us[k] == 0
    ensures forall i: nat :: i / 8 < |us| ==> !GetBit(us, i)
  {
    forall i: nat | i / 8 < |us|
      ensures !GetBit(us, i)
    {
      ZeroHasNoBits(i % 8);
    }
  }

  lemma StoredLive(g: Geometry, S: Snapshot)
    requires StoredOk(g, S)
    ensures |S.dir| == g.entries && forall i :: 0 <= i < |S.dir| ==> (!Deleted(S.dir[i]) <==> i in S.L.entOwner)
  {
  }

  lemma ScannedFacts(g: Geometry, dir: seq<Entry>, i: nat, j: nat, us: seq<byte>, free: nat, marked: set<nat>, s: nat)
    requires Scanned(g, dir, i, j, us, free, marked) && s < g.sectors && !ListedBefore(dir, i, j, s)
    ensures s !in marked && |us| == (g.sectors + 7) / 8 && !GetBit(us, s) && free > 0
  {
    BelowCount(g.sectors, marked + {s});
    assert |marked + {s}| == |marked| + 1;
  }

  lemma ScanEmptySlot(g: Geometry, dir: seq<Entry>, i: nat, j: nat, us: seq<byte>, free: nat, marked: set<nat>)
    requires Scanned(g, dir, i, j, us, free, marked) && i < |dir| && j < 32 && dir[i][j] == NONE
    ensures Scanned(g, dir, i, j + 1, us, free, marked)
  {
    hide Scanned, Deleted;
    ScanSkip(g, dir, i, j, i, j + 1, us, free, marked);
  }

  lemma ScanNextEntry(g: Geometry, dir: seq<Entry>, i: nat, j: nat, us: seq<byte>, free: nat, marked: set<nat>)
    requires Scanned(g, dir, i, j, us, free, marked) && i < |dir|
    requires Deleted(dir[i]) || j == MaxSectors(dir[i])
    ensures Scanned(g, dir, i + 1, 0, us, free, marked)
  {
    hide Scanned, Deleted;
    ScanSkip(g, dir, i, j, i + 1, 0, us, free, marked);
  }

  lemma ScanBooks(g: Geometry, dir: seq<Entry>, L: Layout, us: seq<byte>, ue: seq<byte>, free: nat, marked: set<nat>)
    requires Scanned(g, dir, |dir|, 0, us, free, marked) && marked == L.secOwner.Keys
    requires |ue| == (g.entries + 7) / 8 && L.lost == {}
    requires forall k: nat :: k < g.entries ==> (GetBit(ue, k) <==> k in L.entOwner)
    ensures Bookkeeping(g, L, us, ue, free)
  {
    hide GetBit, ListedBefore;
    assert Held(L) == marked;
  }

  /** The sectors that were lost are nothing the directory speaks of. */
  lemma NoneLost(g: Geometry, S: Snapshot)
    requires StoredOk(g, S)
    ensures StoredOk(g, S.(L := S.L.(lost := {})))
  {
    hide FileOk, Name, Size, Deleted;
    assert NamesOf(S.dir, S.L.(lost := {})) == NamesOf(S.dir, S.L);
    assert SizesOf(S.dir, S.L.(lost := {})) == SizesOf(S.dir, S.L);
  }

  lemma BlankMemory(g: Geometry, mem: Memory, us: seq<byte>, ue: seq<byte>, free: nat)
    requires |mem| == g.size && forall k :: 0 <= k < |mem| ==> mem[k] == 255
    ensures StoredOk(g, Snapshot(Dir(g, mem), Data(g, mem), EMPTY, us, ue, free))
  {
    forall i | 0 <= i < g.entries
      ensures Deleted(Dir(g, mem)[i])
    {
      assert Dir(g, mem)[i] == EntryAt(g, mem, i);
    }
  }

  lemma EmptyStore(g: Geometry, S: Snapshot)
    requires StoreOk(g, S) && S.L == EMPTY
    ensures ViewOf(S) == View(map[], map[], map[]) && S.free == g.sectors
  {
    assert Held(S.L) == {};
  }

  // ----- how many entries are left -----

  /** How many of the first `n` entries are not marked as used. */
  ghost function Unmarked(ue: seq<byte>, n: nat): nat
    requires n <= 8 * |ue|
  {
    if n == 0 then 0 else Unmarked(ue, n - 1) + (if GetBit(ue, n - 1) then 0 else 1)
  }

  lemma {:induction false} UnmarkedLess(ue: seq<byte>, ue': seq<byte>, e: nat, n: nat)
    requires |ue'| == |ue| && n <= 8 * |ue| && (e < n ==> !GetBit(ue, e))
    requires forall i: nat :: i < n ==> GetBit(ue', i) == (i == e || GetBit(ue, i))
    ensures Unmarked(ue, n) == Unmarked(ue', n) + (if e < n then 1 else 0)
  {
    hide GetBit;
    if n > 0 {
      UnmarkedLess(ue, ue', e, n - 1);
    }
  }

  lemma {:induction false} NoneUnmarked(ue: seq<byte>, n: nat)
    requires n <= 8 * |ue|
    ensures Unmarked(ue, n) == 0 <==> forall i: nat :: i < n ==> GetBit(ue, i)
  {
    hide GetBit;
    if n > 0 {
      NoneUnmarked(ue, n - 1);
    }
  }

  ghost function FreeEntries(g: Geometry, ue: seq<byte>): nat {
    if g.entries <= 8 * |ue| then Unmarked(ue, g.entries) else 0
  }

  lemma ChainsAfter(L: Layout, h: nat, k: nat, s: byte)
    requires h in L.files
    ensures h in Grown(L, h, s).files && |Grown(L, h, s).files[h].chain| == |L.files[h].chain|
    ensures k < |L.files[h].secs| ==> h in Swapped(L, h, k, s).files && |Swapped(L, h, k, s).files[h].chain| == |L.files[h].chain|
  {
  }

  lemma ChainAfter(L: Layout, h: nat, e: byte, s: byte)
    requires h in L.files
    ensures h in Extended(L, h, e, s).files && |Extended(L, h, e, s).files[h].chain| == |L.files[h].chain| + 1
  {
  }

  lemma SpotSeated(g: Geometry, mode: Mode, S: Snapshot, h: nat, size: nat, curSector: byte, curSoffset: nat,
      curEntry: byte, curSindex: byte)
    requires StoreOk(g, S) && SpotInMode(g, mode, S.L, h, size, curSector, curSoffset, curEntry, curSindex)
      && mode == Proper
    ensures h in S.L.files && curSindex < 30 && Seated(S.L.files[h], curSindex)
  {
    hide StoreOk, Structure;
    StoreFacts(g, S);
    LastEntryFacts(g, S.dir, S.L, h);
  }

  lemma EntryTaken(g: Geometry, ue: seq<byte>, ue': seq<byte>, e: nat)
    requires BookedEntry(g, ue, ue', e) && e < g.entries && !GetBit(ue, e)
    ensures FreeEntries(g, ue) == FreeEntries(g, ue') + 1
  {
    hide GetBit;
    UnmarkedLess(ue, ue', e, g.entries);
  }

  class Store {
    const g: Geometry
    var mem: Memory
    /** The scratch buffer holding one directory entry. */
    var buf: Entry
    var usedSectors: seq<byte>
    var usedEntries: seq<byte>
    var freeSectors: nat
    ghost var L: Layout

    ghost predicate Shaped()
      reads this
    {
      |mem| == g.size && |usedSectors| == (g.sectors + 7) / 8 && |usedEntries| == (g.entries + 7) / 8
    }

    /** The store as one value. */
    ghost function S(): Snapshot
      reads this
      requires |mem| == g.size
    {
      Snapshot(Dir(g, mem), Data(g, mem), L, usedSectors, usedEntries, freeSectors)
    }

    /** What a user sees of the store. */
    ghost function V(): View
      reads this
      requires |mem| == g.size
    {
      ViewOf(S())
    }

    /** The stored directory is sound and the memory copies agree with it. */
    ghost predicate Valid()
      reads this
    {
      Shaped() && StoreOk(g, S())
    }

    // ----- utility functions -----

    method ReadEntry(index: byte)
      requires |mem| == g.size && index < g.entries
      modifies this`buf
      ensures buf == Dir(g, mem)[index]
    {
      buf := EntryAt(g, mem, index);
    }

    /** Stores the buffer as entry `index`, writing only runs of bytes that differ. */
    method WriteEntry(index: byte)
      requires |mem| == g.size && index < g.entries
      modifies this`mem
      ensures |mem| == g.size
      ensures Dir(g, mem) == SetEntry(Dir(g, old(mem)), index, buf)
      ensures Data(g, mem) == Data(g, old(mem))
    {
      var at := EntryAddress(index);
      var orig := EntryAt(g, mem, index);
      var nonmatchStart := 0;
      var curNonmatching := false;
      var i := 0;
      while i < ENTRY_SIZE
        invariant 0 <= nonmatchStart <= i <= ENTRY_SIZE
        invariant |mem| == g.size
        invariant var done := if curNonmatching then nonmatchStart else i;
          forall k :: 0 <= k < g.size ==>
            mem[k] == if at <= k < at + done then buf[k - at] else old(mem)[k]
      {
        if curNonmatching {
          if buf[i] == orig[i] {
            curNonmatching := false;
            mem := Splice(mem, at + nonmatchStart, buf[nonmatchStart..i]);
          }
        } else {
          if buf[i] != orig[i] {
            curNonmatching := true;
            nonmatchStart := i;
          }
        }
        i := i + 1;
      }
      if curNonmatching {
        mem := Splice(mem, at + nonmatchStart, buf[nonmatchStart..]);
      }
      EntryWrite(g, old(mem), index, buf);
      assert mem == Splice(old(mem), at, buf);
    }

    /** Flips the state of one sector in the bitmap and the counter. */
    method MarkSector(sector: byte, used: bool)
      requires |usedSectors| == (g.sectors + 7) / 8 && sector < g.sectors
      requires GetBit(usedSectors, sector) != used
      requires used ==> freeSectors > 0
      modifies this`usedSectors, this`freeSectors
      ensures |usedSectors| == old(|usedSectors|)
      ensures forall s: nat :: s < g.sectors ==>
        GetBit(usedSectors, s) == if s == sector as int then used else old(GetBit(usedSectors, s))
      ensures freeSectors == if used then old(freeSectors) - 1 else old(freeSectors) + 1
    {
      usedSectors := SetBitTo(usedSectors, sector, used);
      freeSectors := if used then freeSectors - 1 else freeSectors + 1;
    }

    /** The first free sector at or cyclically behind `start`. */
    method NextFreeSector(start: byte) returns (r: byte)
      requires |usedSectors| == (g.sectors + 7) / 8 && start < g.sectors
      ensures r == NONE ==> forall s: nat :: s < g.sectors ==> GetBit(usedSectors, s)
      ensures r != NONE ==> r < g.sectors && !GetBit(usedSectors, r)
      ensures r != NONE ==> FirstFrom(usedSectors, g.sectors, start, r)
    {
      var cur: nat := start;
      ghost var wrapped := false;
      while GetBit(usedSectors, cur)
        invariant cur < g.sectors
        invariant if wrapped then cur < start else start <= cur
        invariant forall s: nat :: s < g.sectors ==>
          ((start <= s && (s < cur || wrapped)) || (wrapped && s < cur) ==> GetBit(usedSectors, s))
        decreases if wrapped then start - cur else start + g.sectors - cur
      {
        if cur + 1 == g.sectors {
          cur := 0;
          wrapped := true;
        } else {
          cur := cur + 1;
        }
        if cur == start {
          return NONE;
        }
      }
      return cur;
    }

    /** Like `NextFreeSector` over the entries; the entry found is marked as used. */
    method NextFreeEntry(start: byte) returns (r: byte)
      requires |usedEntries| == (g.entries + 7) / 8 && start < g.entries
      modifies this`usedEntries
      ensures |usedEntries| == old(|usedEntries|)
      ensures r == NONE ==> usedEntries == old(usedEntries) && forall s: nat :: s < g.entries ==> GetBit(usedEntries, s)
      ensures r != NONE ==> r < g.entries && !old(GetBit(usedEntries, r))
      ensures r != NONE ==> FirstFrom(old(usedEntries), g.entries, start, r)
      ensures r != NONE ==> BookedEntry(g, old(usedEntries), usedEntries, r)
    {
      var cur: nat := start;
      ghost var wrapped := false;
      while GetBit(usedEntries, cur)
        invariant cur < g.entries
        invariant if wrapped then cur < start else start <= cur
        invariant forall s: nat :: s < g.entries ==>
          ((start <= s && (s < cur || wrapped)) || (wrapped && s < cur) ==> GetBit(usedEntries, s))
        decreases if wrapped then start - cur else start + g.entries - cur
      {
        if cur + 1 == g.entries {
          cur := 0;
          wrapped := true;
        } else {
          cur := cur + 1;
        }
        if cur == start {
          return NONE;
        }
      }
      usedEntries := SetBitTo(usedEntries, cur, true);
      return cur;
    }

    /** The entry of the file called `name`, left in the buffer, or `NONE`. */
    method FindEntry(name: seq<byte>) returns (r: byte)
      requires |mem| == g.size && Indexed(Dir(g, mem), L) && |name| == NAME_LENGTH
      modifies this`buf
      ensures r == NONE ==> forall h :: h in L.files ==> Name(Dir(g, mem)[h]) != name
      ensures r != NONE ==> r as int in L.files && Name(Dir(g, mem)[r]) == name && buf == Dir(g, mem)[r]
    {
      ghost var dir := Dir(g, mem);
      var idx := 0;
      while idx < g.entries
        invariant 0 <= idx <= g.entries
        invariant forall h :: h in L.files && h < idx ==> Name(dir[h]) != name
      {
        ReadEntry(idx);
        idx := idx + 1;
        if Deleted(buf) || IsList(buf) {
          continue;
        }
        if Name(buf) == name {
          return idx - 1;
        }
      }
      return NONE;
    }

    // ----- opening and closing -----

    /** Sets up the handle for access to the file called `name`. */
    method Open(name: seq<byte>, fh: FileHandle, mode: OpenMode) returns (err: Error)
      requires Valid() && |name| == NAME_LENGTH
      modifies this, fh
      ensures Valid()
      ensures mode == ForWriting ==>
        (&& (err == Ok || err == FileExists || err == DirFull)
         && (err == FileExists <==> Taken(old(V()), name))
         && (err == Ok ==>
           FileCreated(g, old(S()), S(), fh.entry, name) && fh.mode.ModeWrite? && WriteReady(fh) && fh.size == fh.curOffset == 0)
         && (err == DirFull ==> AllEntriesUsed()))
      ensures mode != ForWriting ==>
        (&& (err == Ok || err == FileNotFound)
         && (err == Ok <==> Taken(old(V()), name))
         && (err == Ok ==>
              (&& fh.entry as int in V().names && V().names[fh.entry as int] == name
               && fh.entry as int in V().sizes && fh.size == V().sizes[fh.entry as int]))
         && (err == Ok && mode == ForReading ==> fh.mode.ModeRead? && ReadReady(fh) && fh.curOffset == 0)
         && (err == Ok && mode == ForAppending ==> AtFileEnd(fh)))
      ensures err != Ok || mode != ForWriting ==> S() == old(S())
      ensures err != Ok ==> fh.mode == NotOpen
      ensures EntriesLeft() == if err == Ok && mode == ForWriting then old(EntriesLeft()) - 1 else old(EntriesLeft())
      ensures freeSectors == old(freeSectors)
    {
      hide StoreOk, Structure, Bookkeeping, GetBit, Dir, Data, NamesOf, SizesOf, WriteSeat, ReadSeat, Times, WellEnded,
           FileCreated, BookedEntry, AllEntriesUsed, Deleted, IsList, Name, Size, Taken, WriteReady, ReadReady;
      StoreFacts(g, S());
      StructureIndexed(g, Dir(g, mem), L);
      NamesInDir(Dir(g, mem), L);
      fh.Clear();
      var diridx := FindEntry(name);
      TakenOrNot(V(), name, diridx);
      if mode == ForWriting {
        if diridx != NONE {
          return FileExists;
        }
        err := CreateEntry(name, fh);
      } else {
        if diridx == NONE {
          return FileNotFound;
        }
        fh.entry := diridx;
        fh.size := Size(buf);
        fh.curEntry := diridx;
        if mode == ForAppending {
          SeekLastSector(fh);
        } else {
          SeekFirstSector(fh);
        }
        err := Ok;
      }
    }

    /** Allocates and stores a fresh name entry. */
    method CreateEntry(name: seq<byte>, fh: FileHandle) returns (err: Error)
      requires Valid() && |name| == NAME_LENGTH
      requires forall h :: h in L.files && h < g.entries ==> Name(Dir(g, mem)[h]) != name
      requires fh.size == fh.curOffset == fh.curSoffset == 0 && fh.curSector == 0
      modifies this, fh`entry, fh`curEntry, fh`curSindex, fh`mode
      ensures Valid() && (err == Ok || err == DirFull)
      ensures err == Ok ==> FileCreated(g, old(S()), S(), fh.entry, name) && fh.mode.ModeWrite? && WriteReady(fh)
      ensures err == Ok ==> FirstFrom(old(usedEntries), g.entries, 0, fh.entry)
      ensures err == Ok ==> NameEntered(old(Dir(g, mem)), Dir(g, mem), fh.entry, name)
      ensures err == DirFull ==> AllEntriesUsed() && S() == old(S()) && fh.mode == old(fh.mode)
      ensures EntriesLeft() == (if err == Ok then old(EntriesLeft()) - 1 else old(EntriesLeft()))
        && freeSectors == old(freeSectors)
    {
      hide StoreOk, Structure, Bookkeeping, GetBit, Dir, Data, NamesOf, SizesOf, WriteSeat, Times, FileCreated, BookedEntry,
           Created, Name, Size, SetEntry, FreshName, NameEntered, FirstFrom;
      ghost var S0 := S();
      fh.entry := NextFreeEntry(0);
      if fh.entry == NONE {
        return DirFull;
      }
      EntryIsFree(g, S0, fh.entry);
      EntryTaken(g, S0.ue, usedEntries, fh.entry);
      fh.curEntry := fh.entry;
      fh.curSindex := 255;
      fh.mode := ModeWrite;
      StoredEntries(S0.dir, fh.entry, name, 0);
      buf := FreshName(name);
      WriteEntry(fh.entry);
      L := Created(L, fh.entry);
      CreateStep(g, S0, S(), fh.entry, name);
      CreatedReady(g, S0, S(), fh.entry, name);
      err := Ok;
    }

    /** Moves a handle opened for reading to the first sector of its file. */
    method SeekFirstSector(fh: FileHandle)
      requires Valid() && fh.entry as int in L.files && fh.curEntry == fh.entry && fh.entry < g.entries
      requires buf == Dir(g, mem)[fh.entry] && fh.size == Size(buf)
      requires fh.curOffset == fh.curSoffset == 0 && fh.curSindex == 0
      modifies fh`curSector, fh`mode
      ensures fh.mode.ModeRead? && ReadReady(fh)
    {
      hide StoreOk, Dir, Data, Size, ReadSeat;
      OpenedForReading(g, S(), fh.entry, fh.size);
      fh.curSector := buf[0];
      fh.mode := ModeRead;
    }

    /** Moves a handle opened for appending to the last sector of the last entry of its file. */
    method SeekLastSector(fh: FileHandle)
      requires Valid() && fh.entry as int in L.files && fh.curEntry == fh.entry && fh.curSindex == 0
      requires (fh.entry as int) < |Dir(g, mem)| && buf == Dir(g, mem)[fh.entry]
      modifies this`buf, fh`curSector, fh`curEntry, fh`curOffset, fh`curSoffset, fh`mode
      ensures AtFileEnd(fh)
    {
      hide StoreOk, Structure, Bookkeeping, GetBit, Dir, Data, Deleted, IsList, FileOk, EntriesOwned, SectorsOwned,
        WriteSeat, SlipSeat, WellEnded, Times;
      ghost var f := L.files[fh.entry as int];
      ghost var c := 0;
      StoreFacts(g, S());
      ChainStart(g, Dir(g, mem), L, fh.entry);
      ChainEntryFacts(g, Dir(g, mem), L, fh.entry, 0);
      var diridx := fh.entry;
      while Next(buf) != NONE
        invariant c < |f.chain| && diridx as int == f.chain[c] && (diridx as int) < |Dir(g, mem)| == g.entries
        invariant buf == Dir(g, mem)[diridx] && EntryOk(buf, f, c)
        decreases |f.chain| - c
      {
        diridx := Next(buf);
        c := c + 1;
        ChainEntryFacts(g, Dir(g, mem), L, fh.entry, c);
        ReadEntry(diridx);
      }
      var sectoridx := LastUsedSlot();
      fh.curSector := buf[sectoridx];
      fh.curEntry := diridx;
      fh.curOffset := fh.size;
      fh.curSoffset := fh.size % g.sectorSize;
      fh.mode := ModeWrite;
      LastEntryFacts(g, Dir(g, mem), L, fh.entry);
      LinkIsEntry(g, Dir(g, mem), L, fh.entry, c);
      AppendSeat(g, f, fh.size, fh.curSector, fh.curEntry, buf, sectoridx);
    }

    /**
     Where opening for appending puts a handle: at the last sector of the file, but always at slot 0 of its last
     entry. So the next sector goes where it belongs exactly if that entry holds one, and over another one
     exactly if it holds more.
     */
    ghost predicate AtFileEnd(fh: FileHandle)
      reads this, fh
    {
      && fh.entry as int in L.files && fh.mode.ModeWrite? && fh.curOffset == fh.size
      && fh.curSoffset == fh.size % g.sectorSize && fh.curSindex == 0
      && var f := L.files[fh.entry as int];
      && f.chain != [] && (f.secs == [] ==> fh.curEntry == fh.entry && fh.curSector == NONE)
      && (WriteReady(fh) <==> WellEnded(g, f, fh.size) && LastHeld(f) == 1)
      && (SlipReady(fh) <==> WellEnded(g, f, fh.size) && LastHeld(f) > 1)
    }

    /** The last slot before the first unused one, or slot 0. */
    method LastUsedSlot() returns (sectoridx: nat)
      ensures sectoridx < MaxSectors(buf)
      ensures exists n: nat :: UsedSlots(buf, n) && sectoridx == if n == 0 then 0 else n - 1
    {
      sectoridx := 0;
      var i := 0;
      while i < MaxSectors(buf)
        invariant i <= MaxSectors(buf)
        invariant forall j :: 0 <= j < i ==> buf[j] != NONE
        invariant sectoridx == if i == 0 then 0 else i - 1
      {
        if buf[i] == NONE {
          assert UsedSlots(buf, i);
          return;
        }
        sectoridx := i;
        i := i + 1;
      }
      assert UsedSlots(buf, i);
    }

    /** Closes a handle that is open; a written file gets its size recorded. */
    method Close(fh: FileHandle)
      requires Valid()
      requires fh.mode != NotOpen && (fh.mode.ModeWrite? ==> Recordable(fh))
      modifies this`mem, this`buf, this`L, fh`mode
      ensures Valid() && fh.mode == NotOpen && L == if old(fh.mode.ModeWrite?) then Recorded(g, old(L), fh.entry, fh.size) else old(L)
      ensures if old(fh.mode.ModeWrite?) then V() == old(V()).(sizes := old(V()).sizes[fh.entry as int := fh.size]) else S() == old(S())
      ensures old(fh.mode.ModeWrite?) ==> SizeStored(old(Dir(g, mem)), Dir(g, mem), fh.entry, fh.size)
    {
      hide SizeStored, StoreOk, Structure, Bookkeeping, GetBit, Dir, Data, Times, Redescribed, ViewOf, Name, Size, WithSize,
           SetEntry, SizeFits, Recorded, TornOnly;
      if !fh.mode.ModeRead? {
        ghost var S0 := S();
        RecordedSize(g, S0, fh.entry, fh.size);
        StoreFacts(g, S0);
        StructureIndexed(g, S0.dir, L);
        ReadEntry(fh.entry);
        ResizeFacts(g, S0, fh.entry, fh.size);
        StoredEntries(S0.dir, fh.entry, seq(NAME_LENGTH, _ => 0), fh.size);
        buf := WithSize(buf, fh.size);
        WriteEntry(fh.entry);
        L := Recorded(g, L, fh.entry, fh.size);
        DescribeStep(g, S0, S(), fh.entry, buf);
        RedescribedFacts(g, S0, S(), fh.entry, Name(buf), Size(buf));
      }
      fh.mode := NotOpen;
    }

    /** The size in the handle can be recorded: it fits 16 bits, and a file that has no sectors has no bytes. */
    ghost predicate Recordable(fh: FileHandle)
      reads this, fh
    {
      && fh.entry as int in L.files && fh.size < 65536
      && (fh.size <= Times(g.sectorSize, |L.files[fh.entry as int].secs|) || L.files[fh.entry as int].secs != [])
    }

    // ----- renaming and deleting -----

    /** Renames the file called `oldname`. */
    method Rename(oldname: seq<byte>, newname: seq<byte>) returns (err: Error, ghost h: nat)
      requires Valid() && |oldname| == |newname| == NAME_LENGTH
      modifies this`mem, this`buf
      ensures Valid() && L == old(L)
      ensures err == Ok || err == FileExists || err == FileNotFound
      ensures err == FileExists <==> Taken(old(V()), newname)
      ensures err == FileNotFound ==> !Taken(old(V()), oldname)
      ensures err != Ok ==> S() == old(S())
      ensures err == Ok ==>
        (&& h in old(V()).names && old(V()).names[h] == oldname
         && V() == old(V()).(names := old(V()).names[h := newname]) && NameStored(old(Dir(g, mem)), Dir(g, mem), h, newname))
    {
      hide NameStored, StoreOk, Structure, Bookkeeping, GetBit, Dir, Data, NamesOf, SizesOf, Redescribed, Deleted, IsList, Name, Size,
           Taken, WithName, SetEntry, Times, ContentsOf, Indexed;
      ghost var S0 := S();
      StoreFacts(g, S0);
      StructureIndexed(g, Dir(g, mem), L);
      NamesInDir(Dir(g, mem), L);
      h := 0;
      var diridx := FindEntry(newname);
      TakenOrNot(V(), newname, diridx);
      if diridx != NONE {
        return FileExists, h;
      }
      diridx := FindEntry(oldname);
      TakenOrNot(V(), oldname, diridx);
      if diridx == NONE {
        return FileNotFound, h;
      }
      h := diridx;
      RenameFacts(g, S0, h, newname);
      StoredEntries(S0.dir, h, newname, 0);
      buf := WithName(buf, newname);
      WriteEntry(diridx);
      DescribeStep(g, S0, S(), h, buf);
      RenamedFacts(g, S0, S(), h, newname, Size(buf));
      err := Ok;
    }

    /** Deletes the file called `name`: its entries are erased and its sectors are free again. */
    method Delete(name: seq<byte>) returns (err: Error, ghost h: nat)
      requires Valid() && |name| == NAME_LENGTH
      modifies this`mem, this`buf, this`usedSectors, this`freeSectors, this`L
      ensures Valid()
      ensures err == Ok || err == FileNotFound
      ensures err == Ok <==> Taken(old(V()), name)
      ensures err != Ok ==> S() == old(S())
      ensures err == Ok ==>
        h in old(V()).names && old(V()).names[h] == name && FileRemoved(g, old(S()), S(), h)
    {
      hide StoreOk, Structure, Bookkeeping, GetBit, Dir, Data, NamesOf, SizesOf, FileRemoved, Deleted, IsList, Name, Size,
           Taken, SetEntry, ContentsOf, Indexed, Released, ErasedIn, Deletable, EntryOk, Removed;
      ghost var S0 := S();
      StoreFacts(g, S0);
      StructureIndexed(g, Dir(g, mem), L);
      NamesInDir(Dir(g, mem), L);
      h := 0;
      var diridx := FindEntry(name);
      TakenOrNot(V(), name, diridx);
      if diridx == NONE {
        return FileNotFound, h;
      }
      h := diridx;
      ghost var f := L.files[h];
      StructureDeletable(g, Dir(g, mem), L, usedSectors, usedEntries, freeSectors, h);
      DeletionStart(g, S0, h);
      EraseChain(diridx, f);
      L := Removed(L, h);
      RemoveStep(g, S0, S(), h);
      RemovedFacts(g, S0, S(), h);
      err := Ok;
    }

    /** Walks the chain of `f` from its name entry `first`, freeing sectors and erasing entries. */
    method EraseChain(first: byte, ghost f: File)
      requires Shaped() && Deletable(g, f, usedSectors) && f.chain[0] == first as int && first < g.entries
      requires ChainStored(Dir(g, mem), f) && buf == Dir(g, mem)[first]
      modifies this`mem, this`buf, this`usedSectors, this`freeSectors
      ensures Shaped() && Data(g, mem) == old(Data(g, mem))
      ensures ErasedIn(old(Dir(g, mem)), Dir(g, mem), f.chain)
      ensures Released(g, old(usedSectors), old(freeSectors), usedSectors, freeSectors, f.secs)
    {
      hide GetBit, Dir, Data, Deleted, IsList, SetEntry, Released, ErasedIn, Deletable, EntryOk, ErasedEntry;
      ghost var dir0, us0, free0 := Dir(g, mem), usedSectors, freeSectors;
      DeletableFacts(g, f, us0, free0);
      ErasedNothing(dir0);
      var diridx := first;
      ghost var c := 0;
      while diridx != NONE
        invariant Shaped() && Data(g, mem) == old(Data(g, mem))
        invariant c <= |f.chain| && (diridx == NONE <==> c == |f.chain|)
        invariant c < |f.chain| ==> diridx as int == f.chain[c] && diridx < g.entries && buf == dir0[diridx]
        invariant ErasedIn(dir0, Dir(g, mem), f.chain[..c])
        invariant Released(g, us0, free0, usedSectors, freeSectors, f.secs[..Filled(f, c)])
        decreases |f.chain| - c
      {
        ChainStoredAt(dir0, f, c);
        FreeEntrySectors(f, c, us0, free0);
        var oldDiridx := diridx;
        diridx := Next(buf);
        EraseOne(dir0, Dir(g, mem), f.chain, c);
        buf := ErasedEntry();
        WriteEntry(oldDiridx);
        c := c + 1;
        if diridx != NONE {
          ChainStoredAt(dir0, f, c);
          NotYetErasedIn(dir0, Dir(g, mem), f, c, us0, g);
          ReadEntry(diridx);
        }
      }
      AllFilled(f, us0, g);
    }

    /** Frees the sectors listed in the buffered entry, which is position `c` of the chain of `f`. */
    method FreeEntrySectors(ghost f: File, ghost c: nat, ghost us0: seq<byte>, ghost free0: nat)
      requires |usedSectors| == (g.sectors + 7) / 8 && c < |f.chain| && EntryOk(buf, f, c) && Deletable(g, f, us0)
      requires Released(g, us0, free0, usedSectors, freeSectors, f.secs[..Filled(f, c)])
      modifies this`usedSectors, this`freeSectors
      ensures |usedSectors| == (g.sectors + 7) / 8
      ensures Released(g, us0, free0, usedSectors, freeSectors, f.secs[..Filled(f, c + 1)])
    {
      hide GetBit, Deleted;
      FilledBase(g, f, us0, c);
      var i := 0;
      while i < MaxSectors(buf)
        invariant i <= MaxSectors(buf) && Base(c) + i <= |f.secs|
        invariant |usedSectors| == (g.sectors + 7) / 8
        invariant Released(g, us0, free0, usedSectors, freeSectors, f.secs[..Base(c) + i])
      {
        if buf[i] == NONE {
          break;
        }
        ghost var us1, free1 := usedSectors, freeSectors;
        MarkSector(buf[i], false);
        ReleaseOne(g, us0, free0, us1, free1, usedSectors, freeSectors, f.secs, Base(c) + i);
        i := i + 1;
      }
    }

    // ----- start-up and formatting -----

    /** Rebuilds the bitmaps and the free counter from the stored directory. */
    method Init()
      requires Shaped() && StoredOk(g, S())
      modifies this`buf, this`usedSectors, this`usedEntries, this`freeSectors, this`L
      ensures Valid() && L == old(L).(lost := {})
      ensures forall i: nat :: i < g.entries ==> (GetBit(usedEntries, i) <==> i in L.entOwner)
    {
      hide Dir, Data, Structure, NamesOf, SizesOf, NamesUnique, SizesFit, Bookkeeping, Scanned, Deleted, IsList,
        DataShaped, GetBit;
      freeSectors := g.sectors;
      usedSectors := ZeroBytes(|usedSectors|);
      usedEntries := ZeroBytes(|usedEntries|);
      ghost var marked: set<nat> := {};
      ghost var dir := Dir(g, mem);
      ScanStart(g, dir, usedSectors);
      ZeroBits(usedEntries);
      StoredLive(g, S());
      var i: nat := 0;
      while i < g.entries
        invariant i <= g.entries && Shaped() && L == old(L)
        invariant Scanned(g, dir, i, 0, usedSectors, freeSectors, marked)
        invariant forall k: nat :: k < g.entries ==> (GetBit(usedEntries, k) <==> k < i && k in L.entOwner)
      {
        ReadEntry(i);
        if !Deleted(buf) {
          usedEntries := SetBitTo(usedEntries, i, true);
          marked := MarkEntry(i, marked);
        }
        ScanNextEntry(g, dir, i, if Deleted(buf) then 0 else MaxSectors(buf), usedSectors, freeSectors, marked);
        i := i + 1;
      }
      ScanEnd(g, dir, L, usedSectors, freeSectors, marked);
      NoneLost(g, S());
      L := L.(lost := {});
      ScanBooks(g, dir, L, usedSectors, usedEntries, freeSectors, marked);
    }

    /** Marks the sectors of the live entry `i`, which is in the buffer. */
    method MarkEntry(i: nat, ghost marked0: set<nat>) returns (ghost marked: set<nat>)
      requires |mem| == g.size && i < g.entries && Structure(g, Dir(g, mem), L) && buf == Dir(g, mem)[i]
        && !Deleted(buf)
      requires Scanned(g, Dir(g, mem), i, 0, usedSectors, freeSectors, marked0)
      modifies this`usedSectors, this`freeSectors
      ensures |usedSectors| == old(|usedSectors|)
      ensures Scanned(g, Dir(g, mem), i, MaxSectors(buf), usedSectors, freeSectors, marked)
    {
      hide Dir, Structure, Scanned, Deleted, GetBit, ListedBefore;
      marked := marked0;
      var j: nat := 0;
      while j < MaxSectors(buf)
        invariant j <= MaxSectors(buf) && |usedSectors| == old(|usedSectors|)
        invariant Scanned(g, Dir(g, mem), i, j, usedSectors, freeSectors, marked)
      {
        if buf[j] != NONE {
          ScanFresh(g, Dir(g, mem), L, i, j);
          ScannedFacts(g, Dir(g, mem), i, j, usedSectors, freeSectors, marked, buf[j]);
          ghost var us1, free1 := usedSectors, freeSectors;
          MarkSector(buf[j], true);
          ScanMark(g, Dir(g, mem), i, j, us1, free1, marked, usedSectors, freeSectors, buf[j]);
          marked := marked + {buf[j] as nat};
        } else {
          ScanEmptySlot(g, Dir(g, mem), i, j, usedSectors, freeSectors, marked);
        }
        j := j + 1;
      }
    }

    /** Clears the whole memory, rewriting only the words that are not clear, and starts over. */
    method Format()
      requires Shaped()
      modifies this
      ensures Valid() && V() == View(map[], map[], map[]) && freeSectors == g.sectors && L == EMPTY
      ensures forall i: nat :: i < g.entries ==> i / 8 < |usedEntries| && !GetBit(usedEntries, i)
    {
      var addr := 0;
      while addr < g.size
        invariant 0 <= addr <= g.size && addr % 4 == 0 && Shaped()
        invariant forall k :: 0 <= k < addr ==> mem[k] == 255
      {
        var val := mem[addr..addr + 4];
        if val != [255, 255, 255, 255] {
          mem := Splice(mem, addr, [255, 255, 255, 255]);
        } else {
          assert forall k :: addr <= k < addr + 4 ==> mem[k] == val[k - addr];
        }
        addr := addr + 4;
      }
      L := EMPTY;
      BlankMemory(g, mem, usedSectors, usedEntries, freeSectors);
      Init();
      EmptyStore(g, S());
    }

    constructor (g: Geometry, mem: Memory)
      requires |mem| == g.size
      ensures this.g == g && this.mem == mem && Shaped()
    {
      this.g := g;
      this.mem := mem;
      buf := ErasedEntry();
      usedSectors := ZeroBytes((g.sectors + 7) / 8);
      usedEntries := ZeroBytes((g.entries + 7) / 8);
      freeSectors := 0;
      L := EMPTY;
    }

    /**
     Appends bytes to the file, as many as there is room for. A handle that will put its next sector over
     another one appends only as far as the file's last sector goes; after that the file is torn.
     */
    method Write(fh: FileHandle, bytes: seq<byte>) returns (err: Error, written: nat)
      requires Valid() && (fh.mode.ModeWrite? ==> fh.curOffset == fh.size)
      requires fh.mode.ModeWrite? && bytes != [] ==> WriteReady(fh) || SlipReady(fh) || TornReady(fh)
      modifies this, fh
      ensures Valid() && fh.mode == old(fh.mode) && fh.entry == old(fh.entry)
      ensures !old(fh.mode.ModeWrite?) ==> err == Invalid && written == 0 && S() == old(S())
      ensures old(fh.mode.ModeWrite?) ==>
        (&& fh.curOffset == fh.size == old(fh.size) + written
         && (err == Ok || err == DiskFull || err == DirFull)
         && (if err == Ok then written == |bytes| else written < |bytes|)
         && (err == DiskFull ==> freeSectors == 0)
         && (err == DirFull ==> AllEntriesUsed() && LastFull(fh.entry)))
      ensures bytes == [] || !fh.mode.ModeWrite? ==>
        S() == old(S()) && Place(fh) == old(Place(fh)) && fh.size == old(fh.size) && fh.curOffset == old(fh.curOffset)
      ensures old(fh.mode.ModeWrite? && WriteReady(fh)) ==>
        (&& Appended(g, old(S()), S(), fh.entry, old(fh.size), bytes[..written])
         && (if err != DirFull || fh.curSindex < 255 then WriteReady(fh) else SlipReady(fh)))
      ensures old(fh.mode.ModeWrite? && !WriteReady(fh) && SlipReady(fh)) ==>
        if written <= old(Rest(g, fh.curSoffset)) then Appended(g, old(S()), S(), fh.entry, old(fh.size), bytes[..written]) && SlipReady(fh)
        else Touched(g, old(S()), S(), fh.entry) && TornReady(fh)
      ensures old(fh.mode.ModeWrite? && bytes != [] && !WriteReady(fh) && !SlipReady(fh)) ==>
        Touched(g, old(S()), S(), fh.entry) && TornReady(fh)
      ensures Account(fh.entry) == old(Account(fh.entry)) && (written == 0 ==> L == old(L))
      ensures err == DiskFull || err == DirFull ==> fh.curSoffset == 0
      ensures err == DirFull ==> freeSectors > 0
      ensures old(fh.mode.ModeWrite? && WriteReady(fh)) ==>
        if written > 0 then (if err == DirFull then fh.curSindex <= 30 else fh.curSindex < 30 && SlotSeated(fh))
        else fh.curSindex == if err == DirFull then Advance(old(fh.curSindex)) else old(fh.curSindex)
    {
      hide StoreOk, GrowStep, Appended, Touched, GetBit, Dir, Data, InMode, SpotInMode, WriteSeat, SlipSeat, TornSeat, WrittenIn,
           Times, AllEntriesUsed, Splice;
      written := 0;
      if !fh.mode.ModeWrite? {
        return Invalid, 0;
      }
      ghost var h: nat, S0, n0, rest := fh.entry, S(), fh.size, Rest(g, fh.curSoffset);
      ghost var mode := if WriteReady(fh) then Proper else if SlipReady(fh) then Slipping else Torn;
      ModeSeats(fh, mode);
      assert bytes[..0] == [];
      if WriteReady(fh) || SlipReady(fh) || bytes != [] {
        NothingWritten(g, mode, S(), h, fh.size, fh.curSector, fh.curSoffset, fh.curEntry, fh.curSindex);
        WrittenIs(g, mode, S0, S(), h, n0, bytes[..0]);
      }
      if bytes == [] {
        return Ok, 0;
      }
      while written < |bytes|
        invariant fh.mode.ModeWrite? && fh.entry as int == h && fh.curOffset == fh.size == n0 + written
        invariant 0 <= written <= |bytes| && Valid() && Ready(fh, mode)
          && WrittenIn(g, mode, S0, S(), h, n0, bytes[..written])
        invariant mode == Slipping ==> written <= rest && Rest(g, fh.curSoffset) == rest - written
        invariant if old(WriteReady(fh)) then mode == Proper
                  else if old(SlipReady(fh)) then mode == Slipping || (mode == Torn && written > rest)
                  else mode == Torn
        invariant Account(fh.entry) == old(Account(fh.entry)) && (written == 0 ==> L == old(L))
        invariant if written == 0 then fh.curSindex == old(fh.curSindex) else mode == Proper ==> fh.curSindex < 30 && SlotSeated(fh)
      {
        var n;
        err, n, mode := WritePiece(fh, bytes[written..], mode, S0, n0, bytes[..written]);
        if err != Ok {
          ModesAre(fh, mode);
          assert bytes[..written] + bytes[written..][..0] == bytes[..written];
          WrittenIs(g, mode, S0, S(), h, n0, bytes[..written]);
          return;
        }
        assert bytes[..written] + bytes[written..][..n] == bytes[..written + n];
        written := written + n;
      }
      ModesAre(fh, mode);
      WrittenIs(g, mode, S0, S(), h, n0, bytes[..written]);
      err := Ok;
    }

    /** Appends as many bytes as go into one sector, in a new sector if the last one is full. */
    method WritePiece(fh: FileHandle, bytes: seq<byte>, ghost mode: Mode, ghost S0: Snapshot, ghost n0: nat, ghost before: seq<byte>)
      returns (err: Error, n: nat, ghost mode': Mode)
      requires Valid() && fh.mode.ModeWrite? && bytes != [] && Ready(fh, mode)
        && fh.curOffset == fh.size == n0 + |before|
      requires WrittenIn(g, mode, S0, S(), fh.entry, n0, before)
      modifies this, fh
      ensures Valid() && fh.mode.ModeWrite? && fh.entry == old(fh.entry) && Ready(fh, mode')
      ensures err == Ok || err == DiskFull || err == DirFull
      ensures if err == Ok then 0 < n <= |bytes| else n == 0
      ensures fh.curOffset == fh.size == old(fh.size) + n
        && WrittenIn(g, mode', S0, S(), fh.entry, n0, before + bytes[..n])
      ensures err == Ok ==> mode' == if mode == Slipping && old(fh.curSoffset) == 0 then Torn else mode
      ensures err == Ok ==>
        if old(fh.curSoffset) == 0 then FirstFrom(old(usedSectors), g.sectors, old(fh.curSector), fh.curSector)
        else fh.curSector == old(fh.curSector)
      ensures err == Ok && mode' == Slipping ==>
        n <= old(Rest(g, fh.curSoffset)) && Rest(g, fh.curSoffset) == old(Rest(g, fh.curSoffset)) - n
      ensures err == DiskFull ==> freeSectors == 0 && mode' == mode
      ensures err == DirFull ==> AllEntriesUsed() && LastFull(fh.entry) && mode != Slipping
      ensures err == DirFull ==> mode' == if mode == Proper && fh.curSindex == 255 then Slipping else mode
      ensures Account(fh.entry) == old(Account(fh.entry)) && (err != Ok ==> fh.curSoffset == 0)
        && (err == DirFull ==> freeSectors > 0)
      ensures err == Ok && mode == Proper ==> fh.curSindex < 30 && SlotSeated(fh)
      ensures err != Ok ==> L == old(L)
      ensures err != Ok ==> fh.curSindex == if err == DirFull then Advance(old(fh.curSindex)) else old(fh.curSindex)
    {
      hide StoreOk, GrowStep, Appended, Touched, GetBit, Dir, Data, InMode, SpotInMode, WriteSeat, SlipSeat, TornSeat, WrittenIn,
           Times, AllEntriesUsed, Splice, FirstFrom;
      ghost var h: nat, soffset := fh.entry, fh.curSoffset;
      assert before + bytes[..0] == before;
      err, mode' := FindPlace(fh, mode, S0, n0, before);
      if err != Ok {
        n := 0;
        return;
      }
      n := if |bytes| < g.sectorSize - fh.curSoffset then |bytes| else g.sectorSize - fh.curSoffset;
      ghost var S2, size2, soffset2 := S(), fh.size, fh.curSoffset;
      SpotFacts(g, mode', S2, h, fh.size, fh.curSector, fh.curSoffset, fh.curEntry, fh.curSindex);
      if mode' == Proper {
        SpotSeated(g, mode', S2, h, fh.size, fh.curSector, fh.curSoffset, fh.curEntry, fh.curSindex);
      }
      StoreChunk(fh, bytes[..n]);
      ChunkInMode(g, mode', S0, S2, S(), h, n0, before, bytes[..n], size2, fh.curSector, soffset2, fh.curEntry, fh.curSindex);
      SpotToSeat(g, mode', L, h, size2, fh.curSector, soffset2, fh.curEntry, fh.curSindex, n);
      ModUpTo(soffset2 + n, g.sectorSize);
    }

    /** Gives the handle a place to write to: where it stands in a sector, or in a new sector. */
    method FindPlace(fh: FileHandle, ghost mode: Mode, ghost S0: Snapshot, ghost n0: nat, ghost before: seq<byte>)
      returns (err: Error, ghost mode': Mode)
      requires Valid() && Ready(fh, mode) && fh.size == n0 + |before|
        && WrittenIn(g, mode, S0, S(), fh.entry, n0, before)
      modifies this, fh`curSector, fh`curEntry, fh`curSindex
      ensures Valid() && WrittenIn(g, mode', S0, S(), fh.entry, n0, before) && fh.curSoffset < g.sectorSize
      ensures err == Ok || err == DiskFull || err == DirFull
      ensures err == Ok ==> AtPlace(fh, mode') && mode' == if mode == Slipping && fh.curSoffset == 0 then Torn else mode
      ensures err == Ok ==>
        if fh.curSoffset == 0 then FirstFrom(old(usedSectors), g.sectors, old(fh.curSector), fh.curSector)
        else fh.curSector == old(fh.curSector)
      ensures err != Ok ==> Ready(fh, mode')
      ensures err == DiskFull ==> freeSectors == 0 && mode' == mode
      ensures err == DirFull ==> AllEntriesUsed() && LastFull(fh.entry) && mode != Slipping
      ensures err == DirFull ==> mode' == if mode == Proper && fh.curSindex == 255 then Slipping else mode
      ensures Account(fh.entry) == old(Account(fh.entry)) && (err != Ok ==> fh.curSoffset == 0)
        && (err == DirFull ==> freeSectors > 0)
      ensures err != Ok ==> fh.curSindex == if err == DirFull then Advance(old(fh.curSindex)) else old(fh.curSindex)
      ensures err != Ok ==> L == old(L)
    {
      hide StoreOk, GrowStep, Appended, Touched, GetBit, Dir, Data, InMode, SpotInMode, WrittenIn, Times,
        AllEntriesUsed, FirstFrom;
      ghost var h: nat := fh.entry;
      mode' := mode;
      SeatOffset(g, mode, L, h, fh.size, fh.curSector, fh.curSoffset, fh.curEntry, fh.curSindex);
      if fh.curSoffset == 0 {
        ghost var S1 := S();
        ReadyFacts(g, mode, L, h, fh.size, fh.curSector, fh.curEntry, fh.curSindex);
        err := GrowFile(fh, mode);
        if err != Ok {
          mode' := if err == DirFull && mode == Proper && fh.curSindex == 255 then Slipping else mode;
          SameInMode(g, mode, mode', S0, S1, S(), h, n0, before);
          return;
        }
        mode' := if mode == Proper then Proper else Torn;
        GrownInMode(g, mode, mode', S0, S1, S(), h, n0, before, fh.curSector);
      } else {
        SeatIsSpot(g, mode, L, h, fh.size, fh.curSector, fh.curSoffset, fh.curEntry, fh.curSindex);
        err := Ok;
      }
    }

    /** Stores `chunk` at the handle's place, inside one sector, and moves the handle behind it. */
    method StoreChunk(fh: FileHandle, chunk: seq<byte>)
      requires |mem| == g.size && fh.curSector < g.sectors && fh.curSoffset + |chunk| <= g.sectorSize
      modifies this`mem, fh`size, fh`curOffset, fh`curSoffset
      ensures |mem| == g.size && Dir(g, mem) == old(Dir(g, mem))
      ensures Data(g, mem) == old(Data(g, mem))[fh.curSector := Splice(old(Data(g, mem))[fh.curSector], old(fh.curSoffset), chunk)]
      ensures fh.size == old(fh.size) + |chunk| && fh.curOffset == old(fh.curOffset) + |chunk|
      ensures fh.curSoffset == (old(fh.curSoffset) + |chunk|) % g.sectorSize
    {
      hide Dir, Data, Splice, SectorAddress;
      SectorWrite(g, mem, fh.curSector, fh.curSoffset, chunk);
      mem := Splice(mem, SectorAddress(g, fh.curSector) + fh.curSoffset, chunk);
      fh.size := fh.size + |chunk|;
      fh.curOffset := fh.curOffset + |chunk|;
      fh.curSoffset := (fh.curSoffset + |chunk|) % g.sectorSize;
    }

    /** The fields of a handle that say where it stands. */
    ghost function Place(fh: FileHandle): (byte, nat, byte, byte)
      reads fh
    {
      (fh.curSector, fh.curSoffset, fh.curEntry, fh.curSindex)
    }

    ghost predicate Ready(fh: FileHandle, mode: Mode)
      reads this, fh
    {
      InMode(g, mode, L, fh.entry, fh.size, fh.curSector, fh.curSoffset, fh.curEntry, fh.curSindex)
    }

    ghost predicate AtPlace(fh: FileHandle, mode: Mode)
      reads this, fh
    {
      SpotInMode(g, mode, L, fh.entry, fh.size, fh.curSector, fh.curSoffset, fh.curEntry, fh.curSindex)
    }

    lemma ModeSeats(fh: FileHandle, mode: Mode)
      ensures mode == Proper && WriteReady(fh) ==> Ready(fh, mode)
      ensures mode == Slipping && SlipReady(fh) ==> Ready(fh, mode)
      ensures mode == Torn && TornReady(fh) ==> Ready(fh, mode)
    {
    }

    /** A handle that can go on writing can be closed. */
    lemma CanRecord(fh: FileHandle)
      requires Valid() && (WriteReady(fh) || SlipReady(fh) || TornReady(fh))
      ensures Recordable(fh)
      ensures WriteReady(fh) || SlipReady(fh) ==> fh.size <= Times(g.sectorSize, |L.files[fh.entry as int].secs|)
      ensures TornReady(fh) ==> fh.size > Times(g.sectorSize, |L.files[fh.entry as int].secs|)
    {
      hide StoreOk, WriteSeat, SlipSeat, TornSeat;
      forall mode: Mode | Ready(fh, mode)
        ensures fh.entry as int in L.files && fh.size < 65536
        ensures fh.size <= Times(g.sectorSize, |L.files[fh.entry as int].secs|) || L.files[fh.entry as int].secs != []
        ensures mode == Torn <==> fh.size > Times(g.sectorSize, |L.files[fh.entry as int].secs|)
      {
        SeatRecords(g, mode, S(), fh.entry, fh.size, fh.curSector, fh.curSoffset, fh.curEntry, fh.curSindex);
        SeatOffset(g, mode, L, fh.entry, fh.size, fh.curSector, fh.curSoffset, fh.curEntry, fh.curSindex);
      }
      assert WriteReady(fh) ==> Ready(fh, Proper);
      assert SlipReady(fh) ==> Ready(fh, Slipping);
      assert TornReady(fh) ==> Ready(fh, Torn);
    }

    lemma ModesAre(fh: FileHandle, mode: Mode)
      requires Ready(fh, mode)
      ensures mode == Proper ==> WriteReady(fh)
      ensures mode == Slipping ==> SlipReady(fh)
      ensures mode == Torn ==> TornReady(fh)
    {
    }

    /** Reads the file's next bytes, at most `length` and at most what is left. */
    method Read(fh: FileHandle, length: nat) returns (err: Error, out: seq<byte>)
      requires Valid() && (fh.mode.ModeRead? ==> ReadReady(fh))
      modifies this`buf, fh
      ensures Valid() && S() == old(S()) && fh.mode == old(fh.mode)
      ensures fh.entry == old(fh.entry) && fh.size == old(fh.size) && fh.curOffset == old(fh.curOffset) + |out|
      ensures !fh.mode.ModeRead? ==> err == Invalid && out == [] && Place(fh) == old(Place(fh))
      ensures fh.mode.ModeRead? ==>
        (&& (err == Ok || err == Halted) && (err == Ok ==> ReadReady(fh))
         && fh.entry as int in V().contents && fh.curOffset <= |V().contents[fh.entry as int]|
         && out == V().contents[fh.entry as int][old(fh.curOffset)..fh.curOffset]
         && var want := if length < fh.size - old(fh.curOffset) then length else fh.size - old(fh.curOffset);
         && (err == Ok ==> |out| == want)
         && (err == Halted ==> fh.curOffset == |V().contents[fh.entry as int]|)
         && (err == Halted <==> |V().contents[fh.entry as int]| < fh.size && old(fh.curOffset) + want >= |V().contents[fh.entry as int]|))
    {
      hide StoreOk, GetBit, Dir, Data, ReadSpot, Times, ViewOf;
      out := [];
      if !fh.mode.ModeRead? {
        return Invalid, [];
      }
      ghost var h: nat, off, c := fh.entry, fh.curOffset, V().contents;
      ContentsLength(g, S(), h);
      if fh.curOffset < fh.size {
        ReadSpotFacts(g, L, h, fh.curOffset, fh.curSector, fh.curSoffset, fh.curEntry, fh.curSindex);
        SpotInside(g, S(), h, fh.curOffset, fh.curSector, fh.curSoffset, fh.curEntry, fh.curSindex, 0);
      }
      var left: nat := if length > fh.size - fh.curOffset then fh.size - fh.curOffset else length;
      while left > 0
        invariant fh.mode.ModeRead? && fh.entry as int == h && fh.size == old(fh.size)
        invariant Valid() && S() == old(S()) && ReadReady(fh)
        invariant fh.curOffset == off + |out| && fh.curOffset <= fh.size
        invariant fh.curOffset <= |c[h]| && (|c[h]| < fh.size ==> fh.curOffset < |c[h]|)
        invariant |out| + left == if length < fh.size - off then length else fh.size - off
        invariant out == c[h][off..fh.curOffset]
        decreases left
      {
        var len := if left < g.sectorSize - fh.curSoffset then left else g.sectorSize - fh.curSoffset;
        ReadSpotFacts(g, L, h, fh.curOffset, fh.curSector, fh.curSoffset, fh.curEntry, fh.curSindex);
        ReadChunk(g, S(), h, fh.curOffset, fh.curSector, fh.curSoffset, fh.curEntry, fh.curSindex, len);
        DataAt(g, mem, fh.curSector);
        var chunk := SectorAt(g, mem, fh.curSector)[fh.curSoffset..fh.curSoffset + len];
        Adjoin(c[h], off, fh.curOffset, fh.curOffset + len);
        out := out + chunk;
        left := left - len;
        var ok := StepOver(fh, len);
        if !ok {
          return Halted, out;
        }
      }
      err := Ok;
    }

    /** How many bytes the sectors of file `h` hold. */
    ghost function Capacity(h: nat): nat
      reads this
    {
      if h in L.files then Times(g.sectorSize, |L.files[h].secs|) else 0
    }

    /** Moves a reading handle behind `len` bytes of its sector, and to the next sector if that one is used up. */
    method StepOver(fh: FileHandle, len: nat) returns (ok: bool)
      requires Valid() && ReadReady(fh) && 0 < len && fh.curOffset + len <= fh.size
        && fh.curSoffset + len <= g.sectorSize
      modifies this`buf, fh`curOffset, fh`curSoffset, fh`curEntry, fh`curSindex, fh`curSector
      ensures fh.curOffset == old(fh.curOffset) + len && (ok ==> ReadReady(fh))
      ensures ok <==> fh.curOffset == fh.size || fh.curOffset < Capacity(fh.entry)
      ensures fh.curOffset <= Capacity(fh.entry)
    {
      hide StoreOk, GetBit, Dir, Data, ReadSpot, Times, ViewOf, Deleted, IsList;
      ghost var h: nat, off, so := fh.entry, fh.curOffset, fh.curSoffset;
      ModUpTo(fh.curSoffset + len, g.sectorSize);
      StayInSector(g, L, h, off, fh.curSector, so, fh.curEntry, fh.curSindex, len);
      ReadEntryFacts(g, S(), h, off, fh.curSector, so, fh.curEntry, fh.curSindex);
      SpotInside(g, S(), h, off, fh.curSector, so, fh.curEntry, fh.curSindex, len);
      fh.curOffset := fh.curOffset + len;
      fh.curSoffset := (fh.curSoffset + len) % g.sectorSize;
      ok := true;
      if fh.curOffset != fh.size && fh.curSoffset == 0 {
        ReadEntry(fh.curEntry);
        if fh.curOffset >= Times(g.sectorSize, |L.files[h].secs|) {
          NoNextSector(g, S(), h, off, fh.curSector, so, fh.curEntry, fh.curSindex, fh.curOffset);
        } else if fh.curSindex as int + 1 >= MaxSectors(buf) {
          NextReadEntry(g, S(), h, off, fh.curSector, so, fh.curEntry, fh.curSindex, fh.curOffset);
        } else {
          NextReadSlot(g, S(), h, off, fh.curSector, so, fh.curEntry, fh.curSindex, fh.curOffset);
        }
        if fh.curSindex as int + 1 >= MaxSectors(buf) {
          if Next(buf) == NONE {
            return false;
          }
          fh.curEntry := Next(buf);
          fh.curSindex := 0;
          ReadEntry(fh.curEntry);
        } else {
          fh.curSindex := fh.curSindex + 1;
        }
        if buf[fh.curSindex] == NONE {
          return false;
        }
        fh.curSector := buf[fh.curSindex];
      }
    }

    /** The handle delivers the bytes of its file from `curOffset` on. */
    ghost predicate ReadReady(fh: FileHandle)
      reads this, fh
    {
      ReadSeat(g, L, fh.entry, fh.size, fh.curOffset, fh.curSector, fh.curSoffset, fh.curEntry, fh.curSindex)
    }

    /** Finds a sector for the file's next byte and enters it in the directory, opening a list entry if needed. */
    method GrowFile(fh: FileHandle, ghost mode: Mode) returns (err: Error)
      requires Valid() && Ready(fh, mode) && fh.curSoffset == 0
      modifies this, fh`curSector, fh`curEntry, fh`curSindex
      ensures Valid()
      ensures err == Ok || err == DiskFull || err == DirFull
      ensures err == Ok && mode == Proper ==> GrowStep(g, old(S()), S(), fh.entry, fh.curSector) && AtPlace(fh, Proper)
      ensures err == Ok && mode != Proper ==> Touched(g, old(S()), S(), fh.entry) && AtPlace(fh, Torn)
      ensures err == Ok ==> FirstFrom(old(usedSectors), g.sectors, old(fh.curSector), fh.curSector)
      ensures err != Ok ==> mem == old(mem) && S() == old(S())
      ensures err == DiskFull ==> freeSectors == 0 && Ready(fh, mode)
      ensures err == DirFull ==> AllEntriesUsed() && LastFull(fh.entry) && mode != Slipping
      ensures err == DirFull ==> if mode == Proper && fh.curSindex == 255 then Ready(fh, Slipping) else Ready(fh, mode)
      ensures Account(fh.entry) == old(Account(fh.entry)) && (err == DirFull ==> freeSectors > 0)
      ensures err != Ok ==> fh.curSindex == if err == DirFull then Advance(old(fh.curSindex)) else old(fh.curSindex)
    {
      hide StoreOk, GrowStep, Structure, Bookkeeping, GetBit, Dir, Data, Base, Advance, InMode, SpotInMode, Drifting, Held, Times, Touched,
           AllEntriesUsed, Grown, Swapped, Extended, Overcounts, FreeEntries, Rewritten, LastHeld, Capacity, FirstFrom;
      ReadyFacts(g, mode, L, fh.entry, fh.size, fh.curSector, fh.curEntry, fh.curSindex);
      StoreFacts(g, S());
      var nextSector := NextFreeSector(fh.curSector);
      if nextSector == NONE {
        NothingFree(g, S());
        return DiskFull;
      }
      err := TakeSector(fh, nextSector, mode);
    }

    /** Enters a free sector where the handle thinks that the file's next one belongs. */
    method TakeSector(fh: FileHandle, nextSector: byte, ghost mode: Mode) returns (err: Error)
      requires Valid() && Ready(fh, mode) && fh.curSoffset == 0 && nextSector < g.sectors
        && !GetBit(usedSectors, nextSector)
      modifies this, fh`curSector, fh`curEntry, fh`curSindex
      ensures Valid() && (err == Ok || err == DirFull) && fh.curSector == nextSector
      ensures err == Ok && mode == Proper ==> GrowStep(g, old(S()), S(), fh.entry, fh.curSector) && AtPlace(fh, Proper)
      ensures err == Ok && mode != Proper ==> Touched(g, old(S()), S(), fh.entry) && AtPlace(fh, Torn)
      ensures err == DirFull ==> mem == old(mem) && S() == old(S()) && freeSectors > 0
      ensures err == DirFull ==> AllEntriesUsed() && LastFull(fh.entry) && mode != Slipping && fh.curSindex == Advance(old(fh.curSindex))
      ensures err == DirFull ==> if mode == Proper && fh.curSindex == 255 then Ready(fh, Slipping) else Ready(fh, mode)
      ensures Account(fh.entry) == old(Account(fh.entry))
    {
      hide StoreOk, GrowStep, Structure, Bookkeeping, GetBit, Dir, Data, Base, Advance, InMode, SpotInMode, Drifting, Held, Times, Touched,
           AllEntriesUsed, Grown, Swapped, Extended, Overcounts, FreeEntries;
      ghost var h: nat := fh.entry;
      ReadyFacts(g, mode, L, h, fh.size, fh.curSector, fh.curEntry, fh.curSindex);
      ghost var L0, f, e, i := L, L.files[h], fh.curEntry, fh.curSindex;
      StoreFacts(g, S());
      LastEntryFacts(g, Dir(g, mem), L, h);
      FullBefore(g, Dir(g, mem), L, h);
      SectorIsFree(g, S(), nextSector);
      SlotOf(g, mode, L, h, fh.size, fh.curSector, fh.curEntry, fh.curSindex, nextSector);
      fh.curSector := nextSector;
      ReadEntry(fh.curEntry);
      fh.curSindex := Advance(fh.curSindex);
      if fh.curSindex as int >= MaxSectors(buf) {
        err := EnterInNewEntry(fh);
        if err == Ok {
          LinkedFacts(g, mode, L0, h, fh.size, fh.curSector, fh.curEntry);
          GrowTouches(g, old(S()), S(), h, fh.curSector);
        }
      } else {
        EnterInEntry(fh);
        EnteredFacts(g, mode, L0, L, h, fh.size, fh.curSector, e, i);
        if |f.secs| == Base(|f.chain| - 1) + fh.curSindex as int {
          GrowTouches(g, old(S()), S(), h, fh.curSector);
        }
        err := Ok;
      }
    }

    /** The handle's last entry is in the buffer, and its chosen sector is free. */
    ghost predicate ReadyToEnter(fh: FileHandle)
      reads this, fh
    {
      && Valid() && fh.entry as int in L.files
      && fh.curSector < g.sectors && !GetBit(usedSectors, fh.curSector) && freeSectors > 0
      && fh.curSector as int !in Held(L)
      && var f := L.files[fh.entry as int];
      && f.chain != [] && fh.curEntry as int == f.chain[|f.chain| - 1] && fh.curEntry < g.entries
      && fh.curEntry as int in L.entOwner
      && buf == Dir(g, mem)[fh.curEntry]
    }

    /** Enters the sector chosen for the handle in a slot of the file's last entry, be it the next one or one in use. */
    method EnterInEntry(fh: FileHandle)
      requires ReadyToEnter(fh)
      requires var f := L.files[fh.entry as int];
        Base(|f.chain| - 1) + fh.curSindex as int <= |f.secs|
        && Base(|f.chain| - 1) + fh.curSindex as int < Base(|f.chain|) && fh.curSindex < 30
      modifies this`mem, this`buf, this`usedSectors, this`freeSectors, this`L
      ensures Valid()
      ensures old(NextSlotIs(fh)) ==> GrowStep(g, old(S()), S(), fh.entry, fh.curSector) && L == Grown(old(L), fh.entry, fh.curSector)
      ensures !old(NextSlotIs(fh)) ==>
        (&& Touched(g, old(S()), S(), fh.entry) && |L.lost| == |old(L).lost| + 1
         && L == Swapped(old(L), fh.entry, Base(|old(L).files[fh.entry as int].chain| - 1) + fh.curSindex as int, fh.curSector))
      ensures Account(fh.entry) == old(Account(fh.entry))
    {
      hide StoreOk, GrowStep, GetBit, Dir, Data, Grown, Swapped, Booked, SlotFilled, SlotRefilled, Base, SetByte,
        SetEntry, ErasedEntry, Held, Touched;
      ghost var h: nat := fh.entry;
      ghost var S0, f := S(), L.files[fh.entry as int];
      ghost var next := NextSlotIs(fh);
      if next {
        SlotFilledBy(S0.dir, f, fh.curEntry, fh.curSindex, fh.curSector);
      } else {
        SlotRefilledBy(S0.dir, f, fh.curEntry, fh.curSindex, fh.curSector);
      }
      FinishGrow(fh, fh.curSector);
      ChainsAfter(L, h, Base(|f.chain| - 1) + fh.curSindex as int, fh.curSector);
      if next {
        L := Grown(L, h, fh.curSector);
        EnterSlot(g, S0, S(), h, fh.curSindex, fh.curSector);
        GrowStepFacts(g, S0, S(), h, fh.curSector);
      } else {
        L := Swapped(L, h, Base(|f.chain| - 1) + fh.curSindex as int, fh.curSector);
        SwapStep(g, S0, S(), h, fh.curSindex, fh.curSector);
        TouchedFacts(g, S0, S(), h);
      }
    }

    /** The slot index of the handle is that of the file's next sector. */
    ghost predicate NextSlotIs(fh: FileHandle)
      reads this, fh
    {
      && fh.entry as int in L.files && L.files[fh.entry as int].chain != []
      && |L.files[fh.entry as int].secs| == Base(|L.files[fh.entry as int].chain| - 1) + fh.curSindex as int
    }

    /** Links a free entry behind the file's full last entry, and enters the chosen sector there. */
    method EnterInNewEntry(fh: FileHandle) returns (err: Error)
      requires ReadyToEnter(fh)
      requires |L.files[fh.entry as int].secs| == Base(|L.files[fh.entry as int].chain|)
      modifies this, fh`curEntry, fh`curSindex
      ensures Valid()
      ensures err == Ok || err == DirFull
      ensures err == Ok ==> GrowStep(g, old(S()), S(), fh.entry, fh.curSector) && fh.curSindex == 0
      ensures err == Ok ==> L == Extended(old(L), fh.entry, fh.curEntry, fh.curSector)
      ensures err == Ok ==> FirstFrom(old(usedEntries), g.entries, old(fh.curEntry), fh.curEntry)
      ensures err == DirFull ==> AllEntriesUsed() && mem == old(mem) && S() == old(S())
      ensures err == DirFull ==> fh.curEntry == old(fh.curEntry) && fh.curSindex == old(fh.curSindex)
      ensures Account(fh.entry) == old(Account(fh.entry))
    {
      hide StoreOk, GrowStep, GetBit, Dir, Data, Extended, Booked, BookedEntry, EntryLinked, Base, AllEntriesUsed,
        Bit, Structure, GeometryOk, SetByte, SetEntry, ErasedEntry, Held, FirstFrom;
      ghost var h: nat := fh.entry;
      ghost var S0, f, last := S(), L.files[fh.entry as int], fh.curEntry;
      var nextEntry := LinkEntry(fh.curEntry);
      if nextEntry == NONE {
        return DirFull;
      }
      fh.curEntry := nextEntry;
      fh.curSindex := 0;
      FinishGrow(fh, fh.curSector);
      ChainAfter(L, h, nextEntry, fh.curSector);
      L := Extended(L, h, nextEntry, fh.curSector);
      EntryIsFree(g, S0, nextEntry);
      EntryTaken(g, S0.ue, usedEntries, nextEntry);
      EntryLinkedBy(S0.dir, f, last, nextEntry, fh.curSector);
      EnterEntry(g, S0, S(), h, nextEntry, fh.curSector);
      GrowStepFacts(g, S0, S(), h, fh.curSector);
      err := Ok;
    }

    /** Reserves a free entry, links it behind entry `last`, and builds an empty list entry in the buffer. */
    method LinkEntry(last: byte) returns (nextEntry: byte)
      requires Shaped() && last < g.entries && buf == Dir(g, mem)[last]
      modifies this`mem, this`buf, this`usedEntries
      ensures Shaped() && Data(g, mem) == old(Data(g, mem))
      ensures nextEntry == NONE ==> AllEntriesUsed() && mem == old(mem) && usedEntries == old(usedEntries)
      ensures nextEntry != NONE ==> nextEntry < g.entries && !GetBit(old(usedEntries), nextEntry)
      ensures nextEntry != NONE ==> BookedEntry(g, old(usedEntries), usedEntries, nextEntry)
      ensures nextEntry != NONE ==> FirstFrom(old(usedEntries), g.entries, last, nextEntry)
      ensures nextEntry != NONE ==> buf == SetByte(ErasedEntry(), 30, 2)
      ensures nextEntry != NONE ==> Dir(g, mem) == SetEntry(old(Dir(g, mem)), last, SetByte(old(buf), 31, nextEntry))
    {
      nextEntry := NextFreeEntry(last);
      if nextEntry != NONE {
        buf := SetByte(buf, 31, nextEntry);
        WriteEntry(last);
        buf := SetByte(ErasedEntry(), 30, 2);
      }
    }

    /** Books the sector and stores it in the entry built in the buffer. */
    method FinishGrow(fh: FileHandle, sector: byte)
      requires Shaped() && sector < g.sectors && !GetBit(usedSectors, sector) && freeSectors > 0
      requires fh.curEntry < g.entries && fh.curSindex < 30
      modifies this`mem, this`buf, this`usedSectors, this`freeSectors
      ensures Shaped() && Booked(g, old(usedSectors), old(freeSectors), usedSectors, freeSectors, sector)
      ensures Data(g, mem) == old(Data(g, mem))
      ensures Dir(g, mem) == SetEntry(old(Dir(g, mem)), fh.curEntry, SetByte(old(buf), fh.curSindex, sector))
    {
      MarkSector(sector, true);
      buf := SetByte(buf, fh.curSindex, sector);
      WriteEntry(fh.curEntry);
    }

    /** The last entry of the file has no room for another sector. */
    ghost predicate LastFull(h: nat)
      reads this
    {
      h in L.files && |L.files[h].secs| == Base(|L.files[h].chain|)
    }

    ghost function EntriesLeft(): nat
      reads this
    {
      FreeEntries(g, usedEntries)
    }

    /** The entries that are left and those of the file, which takes its entries from them. */
    ghost function Account(h: nat): nat
      reads this
    {
      EntriesLeft() + if h in L.files then |L.files[h].chain| else 0
    }

    lemma NoEntriesLeft()
      requires Shaped()
      ensures AllEntriesUsed() <==> EntriesLeft() == 0
    {
      hide GetBit;
      NoneUnmarked(usedEntries, g.entries);
    }

    /** The slot number in the handle is that of the file's last sector. */
    ghost predicate SlotSeated(fh: FileHandle)
      reads this, fh
    {
      fh.entry as int in L.files && Seated(L.files[fh.entry as int], fh.curSindex)
    }

    ghost predicate AllEntriesUsed()
      reads this
    {
      forall i: nat :: i < g.entries ==> i / 8 < |usedEntries| && GetBit(usedEntries, i)
    }

    /** The handle can append the next byte to its file. */
    ghost predicate WriteReady(fh: FileHandle)
      reads this, fh
    {
      && fh.entry as int in L.files
      && WriteSeat(g, L.files[fh.entry as int], fh.size, fh.curSector, fh.curSoffset, fh.curEntry, fh.curSindex)
    }

    /** The handle can append as far as the file's last sector goes; the next sector will be put over another one. */
    ghost predicate SlipReady(fh: FileHandle)
      reads this, fh
    {
      && fh.entry as int in L.files
      && SlipSeat(g, L.files[fh.entry as int], fh.size, fh.curSector, fh.curSoffset, fh.curEntry, fh.curSindex)
    }

    /** The handle has put a sector over another one. */
    ghost predicate TornReady(fh: FileHandle)
      reads this, fh
    {
      TornSeat(g, L, fh.entry, fh.size, fh.curSector, fh.curSoffset, fh.curEntry, fh.curSindex)
    }
  }

  /** `s` is met before `r` when counting up from `start` and wrapping. */
  ghost predicate CyclicBetween(start: nat, s: nat, r: nat) {
    if start <= r then start <= s < r else start <= s || s < r
  }

  /** The first of the `n` clear bits of a bitmap, going round from `start`. */
  ghost predicate FirstFrom(bits: seq<byte>, n: nat, start: nat, r: nat) {
    && |bits| == (n + 7) / 8 && r < n && !GetBit(bits, r)
    && forall s: nat :: s < n && CyclicBetween(start, s, r) ==> GetBit(bits, s)
  }
}
