/**
 Appending to an empty file of the EEPROM file system. Opening takes the number of its last sector from a slot
 that is not used, and so the search for a first sector starts from 255.
 */
module EepromEmpty {
  import opened Bits
  import opened Common
  import opened EepromLayout
  import opened EepromStructure
  import opened EepromStore
  import opened EepromFs
  import opened EepromRun
  import opened EepromAppend

  /** Where the search for a free sector goes on behind `cur`. */
  function NextPlace(g: Geometry, cur: byte): byte {
    var next := (cur + 1) % 256;
    if next == g.sectors then 0 else next
  }

  /**
   The search from 255. It first looks at the bit that many places into the bitmap, which is no sector's and may lie
   behind the map; `behind` is what it finds there. If that is clear, 255 itself is the result, which stands for none.
   */
  method SearchFromNowhere(fs: Store, behind: bool) returns (cur: byte)
    requires |fs.usedSectors| == (fs.g.sectors + 7) / 8
    requires behind ==> exists s: nat :: s < fs.g.sectors && !GetBit(fs.usedSectors, s)
    ensures !behind ==> cur == NONE
    ensures behind ==> cur < fs.g.sectors && !GetBit(fs.usedSectors, cur)
    ensures behind ==> forall s: nat :: s < cur as nat ==> GetBit(fs.usedSectors, s)
  {
    hide GetBit;
    cur := NONE;
    if !behind {
      return;
    }
    ghost var free: nat :| free < fs.g.sectors && !GetBit(fs.usedSectors, free);
    cur := NextPlace(fs.g, cur);
    while GetBit(fs.usedSectors, cur)
      invariant cur < fs.g.sectors && cur as nat <= free
      invariant forall s: nat :: s < cur as nat ==> GetBit(fs.usedSectors, s)
      decreases free - cur
    {
      cur := NextPlace(fs.g, cur);
    }
  }

  /** With no sector free it goes round for ever: it never comes to a clear bit, nor back to 255. */
  lemma SearchGoesOn(g: Geometry, us: seq<byte>, cur: byte)
    requires |us| == (g.sectors + 7) / 8 && (cur < g.sectors || cur == NONE)
    requires forall s: nat :: s < g.sectors ==> GetBit(us, s)
    ensures NextPlace(g, cur) < g.sectors && NextPlace(g, cur) != NONE && GetBit(us, NextPlace(g, cur))
  {
  }

  /** In a sound directory no file has an unused slot in front of a used one. */
  lemma SlotsInOrder(g: Geometry, dir: seq<Entry>, L: Layout, h: nat)
    requires Structure(g, dir, L) && h < |dir| && !Deleted(dir[h]) && !IsList(dir[h]) && dir[h][0] == NONE
    ensures dir[h][1] == NONE
  {
    hide Deleted, IsList;
    NameEntriesAreFiles(g, dir, L, h);
    ChainEntryFacts(g, dir, L, h, 0);
    assert dir[h][0] as int == SlotValue(L.files[h], 0) && dir[h][1] as int == SlotValue(L.files[h], 1);
    assert FileOk(g, dir, h, L.files[h]);
  }

  /** So there is no layout for a directory with such an entry. */
  lemma NoLayout(g: Geometry, dir: seq<Entry>, h: nat)
    requires h < |dir| && !Deleted(dir[h]) && !IsList(dir[h]) && dir[h][0] == NONE && dir[h][1] != NONE
    ensures forall L :: !Structure(g, dir, L)
  {
    hide Deleted, IsList, Structure;
    forall L
      ensures !Structure(g, dir, L)
    {
      if Structure(g, dir, L) {
        SlotsInOrder(g, dir, L, h);
      }
    }
  }

  /** File `h` has no sectors, and the handle was opened to append to it. */
  ghost predicate Nowhere(fs: Store, fh: FileHandle)
    reads fs, fh
  {
    && fs.Valid() && fh.mode.ModeWrite? && fh.entry as int in fs.L.files && fs.L.files[fh.entry as int].secs == []
    && fh.curEntry == fh.entry && fh.curSector == NONE && fh.curSindex == 0 && fh.curSoffset == 0
  }

  /** What the slots of an empty file hold. */
  lemma EmptyEntry(g: Geometry, S: Snapshot, h: nat)
    requires StoreOk(g, S) && h in S.L.files && S.L.files[h].secs == []
    ensures h < |S.dir| == g.entries && !Deleted(S.dir[h]) && !IsList(S.dir[h]) && S.dir[h][0] == NONE && MaxSectors(S.dir[h]) > 1
  {
    hide DataShaped, Bookkeeping, Deleted;
    NameEntriesAreFiles(g, S.dir, S.L, h);
    ChainEntryFacts(g, S.dir, S.L, h, 0);
  }

  lemma SomeFree(g: Geometry, S: Snapshot)
    requires StoreOk(g, S) && S.free > 0
    ensures exists s: nat :: s < g.sectors && !GetBit(S.us, s)
  {
    hide GetBit;
    if forall s: nat :: s < g.sectors ==> GetBit(S.us, s) {
      NothingFree(g, S);
    }
  }

  lemma SecondSlot(e: Entry, s: byte)
    requires !Deleted(e) && !IsList(e) && e[0] == NONE
    ensures var e' := SetByte(e, 1, s); !Deleted(e') && !IsList(e') && e'[0] == NONE && e'[1] == s
  {
  }

  /** What the first piece of a write to an empty file changes: slot 1 of its entry, and the first free sector. */
  ghost predicate GapLeft(g: Geometry, S: Snapshot, dir: seq<Entry>, data: seq<seq<byte>>, h: nat, s: nat, bytes: seq<byte>) {
    && h < |S.dir| && s < g.sectors && s < |S.data| && |bytes| <= g.sectorSize == |S.data[s]|
    && |S.us| == (g.sectors + 7) / 8 && !GetBit(S.us, s) && (forall r: nat :: r < s ==> GetBit(S.us, r))
    && dir == SetEntry(S.dir, h, SetByte(S.dir[h], 1, s))
    && data == S.data[s := Splice(S.data[s], 0, bytes)]
  }

  /**
   The first turn of a write there. If the bit behind is clear the disk is said to be full, whatever is free; if it
   is set, the first free sector goes to slot 1 of the file's entry, and the bytes into it, but slot 0 stays unused.
   No layout describes the directory then.
   */
  method FirstTurn(fs: Store, fh: FileHandle, bytes: seq<byte>, behind: bool) returns (err: Error, n: nat)
    requires Nowhere(fs, fh) && bytes != [] && (behind ==> fs.freeSectors > 0)
    modifies fs, fh
    ensures |fs.mem| == fs.g.size && n <= |bytes| && fh.entry == old(fh.entry)
    ensures !behind ==> err == DiskFull && n == 0 && fs.Valid() && fs.S() == old(fs.S())
    ensures behind ==> err == Ok && n == Least(|bytes|, fs.g.sectorSize) && fh.size == old(fh.size) + n
    ensures behind ==>
      GapLeft(fs.g, old(fs.S()), Dir(fs.g, fs.mem), Data(fs.g, fs.mem), fh.entry, fh.curSector, bytes[..n])
    ensures behind ==> forall L :: !Structure(fs.g, Dir(fs.g, fs.mem), L)
  {
    hide StoreOk, Dir, Data, GetBit, Deleted, IsList, Structure, SetByte, SetEntry, Splice;
    ghost var S0 := fs.S();
    StoreFacts(fs.g, S0);
    EmptyEntry(fs.g, S0, fh.entry);
    n := 0;
    if behind {
      SomeFree(fs.g, S0);
    }
    var nextSector := SearchFromNowhere(fs, behind);
    if nextSector == NONE {
      return DiskFull, n;
    }
    fh.curSector := nextSector;
    EnterSecond(fs, fh);
    n := Least(|bytes|, fs.g.sectorSize);
    fs.StoreChunk(fh, bytes[..n]);
    SecondSlot(S0.dir[fh.entry], nextSector);
    EntryThere(S0.dir, fh.entry, SetByte(S0.dir[fh.entry], 1, nextSector));
    NoLayout(fs.g, Dir(fs.g, fs.mem), fh.entry);
    err := Ok;
  }

  /** Marks the sector as used, and enters it in the slot after the one in the handle. */
  method EnterSecond(fs: Store, fh: FileHandle)
    requires fs.Shaped() && fh.curEntry < fs.g.entries && fh.curSindex == 0
    requires fh.curSector < fs.g.sectors && !GetBit(fs.usedSectors, fh.curSector) && fs.freeSectors > 0
    modifies fs`buf, fs`mem, fs`usedSectors, fs`freeSectors, fh`curSindex
    ensures |fs.mem| == fs.g.size && Data(fs.g, fs.mem) == old(Data(fs.g, fs.mem))
    ensures var dir := old(Dir(fs.g, fs.mem));
      Dir(fs.g, fs.mem) == SetEntry(dir, fh.curEntry, SetByte(dir[fh.curEntry], 1, fh.curSector))
    ensures |fs.usedSectors| == (fs.g.sectors + 7) / 8 && fs.freeSectors == old(fs.freeSectors) - 1
    ensures forall s: nat :: s < fs.g.sectors ==>
      (GetBit(fs.usedSectors, s) <==> s == fh.curSector as nat || GetBit(old(fs.usedSectors), s))
  {
    hide Dir, Data, GetBit, SetByte, SetEntry;
    fs.ReadEntry(fh.curEntry);
    fh.curSindex := fh.curSindex + 1;
    fs.MarkSector(fh.curSector, true);
    fs.buf := SetByte(fs.buf, fh.curSindex, fh.curSector);
    fs.WriteEntry(fh.curEntry);
  }

  lemma EntryThere(dir: seq<Entry>, h: nat, e: Entry)
    requires h < |dir|
    ensures |SetEntry(dir, h, e)| == |dir| && SetEntry(dir, h, e)[h] == e
  {
  }

  /**
   Opens an empty file for appending and takes the first turn of a write to it: either nothing is written though
   sectors are free, or the directory is not sound any more. Only an append of nothing goes right.
   */
  method AppendToEmpty(fs: Store, fh: FileHandle, name: seq<byte>, bytes: seq<byte>, behind: bool, ghost h: nat)
    returns (err: Error, n: nat)
    requires Appendable(fs, h, name) && |name| == NAME_LENGTH && fs.L.files[h].secs == [] && bytes != []
    requires behind ==> fs.freeSectors > 0
    modifies fs, fh
    ensures |fs.mem| == fs.g.size && n <= |bytes|
    ensures !behind ==> err == DiskFull && n == 0 && fs.Valid() && fs.S() == old(fs.S())
    ensures behind ==> err == Ok && n == Least(|bytes|, fs.g.sectorSize) && fh.size == n && fh.entry as int == h
    ensures behind ==> GapLeft(fs.g, old(fs.S()), Dir(fs.g, fs.mem), Data(fs.g, fs.mem), h, fh.curSector, bytes[..n])
    ensures behind ==> forall L :: !Structure(fs.g, Dir(fs.g, fs.mem), L)
  {
    hide StoreOk, ViewOf, Dir, Data, Structure, GapLeft;
    ghost var S0 := fs.S();
    TakenBy(fs.V(), name, h);
    err := fs.Open(name, fh, ForAppending);
    SameName(fs.g, S0, h, fh.entry);
    err, n := FirstTurn(fs, fh, bytes, behind);
  }
}
