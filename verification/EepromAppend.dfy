/**
 Appending to a file of the EEPROM file system: when the file reads as its old contents and the new bytes,
 and what happens when it does not.
 */
module EepromAppend {
  import opened Bits
  import opened Common
  import opened EepromLayout
  import opened EepromStructure
  import opened EepromStore
  import opened EepromFs
  import opened EepromRun

  /**
   What a caller can see beforehand: the last directory entry of the file holds one sector, or the bytes go
   into what is left of the file's last sector.
   */
  ghost predicate AppendFits(g: Geometry, f: File, size: nat, n: nat) {
    && f.chain != []
    && (|| LastHeld(f) == 1 || n == 0
        || (size % g.sectorSize != 0 && n <= g.sectorSize - size % g.sectorSize))
  }

  /** The bytes of file `h` up to its recorded size. */
  ghost function Recording(v: View, h: nat): seq<byte>
    requires h in v.sizes && h in v.contents && v.sizes[h] <= |v.contents[h]|
  {
    v.contents[h][..v.sizes[h]]
  }

  /** File `h` is called `name` and was closed properly. */
  ghost predicate Appendable(fs: Store, h: nat, name: seq<byte>)
    reads fs
  {
    && fs.Valid() && h in fs.L.files && h !in fs.L.torn
    && h in fs.V().names && fs.V().names[h] == name
    && h in fs.V().sizes && WellEnded(fs.g, fs.L.files[h], fs.V().sizes[h])
    && h in fs.V().contents && fs.V().sizes[h] <= |fs.V().contents[h]|
  }

  /**
   Appends to a closed file, closes it and reads all of it. With room for the bytes the file gives its old
   contents and the new bytes if and only if the append fits; if it does not fit, the program ends at an
   assertion when it reads the file. (An empty file is opened with a sector number that is no sector; only the
   append of nothing is looked at there.)
   */
  method AppendThenRead(fs: Store, name: seq<byte>, bytes: seq<byte>, ghost h: nat) returns (err: Error, readErr: Error, out: seq<byte>)
    requires Appendable(fs, h, name) && |name| == NAME_LENGTH && (bytes != [] ==> fs.L.files[h].secs != [])
    modifies fs
    ensures fs.Valid() && (err == Ok || err == DiskFull || err == DirFull)
    ensures err == DiskFull ==> fs.freeSectors == 0
    ensures err == DirFull ==> fs.AllEntriesUsed()
    ensures err == Ok ==>
      (readErr == Ok && out == old(Recording(fs.V(), h)) + bytes
       <==> old(AppendFits(fs.g, fs.L.files[h], fs.V().sizes[h], |bytes|)))
    ensures err == Ok && !old(AppendFits(fs.g, fs.L.files[h], fs.V().sizes[h], |bytes|)) ==> readErr == Halted
    ensures err == Ok && old(AppendFits(fs.g, fs.L.files[h], fs.V().sizes[h], |bytes|)) ==>
      fs.L.lost == old(fs.L.lost) && fs.L.torn == old(fs.L.torn)
  {
    hide StoreOk, Appended, Touched, ViewOf, Times, WellEnded, AppendFits;
    readErr, out := Ok, [];
    var fh := new FileHandle();
    ghost var fits := AppendFits(fs.g, fs.L.files[h], fs.V().sizes[h], |bytes|);
    var written;
    err, written := OpenAndAppend(fs, fh, name, bytes, h);
    if err != Ok {
      return;
    }
    AfterWrite(fs.g, old(fs.S()), fs.S(), h, old(fs.V().sizes[h]), bytes, fits);
    readErr, out := CloseAndRead(fs, fh, name, h);
  }

  /** Opens a closed file for appending and writes to it. */
  method OpenAndAppend(fs: Store, fh: FileHandle, name: seq<byte>, bytes: seq<byte>, ghost h: nat) returns (err: Error, written: nat)
    requires Appendable(fs, h, name) && |name| == NAME_LENGTH && (bytes != [] ==> fs.L.files[h].secs != [])
    modifies fs, fh
    ensures fs.Valid() && (err == Ok || err == DiskFull || err == DirFull) && fh.entry as int == h && fh.mode.ModeWrite?
    ensures if err == Ok then written == |bytes| else written < |bytes|
    ensures fh.size == old(fs.V().sizes[h]) + written
    ensures err == DiskFull ==> fs.freeSectors == 0
    ensures err == DirFull ==> fs.AllEntriesUsed() && fs.LastFull(h)
    ensures err == Ok ==> fs.Recordable(fh)
    ensures err == Ok ==>
      if old(AppendFits(fs.g, fs.L.files[h], fs.V().sizes[h], |bytes|))
      then Appended(fs.g, old(fs.S()), fs.S(), h, old(fs.V().sizes[h]), bytes) && fh.size <= Times(fs.g.sectorSize, |fs.L.files[h].secs|)
      else Touched(fs.g, old(fs.S()), fs.S(), h) && fh.size > Times(fs.g.sectorSize, |fs.L.files[h].secs|)
    ensures err != Ok && written == 0 ==>
      Appended(fs.g, old(fs.S()), fs.S(), h, old(fs.V().sizes[h]), []) && WellEnded(fs.g, fs.L.files[h], fh.size)
  {
    hide StoreOk, Appended, Touched, ViewOf, Taken, SizeEndsIn, TornSeat, ReadSeat, Times;
    ghost var S0, size := fs.S(), fs.V().sizes[h];
    TakenBy(fs.V(), name, h);
    err := fs.Open(name, fh, ForAppending);
    SameName(fs.g, S0, h, fh.entry);
    if fs.L.files[h].secs != [] {
      LastOfMany(fs.g, S0, h);
    }
    err, written := fs.Write(fh, bytes);
    assert bytes[..0] == [] && bytes[..|bytes|] == bytes;
    if bytes == [] {
      NothingToAppend(fs.g, S0, h, size);
    } else if err == Ok {
      fs.CanRecord(fh);
    }
  }

  /** Closes a file and reads all of it. */
  method CloseAndRead(fs: Store, fh: FileHandle, name: seq<byte>, ghost h: nat) returns (err: Error, out: seq<byte>)
    requires fs.Valid() && |name| == NAME_LENGTH && fh.mode.ModeWrite? && fs.Recordable(fh) && fh.entry as int == h
    requires h in fs.V().names && fs.V().names[h] == name
    modifies fs, fh
    ensures fs.Valid() && fs.L == Recorded(fs.g, old(fs.L), h, old(fh.size)) && h in old(fs.V().contents)
    ensures fs.V() == old(fs.V()).(sizes := old(fs.V()).sizes[h := old(fh.size)]) && fh.entry == old(fh.entry)
    ensures if old(fh.size) <= Times(fs.g.sectorSize, |old(fs.L).files[h].secs|)
            then old(fh.size) <= |old(fs.V().contents[h])| && err == Ok && out == old(fs.V().contents[h])[..old(fh.size)]
            else err == Halted
  {
    hide StoreOk, ViewOf, Taken, ReadSeat, Times, Recorded;
    ContentsLength(fs.g, fs.S(), h);
    fs.Close(fh);
    TakenBy(fs.V(), name, h);
    err := fs.Open(name, fh, ForReading);
    SameName(fs.g, fs.S(), h, fh.entry);
    err, out := fs.Read(fh, fh.size);
  }

  lemma NothingToAppend(g: Geometry, S: Snapshot, h: nat, size: nat)
    requires StoreOk(g, S) && h in S.L.files && h in ViewOf(S).contents && size <= |ViewOf(S).contents[h]|
    ensures Appended(g, S, S, h, size, []) && size <= Times(g.sectorSize, |S.L.files[h].secs|) && size < 65536
  {
    hide StoreOk, ViewOf, Appended;
    ContentsLength(g, S, h);
    AppendNothing(g, S, h, size);
    SizesStaySmall(g, S, h);
  }

  /** A file with sectors has at least one in its last entry. */
  lemma LastOfMany(g: Geometry, S: Snapshot, h: nat)
    requires StoreOk(g, S) && h in S.L.files && S.L.files[h].secs != []
    ensures S.L.files[h].chain != [] && LastHeld(S.L.files[h]) >= 1
  {
    hide StoreOk, Structure;
    StoreFacts(g, S);
    LastEntryFacts(g, S.dir, S.L, h);
    FullBefore(g, S.dir, S.L, h);
  }

  lemma AfterWrite(g: Geometry, S: Snapshot, S': Snapshot, h: nat, n: nat, bytes: seq<byte>, fits: bool)
    requires if fits then Appended(g, S, S', h, n, bytes) else Touched(g, S, S', h)
    requires h in ViewOf(S).names && StoreOk(g, S)
    ensures h in ViewOf(S').names && ViewOf(S').names[h] == ViewOf(S).names[h] && ViewOf(S').sizes == ViewOf(S).sizes
    ensures h in S'.L.files && S'.L.files.Keys == S.L.files.Keys && StoreOk(g, S') && S'.L.torn == S.L.torn
    ensures fits ==> h in ViewOf(S).contents && h in ViewOf(S').contents && n <= |ViewOf(S).contents[h]|
    ensures fits ==> n + |bytes| <= |ViewOf(S').contents[h]| && S'.L.lost == S.L.lost
    ensures fits ==> ViewOf(S').contents[h][..n + |bytes|] == ViewOf(S).contents[h][..n] + bytes
  {
    hide StoreOk, ViewOf;
  }

  // ----- a store on which it fails -----

  /** With one file and nothing lost, the sectors that are not the file's are free. */
  lemma OnlyFile(g: Geometry, S: Snapshot, h: nat)
    requires StoreOk(g, S) && S.L.files.Keys == {h} && S.L.lost == {}
    ensures S.free + |S.L.files[h].secs| >= g.sectors
  {
    hide StoreOk, Structure, Bookkeeping, Held, EntriesOwned;
    StoreFacts(g, S);
    SectorsAreOwned(g, S.dir, S.L);
    BooksFacts(g, S.L, S.us, S.ue, S.free);
    HeldIs(S.L);
    assert S.L.secOwner.Keys + {} == S.L.secOwner.Keys;
    forall s | s in S.L.secOwner
      ensures s in Elements(S.L.files[h].secs)
    {
    }
    Inclusion(S.L.secOwner.Keys, Elements(S.L.files[h].secs));
    SecsDistinct(g, S.dir, S.L, h);
    DistinctCount(S.L.files[h].secs);
  }

  /** A file of two full sectors on an otherwise empty store. */
  lemma TwoSectors(g: Geometry, S: Snapshot, h: nat, size: nat)
    requires StoreOk(g, S) && h in S.L.files && WellEnded(g, S.L.files[h], size) && size <= Times(g.sectorSize, 2)
    ensures |S.L.files[h].secs| <= 2 && |S.L.files[h].secs| < Base(|S.L.files[h].chain|)
    ensures size == Times(g.sectorSize, 2) ==> LastHeld(S.L.files[h]) == 2
  {
    hide StoreOk, Structure, Times;
    var f := S.L.files[h];
    StoreFacts(g, S);
    LastEntryFacts(g, S.dir, S.L, h);
    FullBefore(g, S.dir, S.L, h);
    FewSectors(g.sectorSize, |f.secs|, 2, size);
    BaseMonotone(1, |f.chain|);
    assert Times(g.sectorSize, 1) < size == Times(g.sectorSize, 2) ==> |f.secs| == 2 by {
      if |f.secs| <= 1 && size == Times(g.sectorSize, 2) {
        TimesGrow(g.sectorSize, |f.secs|, 2);
      }
    }
    TimesGrow(g.sectorSize, 1, 2);
  }

  lemma FewSectors(z: nat, n: nat, k: nat, size: nat)
    requires SizeEndsIn(z, n, size) && size <= Times(z, k)
    ensures n <= k
  {
    hide Times;
    if n > k + 1 {
      TimesGrow(z, k, n - 1);
    }
  }

  lemma CreatedOnly(g: Geometry, S: Snapshot, S': Snapshot, h: nat, name: seq<byte>)
    requires FileCreated(g, S, S', h, name) && S.L == EMPTY
    ensures S'.L.files.Keys == {h} && S'.L.lost == {} && S'.L.torn == {}
    ensures h in ViewOf(S').names && ViewOf(S').names[h] == name
  {
    hide StoreOk, ViewOf;
  }

  lemma AppendedOnly(g: Geometry, S: Snapshot, S': Snapshot, h: nat, n: nat, bytes: seq<byte>)
    requires Appended(g, S, S', h, n, bytes) && h in ViewOf(S).names
    ensures S'.L.files.Keys == S.L.files.Keys && S'.L.lost == S.L.lost && S'.L.torn == S.L.torn
    ensures h in ViewOf(S').names && ViewOf(S').names[h] == ViewOf(S).names[h]
  {
    hide StoreOk, ViewOf;
  }

  lemma SeatEndsWell(g: Geometry, f: File, size: nat, curSector: byte, curSoffset: nat, curEntry: byte, curSindex: byte)
    requires WriteSeat(g, f, size, curSector, curSoffset, curEntry, curSindex)
      || SlipSeat(g, f, size, curSector, curSoffset, curEntry, curSindex)
    ensures WellEnded(g, f, size)
  {
  }

  lemma TwoTimes(z: nat)
    ensures Times(z, 2) == 2 * z && (z > 0 ==> (2 * z) % z == 0)
  {
    assert Times(z, 2) == Times(z, 1) + z && Times(z, 1) == Times(z, 0) + z;
    if z > 0 {
      ModPlus(z, z);
    }
  }

  /** Creates an empty file on a new store. */
  method NewFile(g: Geometry, mem: Memory, name: seq<byte>) returns (fs: Store, fh: FileHandle)
    requires |mem| == g.size && |name| == NAME_LENGTH
    ensures fresh(fs) && fresh(fh) && fs.g == g && fs.Valid() && fs.WriteReady(fh)
    ensures fh.mode.ModeWrite? && fh.size == fh.curOffset == 0
    ensures fs.L.files.Keys == {fh.entry as nat} && fs.L.lost == {} && fs.L.torn == {} && fs.freeSectors == g.sectors
    ensures fh.entry as int in fs.V().names && fs.V().names[fh.entry as int] == name
  {
    hide StoreOk, ViewOf, FileCreated, GetBit, WriteSeat;
    fs := new Store(g, mem);
    fs.Format();
    assert !fs.AllEntriesUsed() by {
      assert !GetBit(fs.usedEntries, 0);
    }
    ghost var S := fs.S();
    fh := new FileHandle();
    var err := fs.Open(name, fh, ForWriting);
    CreatedOnly(g, S, fs.S(), fh.entry, name);
  }

  /** Creates a file of two full sectors on a new store, and closes it. */
  method TwoSectorFile(g: Geometry, mem: Memory, name: seq<byte>) returns (fs: Store, fh: FileHandle, ghost h: nat)
    requires |mem| == g.size && |name| == NAME_LENGTH && g.sectors >= 3
    ensures fresh(fs) && fresh(fh) && fs.g == g && Appendable(fs, h, name) && !fh.mode.ModeWrite?
    ensures fs.L.files.Keys == {h} && fs.L.lost == {} && fs.V().sizes[h] == Times(g.sectorSize, 2)
  {
    hide StoreOk, Appended, ViewOf, Times, WellEnded, FileCreated, GetBit, WriteSeat, SlipSeat;
    fs, fh := NewFile(g, mem, name);
    h := fh.entry;
    ghost var S0 := fs.S();
    TwoTimes(g.sectorSize);
    var bytes: seq<byte> := seq(2 * g.sectorSize, _ => 0);
    var err, written := fs.Write(fh, bytes);
    AppendedOnly(g, S0, fs.S(), h, 0, bytes[..written]);
    SeatEndsWell(g, fs.L.files[h], fh.size, fh.curSector, fh.curSoffset, fh.curEntry, fh.curSindex);
    TwoSectors(g, fs.S(), h, fh.size);
    OnlyFile(g, fs.S(), h);
    fs.CanRecord(fh);
    ContentsLength(g, fs.S(), h);
    fs.Close(fh);
  }

  /**
   The failure, on a new store: a file is written with two full sectors and closed, one byte is appended and
   accepted, the file is closed, and reading all of it ends at an assertion.
   */
  method FailingAppend(g: Geometry, mem: Memory, name: seq<byte>, b: byte)
    returns (fs: Store, fh: FileHandle, written: nat, err: Error, out: seq<byte>, ghost h: nat)
    requires |mem| == g.size && |name| == NAME_LENGTH && g.sectors >= 3
    ensures fresh(fs) && fs.g == g && fs.Valid() && fs.L.files.Keys == {h}
    ensures h in fs.V().names && fs.V().names[h] == name && h in fs.V().sizes
      && fs.V().sizes[h] == Times(g.sectorSize, 2) + 1
    ensures fresh(fh) && fh.entry as int == h && written == 1 && err == Halted
  {
    hide StoreOk, Appended, Touched, ViewOf, Times, WellEnded;
    fs, fh, h := TwoSectorFile(g, mem, name);
    ghost var S1 := fs.S();
    TwoTimes(g.sectorSize);
    TwoSectors(g, S1, h, fs.V().sizes[h]);
    err, written := OpenAndAppend(fs, fh, name, [b], h);
    if err != Ok {
      AppendedOnly(g, S1, fs.S(), h, fh.size, []);
      TwoSectors(g, fs.S(), h, fh.size);
      OnlyFile(g, fs.S(), h);
    }
    AfterWrite(g, S1, fs.S(), h, Times(g.sectorSize, 2), [b], false);
    err, out := CloseAndRead(fs, fh, name, h);
  }
}
