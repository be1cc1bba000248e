/**
 Whole sessions with disk images: what is sent to a file is what it gives back, files do not disturb each
 other, and no sector is lost or found.
 */
module DxxRuns {
  import opened Bits
  import opened Common
  import opened DxxGeometry
  import opened DxxBam
  import opened DxxAlloc
  import opened DxxState
  import opened DxxLayout
  import opened DxxFrames
  import opened DxxVolume
  import opened DxxFiles
  import opened DxxWrite
  import opened DxxRead

  // ----- one operation -----

  ghost function ChainSet(T: Tree, slot: Slot): set<TS> {
    if slot in T.L.files then Elements(T.L.files[slot]) else {}
  }

  /**
   One operation on the file at `slot`: the image stays sound, other files stay as they are, and off the
   directory track sectors only move between this file and the free ones.
   */
  ghost predicate Step(f: Disk, T: Tree, T': Tree, slot: Slot) {
    && Sound(f, T') && OthersKept(T, T', slot)
    && SameSpace(f, T.st.free + ChainSet(T, slot), T'.st.free + ChainSet(T', slot))
  }

  lemma CreateStep(f: Disk, T: Tree, T': Tree, slot: Slot, ts: TS, name: seq<byte>, kind: byte, stamp: Stamp)
    requires Sound(f, T) && Created(f, T, T', slot, ts, name, kind, stamp)
    ensures Step(f, T, T', slot)
  {
    hide Sound, OthersKept;
  }

  lemma DirStepIs(f: Disk, T: Tree, T': Tree, slot: Slot)
    requires Sound(f, T') && DirOnly(f, T, T')
    ensures Step(f, T, T', slot)
  {
    hide Sound, OthersKept;
  }

  lemma GrowStep(f: Disk, T: Tree, T': Tree, slot: Slot)
    requires Sound(f, T') && Grown(f, T, T', slot)
    ensures Step(f, T, T', slot)
  {
    hide Sound, OthersKept, EntryUnchanged;
    var a, b := T.L.files[slot], T'.L.files[slot];
    assert b == a + b[|a|..];
    SplitElements(a, b[|a|..]);
  }

  lemma CloseStep(f: Disk, T: Tree, T': Tree, slot: Slot, blocks: nat, stamp: Stamp)
    requires Sound(f, T) && Sound(f, T') && FileClosed(T, T', slot, blocks, stamp)
    ensures Step(f, T, T', slot)
  {
    hide Sound, OthersKept, FileClosed, EntryIn;
    ClosedFacts(f, T, T', slot, blocks, stamp);
  }

  lemma TouchStep(f: Disk, T: Tree, T': Tree, slot: Slot, stamp: Stamp)
    requires Sound(f, T) && Sound(f, T') && slot in T.L.files && EntryTouched(T, T', slot, stamp)
    ensures Step(f, T, T', slot)
  {
    hide TreeOk, OthersKept, EntryIn, TouchedEntry;
    SlotFacts(f, T, slot);
    EntryChanged(T, T', slot, TouchedEntry(EntryIn(T.st.sec[slot.dir], slot.entry), stamp));
  }

  lemma DeleteStep(f: Disk, T: Tree, T': Tree, slot: Slot)
    requires Sound(f, T') && OthersKept(T, T', slot) && slot in T.L.files && slot !in T'.L.files
    requires T'.st.free == T.st.free + Elements(T.L.files[slot])
    ensures Step(f, T, T', slot)
  {
    hide Sound, OthersKept;
  }

  // ----- whole runs -----

  ghost predicate InFiles(L: Layout, ts: TS) {
    exists slot :: slot in L.files && ts in L.files[slot]
  }

  /** Off the directory track, the sectors that are free or part of a file are the same. */
  ghost predicate SameAccount(f: Disk, T: Tree, T': Tree) {
    forall ts: TS :: ts.track != DirTrack(f) ==>
      (ts in T.st.free || InFiles(T.L, ts) <==> ts in T'.st.free || InFiles(T'.L, ts))
  }

  lemma StepAccount(f: Disk, T: Tree, T': Tree, slot: Slot)
    requires Step(f, T, T', slot)
    ensures SameAccount(f, T, T')
  {
    hide Sound, SectorsKept, EntriesKept;
    forall ts: TS | ts.track != DirTrack(f)
      ensures ts in T.st.free || InFiles(T.L, ts) <==> ts in T'.st.free || InFiles(T'.L, ts)
    {
      FilesOrSlot(T, slot, ts);
      FilesOrSlot(T', slot, ts);
      assert ts in T.st.free + ChainSet(T, slot) <==> ts in T'.st.free + ChainSet(T', slot);
      if k :| k in T.L.files && k != slot && ts in T.L.files[k] {
        assert k in T'.L.files && ts in T'.L.files[k];
      }
      if k :| k in T'.L.files && k != slot && ts in T'.L.files[k] {
        assert k in T.L.files && ts in T.L.files[k];
      }
    }
  }

  lemma FilesOrSlot(T: Tree, slot: Slot, ts: TS)
    ensures InFiles(T.L, ts) <==> ts in ChainSet(T, slot) || exists k :: k in T.L.files && k != slot && ts in T.L.files[k]
  {
    if ts in ChainSet(T, slot) {
      assert slot in T.L.files && ts in T.L.files[slot];
    }
  }

  /** `run[i + 1]` follows from `run[i]` by an operation on the file at `about[i]`. */
  ghost predicate Run(f: Disk, run: seq<Tree>, about: seq<Slot>) {
    && |run| == |about| + 1
    && Sound(f, run[0])
    && forall i :: 0 <= i < |about| ==> Step(f, run[i], run[i + 1], about[i])
  }

  /**
   However creating, writing, closing, appending and deleting of files are interleaved, the image stays
   sound, and a file that no operation is about keeps its sectors, its entry and all its bytes. What an open
   buffer holds of such a file is still right.
   */
  lemma {:induction false} RunKeepsOthers(f: Disk, run: seq<Tree>, about: seq<Slot>, k: Slot)
    requires Run(f, run, about) && k in run[0].L.files && k !in about
    ensures var T, T' := run[0], run[|about|];
      && Sound(f, T') && k in T'.L.files && T'.L.files[k] == T.L.files[k]
      && Unaltered(T.st.sec, T'.st.sec, T.L.files[k])
      && k.entry < 8 && k.dir in T.st.sec && k.dir in T'.st.sec
      && EntryBody(T'.st.sec[k.dir], k.entry) == EntryBody(T.st.sec[k.dir], k.entry)
    decreases |about|
  {
    hide Sound, OthersKept, EntryBody, SameSpace;
    if |about| == 0 {
      SlotFacts(f, run[0], k);
    } else {
      var n := |about| - 1;
      RunKeepsOthers(f, run[..n + 1], about[..n], k);
      assert Step(f, run[n], run[n + 1], about[n]) && k != about[n];
      OtherFile(f, run[n], run[n + 1], about[n], k);
    }
  }

  /** So its contents, and what an open buffer holds of it, are the same. */
  lemma OtherContents(T: Tree, T': Tree, k: Slot, data: Sector, n: nat, bytes: seq<byte>)
    requires k in T.L.files && k in T'.L.files && T'.L.files[k] == T.L.files[k] && T.L.files[k] != []
    requires Unaltered(T.st.sec, T'.st.sec, T.L.files[k])
    ensures Contents(T, k, bytes) ==> Contents(T', k, bytes)
    ensures Holds(T, k, data, n, bytes) ==> Holds(T', k, data, n, bytes)
  {
    SameBytes(T.st.sec, T'.st.sec, T.L.files[k]);
  }

  /** Over a whole run no sector off the directory track is lost, and none appears. */
  lemma {:induction false} RunAccount(f: Disk, run: seq<Tree>, about: seq<Slot>)
    requires Run(f, run, about)
    ensures SameAccount(f, run[0], run[|about|]) && Sound(f, run[|about|])
    decreases |about|
  {
    hide Sound, OthersKept, SameSpace, InFiles;
    if |about| > 0 {
      var n := |about| - 1;
      RunAccount(f, run[..n + 1], about[..n]);
      assert Step(f, run[n], run[n + 1], about[n]);
      StepAccount(f, run[n], run[n + 1], about[n]);
    }
  }

  /** When a run ends with the files it began with, the same sectors are free again. */
  lemma RunReturns(f: Disk, run: seq<Tree>, about: seq<Slot>)
    requires Run(f, run, about) && run[|about|].L.files == run[0].L.files
    ensures SameSpace(f, run[0].st.free, run[|about|].st.free)
  {
    hide Sound, OthersKept;
    RunAccount(f, run, about);
    SameFilesSameSpace(f, run[0], run[|about|]);
  }

  lemma SameFilesSameSpace(f: Disk, T: Tree, T': Tree)
    requires Sound(f, T) && Sound(f, T') && SameAccount(f, T, T') && T'.L.files == T.L.files
    ensures SameSpace(f, T.st.free, T'.st.free)
  {
    hide Sound, InFiles;
    forall ts: TS | ts.track != DirTrack(f)
      ensures ts in T.st.free <==> ts in T'.st.free
    {
      NotBoth(f, T, ts);
      NotBoth(f, T', ts);
      SameFiles(T.L, T'.L, ts);
    }
  }

  lemma SameFiles(L: Layout, L': Layout, ts: TS)
    requires L.files == L'.files
    ensures InFiles(L, ts) == InFiles(L', ts)
  {
  }

  lemma NotBoth(f: Disk, T: Tree, ts: TS)
    requires Sound(f, T)
    ensures !(ts in T.st.free && InFiles(T.L, ts))
  {
    hide FileOk, DirOk;
    if InFiles(T.L, ts) {
      var slot :| slot in T.L.files && ts in T.L.files[slot];
      var k :| 0 <= k < |T.L.files[slot]| && T.L.files[slot][k] == ts;
      assert T.L.files[slot][k] in T.L.owner;
    }
  }

  /** The reported number of free blocks depends only on which sectors off the directory track are free. */
  lemma BlocksFromSpace(f: Disk, img: Image, img': Image)
    requires !f.Dnp? && CountersOk(f, img) && CountersOk(f, img')
    requires SameSpace(f, StateOf(f, img).free, StateOf(f, img').free)
    ensures FreeBlocksUpTo(f, img, LastTrack(f)) == FreeBlocksUpTo(f, img', LastTrack(f))
  {
    hide IsFree, CountersOk, StateOf, NumFree, SectorsFree;
    CountersImage(f, img);
    CountersImage(f, img');
    forall t: nat, s: nat | ValidSector(f, t, s) && !Uncounted(f, t)
      ensures IsFree(f, img, t, s) == IsFree(f, img', t, s)
    {
      StateFacts(f, img, TS(t, s));
      StateFacts(f, img', TS(t, s));
      assert TS(t, s).track != DirTrack(f);
    }
    FreeBlocksSame(f, img, img', LastTrack(f));
  }

  lemma CountersImage(f: Disk, img: Image)
    requires CountersOk(f, img)
    ensures ImageOk(f, img)
  {
  }

  // ----- sessions -----

  /** The places of the sectors of a chain in the image. */
  ghost function Places(f: Disk, chain: seq<TS>): (r: seq<nat>)
    requires forall k :: 0 <= k < |chain| ==> OnDisk(f, chain[k])
    ensures |r| == |chain| && forall k :: 0 <= k < |chain| ==> OnDisk(f, chain[k]) && r[k] == Lba(f, chain[k].track, chain[k].sector)
  {
    if chain == [] then []
    else
      assert OnDisk(f, chain[|chain| - 1]);
      Places(f, chain[..|chain| - 1]) + [Lba(f, chain[|chain| - 1].track, chain[|chain| - 1].sector)]
  }

  /** No chain is longer than the disk, so that its length fits the two bytes of a directory entry. */
  lemma ChainShort(f: Disk, T: Tree, slot: Slot)
    requires Sound(f, T) && slot in T.L.files && !f.Dnp?
    ensures |T.L.files[slot]| <= TotalSectors(f) < 0x1_0000
  {
    hide EntryIn, DirOk, Linked, ValidSector, IsBam, Lba;
    var chain := T.L.files[slot];
    assert FileOk(f, T.st, slot, chain);
    var q := Places(f, chain);
    forall k | 0 <= k < |chain|
      ensures q[k] < TotalSectors(f)
    {
      LbaInjective(f, chain[k].track, chain[k].sector, chain[k].track, chain[k].sector);
    }
    forall j, k | 0 <= j < k < |chain|
      ensures q[j] != q[k]
    {
      ChainsApart(f, T.st, T.L, slot, j, slot, k);
      LbaInjective(f, chain[j].track, chain[j].sector, chain[k].track, chain[k].sector);
    }
    DistinctBelow(q, TotalSectors(f));
  }

  /** The bytes of a file created and filled with `bytes`: an empty file holds a carriage return. */
  function Filled(bytes: seq<byte>): seq<byte> {
    if bytes == [] then [13] else bytes
  }

  /** A closed file with these contents and the right number of blocks in its entry. */
  ghost predicate FileThere(T: Tree, slot: Slot, bytes: seq<byte>) {
    Contents(T, slot, bytes) && SizeRight(T, slot) && Readable(T, slot)
  }

  /** The last sector of the file holds at least one byte. */
  ghost predicate Readable(T: Tree, slot: Slot) {
    exists n :: n >= 2 && LastByteAt(T, slot, n)
  }

  /** The last sector names a last byte, be it only the one that is the name. */
  ghost predicate Claimed(T: Tree, slot: Slot) {
    exists n :: n >= 1 && LastByteAt(T, slot, n)
  }

  /** What an append keeps of the bytes: to a last sector that names byte 0 the first one is lost. */
  function Kept(claimed: bool, bytes: seq<byte>): seq<byte> {
    if claimed || bytes == [] then bytes else bytes[1..]
  }

  lemma StepsCompose(f: Disk, A: Tree, B: Tree, C: Tree, slot: Slot)
    requires Step(f, A, B, slot) && Step(f, B, C, slot)
    ensures Step(f, A, C, slot)
  {
    hide Sound, OthersKept;
    OthersTransitive(A, B, C, slot);
  }

  lemma NewHolds(f: Disk, T: Tree, T': Tree, slot: Slot, ts: TS, name: seq<byte>, kind: byte, stamp: Stamp,
      data: Sector)
    requires Created(f, T, T', slot, ts, name, kind, stamp)
    ensures Holds(T', slot, data, 2, []) && slot !in T.L.files && slot in T'.L.files && Counts(0, T'.L.files[slot])
  {
    hide EntryIn;
    SlotFacts(f, T', slot);
  }

  lemma FilledHolds(T: Tree, slot: Slot, data: Sector, fill: nat, n: nat, bytes: seq<byte>)
    requires Holds(T, slot, data, fill, bytes)
    requires if bytes == [] then fill == 2 && n == 3 && data[2] == 13 else fill == n
    ensures Holds(T, slot, data, n, Filled(bytes))
  {
    if bytes == [] {
      assert data[2..3] == [13];
      assert data[2..2] == [];
    }
  }

  lemma ClosedSize(f: Disk, T: Tree, T': Tree, slot: Slot, blocks: nat, stamp: Stamp)
    requires Sound(f, T) && Sound(f, T') && slot in T.L.files && Counts(blocks, T.L.files[slot])
    requires FileClosed(T, T', slot, (blocks + 1) % 0x1_0000, stamp)
    ensures SizeRight(T', slot)
  {
    hide TreeOk, EntryIn, FileClosed, ClosedEntry, OthersKept;
    ClosedFacts(f, T, T', slot, (blocks + 1) % 0x1_0000, stamp);
    SlotFacts(f, T, slot);
    ClosedEntryBytes(EntryIn(T.st.sec[slot.dir], slot.entry), (blocks + 1) % 0x1_0000, stamp);
  }

  /** The number of blocks in the entry of such a file is the length of its chain. */
  lemma SizeIsLength(f: Disk, T: Tree, slot: Slot)
    requires Sound(f, T) && !f.Dnp? && SizeRight(T, slot)
    ensures SizeOf(EntryIn(T.st.sec[slot.dir], slot.entry)) == |T.L.files[slot]|
  {
    hide TreeOk, EntryIn, SizeOf;
    ChainShort(f, T, slot);
  }

  /** Creates a file, stores `bytes` in it, and closes it. */
  method WriteFile(vol: Volume, name: seq<byte>, kind: byte, stamp: Stamp, bytes: seq<byte>) returns (err: bool, slot: Slot)
    requires vol.Valid() && kind != 0 && |name| <= NAME_LENGTH
    modifies vol, vol.drive
    ensures vol.Valid() && vol.Rest() == old(vol.Rest())
    ensures Step(vol.f, old(TreeOf(vol)), TreeOf(vol), slot)
    ensures !err ==> slot !in old(vol.L.files) && FileThere(TreeOf(vol), slot, Filled(bytes))
    ensures !err ==>
      slot in vol.L.files && vol.L.files[slot] != [] && EntryListed(TreeOf(vol), slot, name, kind, vol.L.files[slot][0], stamp)
    ensures err ==> NoRoom(vol.f, vol.St()) || NoEntryLeft(vol.f, vol.St(), vol.L)
  {
    hide TreeOk, StateOf, Created, Grown, FileClosed, Contents, Holds, Counts, Step, DirOnly, NoRoom, NoneLeft, FreeOffDir, NoEntryLeft,
         SizeRight, Filled, LastByteAt, EntryCompleted, EntryOpened, EntryListed;
    ghost var T := TreeOf(vol);
    var buf := new FileBuffer();
    var ok := OpenWrite(vol, name, kind, stamp, buf);
    slot := buf.dh;
    if !ok {
      DirStepIs(vol.f, T, TreeOf(vol), slot);
      NoRoomAtAll(vol.f, T, TreeOf(vol));
      return true, slot;
    }
    ghost var T1 := TreeOf(vol);
    CreateStep(vol.f, T, T1, slot, TS(buf.track, buf.sector), name, kind, stamp);
    CreatedSeat(vol.f, T, T1, slot, TS(buf.track, buf.sector), name, kind, stamp);
    NewHolds(vol.f, T, T1, slot, TS(buf.track, buf.sector), name, kind, stamp, buf.data);
    ghost var t0, s0 := buf.track, buf.sector;
    var accepted;
    err, accepted := Listen(vol, buf, bytes, []);
    GrowStep(vol.f, T1, TreeOf(vol), slot);
    StepsCompose(vol.f, T, T1, TreeOf(vol), slot);
    ghost var T2 := TreeOf(vol);
    if err {
      NoRoomToGrow(vol.f, vol.St(), t0);
    } else {
      assert [] + bytes == bytes;
      FilledHolds(TreeOf(vol), slot, buf.data, buf.Fill(), buf.lastused as int + 1, bytes);
      GrownEntry(vol.f, T1, T2, slot);
      CloseFile(vol, buf, stamp, T, Filled(bytes));
      ClosedListed(T1, T2, TreeOf(vol), slot, name, kind, TS(t0, s0), stamp);
    }
  }

  /** A file that grows keeps its entry, and where it begins. */
  lemma GrownEntry(f: Disk, T: Tree, T': Tree, slot: Slot)
    requires Grown(f, T, T', slot) && T.L.files[slot] != []
    ensures HasEntry(T, slot) && HasEntry(T', slot) && EntryOf(T', slot) == EntryOf(T, slot)
    ensures slot in T'.L.files && T'.L.files[slot] != [] && T'.L.files[slot][0] == T.L.files[slot][0]
  {
  }

  /** A new file, closed, is listed under the name, type and time given. */
  lemma ClosedListed(T1: Tree, T2: Tree, T3: Tree, slot: Slot, name: seq<byte>, kind: byte, ts: TS, stamp: Stamp)
    requires EntryOpened(T1, slot, name, kind, ts, stamp) && EntryCompleted(T2, T3, slot, stamp)
    requires EntryOf(T2, slot) == EntryOf(T1, slot)
    ensures EntryListed(T3, slot, name, kind, ts, stamp)
  {
    hide EntryIn, Bit;
  }

  /** Every free sector is on a track that files do not move to. */
  ghost predicate NoRoom(f: Disk, st: State) {
    forall ts :: ts in st.free ==> Skipped(f, ts.track)
  }

  lemma NoRoomToGrow(f: Disk, st: State, t: nat)
    requires NoneLeft(f, st, t) && t != DirTrack(f)
    ensures NoRoom(f, st)
  {
  }

  lemma NoRoomAtAll(f: Disk, T: Tree, T': Tree)
    requires DirOnly(f, T, T')
    ensures FreeOffDir(f, T.st) || NoRoom(f, T'.st)
  {
  }

  /** Closes a file whose buffer is in order. */
  method CloseFile(vol: Volume, buf: FileBuffer, stamp: Stamp, ghost T: Tree, ghost bytes: seq<byte>)
    requires vol.Valid() && buf.Seated(vol.L) && Step(vol.f, T, TreeOf(vol), buf.dh)
    requires Holds(TreeOf(vol), buf.dh, buf.data, EndOf(buf.lastused), bytes)
    modifies vol, vol.drive, buf
    ensures vol.Valid() && vol.Rest() == old(vol.Rest()) && buf.dh == old(buf.dh)
    ensures Step(vol.f, T, TreeOf(vol), buf.dh) && Contents(TreeOf(vol), buf.dh, bytes) && vol.L == old(vol.L)
    ensures old(Counts(buf.blocks, vol.L.files[buf.dh])) ==> SizeRight(TreeOf(vol), buf.dh)
    ensures LastByteAt(TreeOf(vol), buf.dh, old(buf.lastused)) && !buf.held
    ensures EntryCompleted(old(TreeOf(vol)), TreeOf(vol), buf.dh, stamp)
  {
    hide TreeOk, StateOf, FileClosed, Contents, Holds, Counts, Step, SizeRight, OthersKept, EntryIn, LastByteAt,
      EntryCompleted;
    ghost var T1, blocks, data, n := TreeOf(vol), buf.blocks, buf.data, EndOf(buf.lastused);
    var err := WriteCleanup(vol, buf, stamp);
    assert Holds(T1, buf.dh, data, n, bytes);
    CloseStep(vol.f, T1, TreeOf(vol), buf.dh, (blocks + 1) % 0x1_0000, stamp);
    if Counts(blocks, T1.L.files[buf.dh]) {
      ClosedSize(vol.f, T1, TreeOf(vol), buf.dh, blocks, stamp);
    }
    ClosedFacts(vol.f, T1, TreeOf(vol), buf.dh, (blocks + 1) % 0x1_0000, stamp);
    StepsCompose(vol.f, T, T1, TreeOf(vol), buf.dh);
  }

  /** Opens a closed file and sends it. */
  method ReadFile(vol: Volume, slot: Slot) returns (err: bool, out: seq<byte>)
    requires vol.Valid() && slot in vol.L.files && Ended(vol.St().sec, vol.L.files[slot])
    ensures !err && Inside(vol.St().sec, vol.L.files[slot]) && vol.L.files[slot] != []
    ensures out == Sent(vol.St().sec, vol.L.files[slot])
  {
    hide TreeOk, StateOf, Ended, Sent, Inside, AtBlock;
    SlotFacts(vol.f, TreeOf(vol), slot);
    var buf := new FileBuffer();
    err := OpenRead(vol, slot, buf);
    err, out := Talk(vol, buf, slot);
  }

  lemma ReadableSent(T: Tree, slot: Slot, bytes: seq<byte>)
    requires Contents(T, slot, bytes)
    ensures slot in T.L.files && T.L.files[slot] != [] && Inside(T.st.sec, T.L.files[slot])
      && Ended(T.st.sec, T.L.files[slot])
    ensures Sent(T.st.sec, T.L.files[slot]) == bytes <==> Readable(T, slot)
  {
    var chain := T.L.files[slot];
    ReadableByte(T, slot, T.st.sec[chain[|chain| - 1]][1] as int);
    SentIsContents(T.st.sec, chain);
  }

  /** What is stored in a new file is what the file gives back; an empty one gives a carriage return. */
  method WriteThenRead(vol: Volume, name: seq<byte>, kind: byte, stamp: Stamp, bytes: seq<byte>)
    returns (err: bool, slot: Slot, out: seq<byte>)
    requires vol.Valid() && kind != 0 && |name| <= NAME_LENGTH
    modifies vol, vol.drive
    ensures vol.Valid() && vol.Rest() == old(vol.Rest()) && Step(vol.f, old(TreeOf(vol)), TreeOf(vol), slot)
    ensures !err ==> out == if bytes == [] then [13] else bytes
    ensures !err ==> (
      && slot in vol.L.files && slot.entry < 8 && slot.dir in vol.St().sec
      && SizeOf(EntryIn(vol.St().sec[slot.dir], slot.entry)) == |vol.L.files[slot]|)
    ensures err ==> NoRoom(vol.f, vol.St()) || NoEntryLeft(vol.f, vol.St(), vol.L)
  {
    hide TreeOk, StateOf, Step, Contents, NoRoom, NoneLeft, FreeOffDir, NoEntryLeft, Sent, Readable, Ended, Inside,
      SizeOf, EntryIn;
    out := [];
    err, slot := WriteFile(vol, name, kind, stamp, bytes);
    if !err {
      SizeIsLength(vol.f, TreeOf(vol), slot);
      ReadableSent(TreeOf(vol), slot, Filled(bytes));
      err, out := ReadFile(vol, slot);
    }
  }

  function LastSector(T: Tree, slot: Slot): TS
    requires slot in T.L.files && T.L.files[slot] != []
  {
    T.L.files[slot][|T.L.files[slot]| - 1]
  }

  /** Appends to a closed file. Where nothing is appended to a file without bytes, none can be read afterwards. */
  method AppendFile(vol: Volume, slot: Slot, stamp: Stamp, bytes: seq<byte>, ghost was: seq<byte>) returns (err: bool)
    requires vol.Valid() && Contents(TreeOf(vol), slot, was)
    modifies vol, vol.drive
    ensures vol.Valid() && vol.Rest() == old(vol.Rest())
    ensures Step(vol.f, old(TreeOf(vol)), TreeOf(vol), slot)
    ensures !err ==> Contents(TreeOf(vol), slot, was + Kept(old(Claimed(TreeOf(vol), slot)), bytes))
    ensures !err ==> (Readable(TreeOf(vol), slot) <==>
      Kept(old(Claimed(TreeOf(vol), slot)), bytes) != [] || old(Readable(TreeOf(vol), slot)))
    ensures !err && SizeRight(old(TreeOf(vol)), slot) ==> SizeRight(TreeOf(vol), slot)
    ensures !err ==> EntryCompleted(old(TreeOf(vol)), TreeOf(vol), slot, stamp)
    ensures slot in old(vol.L.files) && old(vol.L.files[slot]) != []
    ensures err ==> NoneLeft(vol.f, vol.St(), LastSector(old(TreeOf(vol)), slot).track)
    ensures err ==> var kept := Kept(old(Claimed(TreeOf(vol), slot)), bytes);
      exists n: nat :: n < |kept| && Contents(TreeOf(vol), slot, was + kept[..n])
  {
    hide TreeOk, StateOf, Grown, Contents, Holds, Counts, Step, NoneLeft, SizeRight, LastByteAt, EntryTouched, Ended,
      FileBytes, EntryCompleted, Retimed, EntryIn;
    ghost var T := TreeOf(vol);
    ContentsFacts(T, slot, was);
    var buf := new FileBuffer();
    Append(vol, slot, stamp, buf);
    ghost var T1 := TreeOf(vol);
    TouchStep(vol.f, T, T1, slot, stamp);
    TouchLayout(T, T1, slot, stamp);
    ReadableByte(T, slot, buf.lastused);
    var accepted;
    var kept := bytes;
    if buf.lastused == 0 {
      if bytes == [] {
        err := false;
        CloseFile(vol, buf, stamp, T, was);
        RetimedCompleted(T, T1, T1, TreeOf(vol), slot, stamp);
        assert was + bytes == was;
        ReadableByte(TreeOf(vol), slot, 0);
        return;
      }
      kept := bytes[1..];
      OverFirst(T1, slot, buf.data, bytes[0], was);
      buf.Put(bytes[0]);
    }
    assert kept == Kept(Claimed(T, slot), bytes);
    err, accepted := Listen(vol, buf, kept, was);
    GrowStep(vol.f, T1, TreeOf(vol), slot);
    StepsCompose(vol.f, T, T1, TreeOf(vol), slot);
    if !err {
      ghost var last, T2 := buf.lastused, TreeOf(vol);
      GrownEntry(vol.f, T1, T2, slot);
      CloseFile(vol, buf, stamp, T, was + kept);
      RetimedCompleted(T, T1, T2, TreeOf(vol), slot, stamp);
      ReadableByte(TreeOf(vol), slot, last);
    }
  }

  lemma RetimedCompleted(T: Tree, T1: Tree, T2: Tree, T3: Tree, slot: Slot, stamp: Stamp)
    requires HasEntry(T, slot) && HasEntry(T1, slot) && Retimed(EntryOf(T, slot), EntryOf(T1, slot), stamp)
    requires EntryCompleted(T2, T3, slot, stamp) && EntryOf(T2, slot) == EntryOf(T1, slot)
    ensures EntryCompleted(T, T3, slot, stamp)
  {
    hide EntryIn, Bit;
  }

  /** A byte over the number of the last one changes nothing of what the buffer holds. */
  lemma OverFirst(T: Tree, slot: Slot, data: Sector, c: byte, bytes: seq<byte>)
    requires Holds(T, slot, data, 2, bytes)
    ensures Holds(T, slot, data[1 := c], 2, bytes)
  {
    assert data[1 := c][2..2] == data[2..2];
  }

  lemma ReadableByte(T: Tree, slot: Slot, n: int)
    requires LastByteAt(T, slot, n)
    ensures (Readable(T, slot) <==> n >= 2) && (Claimed(T, slot) <==> n >= 1)
  {
  }

  lemma ContentsFacts(T: Tree, slot: Slot, bytes: seq<byte>)
    requires Contents(T, slot, bytes)
    ensures slot in T.L.files && Ended(T.st.sec, T.L.files[slot]) && Inside(T.st.sec, T.L.files[slot])
      && T.L.files[slot] != []
    ensures FileBytes(T.st.sec, T.L.files[slot]) == bytes
  {
  }

  lemma TouchLayout(T: Tree, T': Tree, slot: Slot, stamp: Stamp)
    requires EntryTouched(T, T', slot, stamp)
    ensures T'.L == T.L
  {
    hide EntryStored, EntryIn;
  }

  /**
   After an append the file gives back what it held before and then the new bytes, except that a file that had
   no bytes and got none gives back something else.
   */
  method AppendThenRead(vol: Volume, slot: Slot, stamp: Stamp, bytes: seq<byte>, ghost was: seq<byte>)
    returns (err: bool, out: seq<byte>)
    requires vol.Valid() && Contents(TreeOf(vol), slot, was)
    modifies vol, vol.drive
    ensures vol.Valid() && vol.Rest() == old(vol.Rest()) && Step(vol.f, old(TreeOf(vol)), TreeOf(vol), slot)
    ensures slot in old(vol.L.files) && old(vol.L.files[slot]) != []
    ensures !err ==> var kept := Kept(old(Claimed(TreeOf(vol), slot)), bytes);
      out == was + kept <==> kept != [] || old(Readable(TreeOf(vol), slot))
    ensures err ==> NoneLeft(vol.f, vol.St(), LastSector(old(TreeOf(vol)), slot).track)
  {
    hide TreeOk, StateOf, Step, Contents, NoneLeft, Sent, Readable, Ended, Inside;
    out := [];
    ghost var T := TreeOf(vol);
    err := AppendFile(vol, slot, stamp, bytes, was);
    if !err {
      ReadableSent(TreeOf(vol), slot, was + Kept(Claimed(T, slot), bytes));
      err, out := ReadFile(vol, slot);
    }
  }

  /** A file created, filled and deleted again leaves the number of free blocks as it was. */
  method WriteThenDelete(vol: Volume, name: seq<byte>, kind: byte, stamp: Stamp, bytes: seq<byte>)
    returns (err: bool, before: nat, after: nat)
    requires vol.Valid() && kind != 0 && |name| <= NAME_LENGTH
    modifies vol, vol.drive
    ensures vol.Valid() && vol.Rest() == old(vol.Rest())
    ensures err ==> NoRoom(vol.f, vol.St()) || NoEntryLeft(vol.f, vol.St(), vol.L)
    ensures !err ==> after == before && vol.L.files == old(vol.L.files) && SameSpace(vol.f, old(vol.St()).free, vol.St().free)
  {
    hide TreeOk, StateOf, Step, Contents, NoRoom, NoneLeft, FreeOffDir, NoEntryLeft, Readable, Ended, Inside, CountersOk, FreeBlocksUpTo,
         SizeRight, OthersKept, SameSpace;
    ghost var T := TreeOf(vol);
    before := vol.FreeBlocks();
    ghost var img := vol.drive.V()[vol.part];
    var slot;
    err, slot := WriteFile(vol, name, kind, stamp, bytes);
    after := 0;
    if err {
      return;
    }
    ghost var T1 := TreeOf(vol);
    ReadableSent(T1, slot, Filled(bytes));
    var deleted := Delete(vol, slot);
    ghost var T2 := TreeOf(vol);
    DeleteStep(vol.f, T1, T2, slot);
    StepsCompose(vol.f, T, T1, T2, slot);
    BackAgain(vol.f, T, T2, slot);
    after := vol.FreeBlocks();
    BlocksFromSpace(vol.f, img, vol.drive.V()[vol.part]);
  }

  lemma BackAgain(f: Disk, T: Tree, T': Tree, slot: Slot)
    requires Sound(f, T) && Step(f, T, T', slot) && slot !in T.L.files && slot !in T'.L.files
    ensures T'.L.files == T.L.files && SameSpace(f, T.st.free, T'.st.free)
  {
    hide Sound, SectorsKept, EntriesKept;
    assert forall k :: k in T.L.files <==> k in T'.L.files;
    assert T.st.free + {} == T.st.free && T'.st.free + {} == T'.st.free;
  }
}
