/**
 Files of D41, D71 and D81 images: finding an entry, creating, filling block by block, closing, reading,
 appending and deleting.
 */
module DxxFiles {
  import opened Bits
  import opened Common
  import opened DxxGeometry
  import opened DxxBam
  import opened DxxAlloc
  import opened DxxState
  import opened DxxLayout
  import opened DxxFrames
  import opened DxxVolume

  const NAME_LENGTH := 16

  /** The year, month, day, hour and minute put into directory entries. */
  type Stamp = s: seq<byte> | |s| == 5 witness [82, 8, 31, 0, 0]

  ghost function TreeOf(vol: Volume): Tree
    requires vol.Mounted()
    reads vol, vol.drive
  {
    Tree(vol.St(), vol.L)
  }

  /** Off the directory track the same sectors are free. */
  ghost predicate SameSpace(f: Disk, free: set<TS>, free': set<TS>) {
    forall ts: TS :: ts.track != DirTrack(f) ==> (ts in free <==> ts in free')
  }

  function Elements(chain: seq<TS>): set<TS> { set ts | ts in chain }

  // ----- walking the directory -----

  datatype DirStep = Got | End | Bad

  /** Entry `dh.entry` of directory sector number `i`, or the one after it, or past the last one. */
  ghost predicate AtDir(L: Layout, dh: Slot, i: nat) {
    i < |L.dir| && L.dir[i] == dh.dir && dh.entry <= 8
  }

  ghost predicate Used(st: State, slot: Slot) {
    slot.entry < 8 && slot.dir in st.sec && EntryIn(st.sec[slot.dir], slot.entry)[OFS_TYPE] != 0
  }

  /** All entries before `dh` are in use. */
  ghost predicate UsedBefore(st: State, L: Layout, dh: Slot, i: nat) {
    && (forall j: nat, e: nat :: j < i && j < |L.dir| && e < 8 ==> Used(st, Slot(L.dir[j], e)))
    && (forall e: nat :: e < dh.entry && e < 8 ==> Used(st, Slot(dh.dir, e)))
  }

  lemma DirFacts(f: Disk, st: State, L: Layout, i: nat)
    requires TreeOk(f, st, L) && i < |L.dir|
    ensures InDir(L, L.dir[i]) && L.dir[i] in st.sec && L.dir[i].track == DirTrack(f) && OnDisk(f, L.dir[i])
    ensures L.dir[0] == TS(DirTrack(f), if f == D81 then 3 else 1)
    ensures if i < |L.dir| - 1 then Link(st.sec[L.dir[i]]) == L.dir[i + 1] && L.dir[i + 1].track == DirTrack(f)
            else st.sec[L.dir[i]][0] == 0
    ensures DirTrack(f) != 0
  {
    assert L.owner[L.dir[i]] == DirPlace(i);
  }

  /** Reads the entry at `dh`, moving to the next directory sector when this one is exhausted. */
  method NextDirEntry(vol: Volume, dh: Slot, ghost i: nat) returns (step: DirStep, next: Slot, e: Entry, ghost i': nat)
    requires vol.Valid() && AtDir(vol.L, dh, i) && UsedBefore(vol.St(), vol.L, dh, i)
    ensures step != Bad && AtDir(vol.L, next, i')
    ensures step == End ==> next == dh && i == i' == |vol.L.dir| - 1 && dh.entry == 8
    ensures step == Got ==>
      && next.entry > 0 && next.dir in vol.St().sec && e == EntryIn(vol.St().sec[next.dir], next.entry - 1)
      && UsedBefore(vol.St(), vol.L, Slot(next.dir, next.entry - 1), i')
      && (i' > i || (i' == i && next.entry > dh.entry))
  {
    hide TreeOk, EntryIn, StateOf;
    next, i', e := dh, i, seq(32, _ => 0);
    DirFacts(vol.f, vol.St(), vol.L, i);
    if dh.entry == 8 {
      var ok, data := vol.CheckedRead(dh.dir.track, dh.dir.sector);
      if !ok {
        return Bad, next, e, i';
      }
      if data[0] == 0 {
        return End, next, e, i';
      }
      i' := i + 1;
      next := Slot(TS(data[0], data[1]), 0);
      DirFacts(vol.f, vol.St(), vol.L, i');
    }
    var ok, data := vol.CheckedRead(next.dir.track, next.dir.sector);
    if !ok {
      return Bad, next, e, i';
    }
    e := EntryIn(data, next.entry);
    next := Slot(next.dir, next.entry + 1);
    step := Got;
  }

  // ----- an empty entry -----

  /** A directory sector without entries: no next sector, the whole sector in use. */
  function EmptyDirSector(): Sector { [0, 255] + ZeroBytes(254) }

  /** Clears a directory sector entry by entry. */
  method ClearDirSector(vol: Volume, ts: TS)
    requires vol.Mounted() && ts in vol.St().sec
    modifies vol.drive
    ensures vol.Mounted() && vol.Rest() == old(vol.Rest())
    ensures vol.St() == Stored(old(vol.St()), ts, EmptyDirSector())
  {
    hide StateOf, EntryIn, TreeOk;
    ghost var st, cur := vol.St(), vol.St().sec[ts];
    StoredSame(st, ts);
    var i := 0;
    while i < 8
      invariant 0 <= i <= 8 && vol.Mounted() && vol.Rest() == old(vol.Rest())
      invariant vol.St() == Stored(st, ts, cur) && cur[..32 * i] == EmptyDirSector()[..32 * i]
    {
      var e := [0, if i == 0 then 255 else 0] + ZeroBytes(30);
      vol.ImageWrite(ts.track, ts.sector, 32 * i, e);
      StoredTwice(st, ts, cur, Patch(cur, 32 * i, e));
      ClearedSoFar(cur, i, e);
      cur := Patch(cur, 32 * i, e);
      i := i + 1;
    }
    assert cur == cur[..256] && EmptyDirSector() == EmptyDirSector()[..256];
  }

  lemma ClearedSoFar(cur: Sector, i: nat, e: seq<byte>)
    requires i < 8 && cur[..32 * i] == EmptyDirSector()[..32 * i] && e == [0, if i == 0 then 255 else 0] + ZeroBytes(30)
    ensures Patch(cur, 32 * i, e)[..32 * (i + 1)] == EmptyDirSector()[..32 * (i + 1)]
  {
  }

  lemma StoredSame(st: State, ts: TS)
    requires ts in st.sec
    ensures Stored(st, ts, st.sec[ts]) == st
  {
    assert st.sec[ts := st.sec[ts]] == st.sec;
  }

  lemma StoredTwice(st: State, ts: TS, a: Sector, b: Sector)
    ensures Stored(Stored(st, ts, a), ts, b) == Stored(st, ts, b)
  {
    assert st.sec[ts := a][ts := b] == st.sec[ts := b];
  }

  /** Every entry of the directory is in use. */
  ghost predicate DirFull(st: State, L: Layout) {
    forall j: nat, e: nat :: j < |L.dir| && e < 8 ==> Used(st, Slot(L.dir[j], e))
  }

  /** The image before and after a directory sector may have been added. */
  ghost predicate DirOnly(f: Disk, T: Tree, T': Tree) {
    T'.L.files == T.L.files && SameSpace(f, T.st.free, T'.st.free) && forall k :: OthersKept(T, T', k)
  }

  /** Looks at one entry after the other until it finds an unused one or the end of the directory. */
  method FirstUnused(vol: Volume) returns (step: DirStep, slot: Slot, e: Entry, ghost i: nat)
    requires vol.Valid()
    ensures step == Got ==> InDir(vol.L, slot.dir) && slot.entry < 8 && slot.dir in vol.St().sec
    ensures step == Got ==> EntryIn(vol.St().sec[slot.dir], slot.entry) == e && e[OFS_TYPE] == 0
    ensures step == Got ==> AtDir(vol.L, slot, i) && UsedBefore(vol.St(), vol.L, slot, i)
    ensures step != Got ==> DirFull(vol.St(), vol.L) && vol.L.dir != [] && vol.L.dir[|vol.L.dir| - 1] == slot.dir
  {
    hide TreeOk, EntryIn, StateOf, Used, UsedBefore, DirFull;
    i, step, e := 0, Got, ZeroBytes(32);
    slot := FirstSlot(vol);
    while true
      invariant AtDir(vol.L, slot, i) && UsedBefore(vol.St(), vol.L, slot, i)
      decreases |vol.L.dir| - i, 8 - slot.entry
    {
      step, slot, e, i := NextDirEntry(vol, slot, i);
      if step == End || e[OFS_TYPE] == 0 {
        break;
      }
      UsedToo(vol.St(), vol.L, slot, i, e);
    }
    InsideDir(vol, slot, i);
    if step == Got {
      slot := Slot(slot.dir, slot.entry - 1);
      return;
    }
    AllUsed(vol.St(), vol.L, slot, i);
  }

  /** The first entry of the directory's first sector. */
  method FirstSlot(vol: Volume) returns (slot: Slot)
    requires vol.Valid()
    ensures AtDir(vol.L, slot, 0) && slot.entry == 0 && UsedBefore(vol.St(), vol.L, slot, 0)
  {
    hide TreeOk, EntryIn, StateOf, Used, UsedBefore;
    TreeFacts(vol.f, vol.St(), vol.L);
    DirFacts(vol.f, vol.St(), vol.L, 0);
    var format := vol.drive.parts[vol.part].format;
    slot := Slot(TS(DirTrack(format), if format == D81 then 3 else 1), 0);
    UsedNone(vol.St(), vol.L, slot);
  }

  lemma InsideDir(vol: Volume, slot: Slot, i: nat)
    requires vol.Valid() && AtDir(vol.L, slot, i)
    ensures InDir(vol.L, slot.dir) && slot.dir in vol.St().sec && slot.entry <= 8 && i < |vol.L.dir|
      && vol.L.dir[i] == slot.dir
    ensures slot.entry > 0 ==> AtDir(vol.L, Slot(slot.dir, slot.entry - 1), i)
  {
    hide TreeOk, EntryIn, StateOf;
    DirFacts(vol.f, vol.St(), vol.L, i);
  }

  /**
   Finds an unused directory entry, adding a sector to the directory when there is none. It fails only
   when all entries are used and the directory track is full.
   */
  method FindEmptyEntry(vol: Volume) returns (found: bool, slot: Slot, e: Entry)
    requires vol.Valid()
    modifies vol, vol.drive
    ensures vol.Valid() && vol.Rest() == old(vol.Rest()) && DirOnly(vol.f, old(TreeOf(vol)), TreeOf(vol))
    ensures found ==> InDir(vol.L, slot.dir) && slot.entry < 8 && slot.dir in vol.St().sec
    ensures found ==> EntryIn(vol.St().sec[slot.dir], slot.entry) == e && e[OFS_TYPE] == 0
    ensures found ==> FirstEmpty(old(TreeOf(vol)), TreeOf(vol), slot)
    ensures !found ==> TreeOf(vol) == old(TreeOf(vol)) && DirFull(vol.St(), vol.L)
    ensures !found ==> forall ts :: ts in vol.St().free ==> ts.track != DirTrack(vol.f)
  {
    hide TreeOk, EntryIn, StateOf, DirFull, DirOnly;
    Unchanged(vol.f, TreeOf(vol));
    var step: DirStep;
    ghost var i;
    step, slot, e, i := FirstUnused(vol);
    if step == Got {
      FirstThere(TreeOf(vol), slot, i);
      return true, slot, e;
    }
    found, slot, e := GrowDir(vol, slot.dir);
  }

  /** The first unused entry of the directory as it was, or, if there was none, the first of an added sector. */
  ghost predicate FirstEmpty(T: Tree, T': Tree, slot: Slot) {
    || (T' == T && exists i: nat :: AtDir(T.L, slot, i) && UsedBefore(T.st, T.L, slot, i))
    || (DirFull(T.st, T.L) && T'.L.dir == T.L.dir + [slot.dir] && slot.entry == 0)
  }

  lemma FirstThere(T: Tree, slot: Slot, i: nat)
    requires AtDir(T.L, slot, i) && UsedBefore(T.st, T.L, slot, i)
    ensures FirstEmpty(T, T, slot)
  {
  }

  /** Links a new, empty sector behind the last one of the directory. */
  method GrowDir(vol: Volume, last: TS) returns (found: bool, slot: Slot, e: Entry)
    requires vol.Valid() && vol.L.dir != [] && vol.L.dir[|vol.L.dir| - 1] == last
    modifies vol, vol.drive
    ensures vol.Valid() && vol.Rest() == old(vol.Rest()) && DirOnly(vol.f, old(TreeOf(vol)), TreeOf(vol))
    ensures found ==> InDir(vol.L, slot.dir) && slot.entry < 8 && slot.dir in vol.St().sec
    ensures found ==> EntryIn(vol.St().sec[slot.dir], slot.entry) == e && e[OFS_TYPE] == 0
    ensures found ==> vol.L.dir == old(vol.L).dir + [slot.dir] && slot.entry == 0
    ensures found ==> NextPlace(vol.f, old(vol.St()).free, last, slot.dir)
    ensures !found ==> TreeOf(vol) == old(TreeOf(vol))
    ensures !found ==> forall ts :: ts in vol.St().free ==> ts.track != DirTrack(vol.f)
  {
    hide TreeOk, EntryIn, StateOf, DirOnly, EmptyDirSector, NextPlace;
    ghost var T := TreeOf(vol);
    Unchanged(vol.f, T);
    DirFacts(vol.f, vol.St(), vol.L, |vol.L.dir| - 1);
    e := [0, 255] + ZeroBytes(30);
    var ok, t, s := vol.NextSector(last.track, last.sector);
    found, slot := ok, Slot(TS(t, s), 0);
    if !ok {
      return;
    }
    vol.Listed(TS(t, s));
    FreeIsUnowned(vol.f, T.st, T.L, TS(t, s));
    vol.Listed(TS(t, s));
    SmallNumbers(vol.f, TS(t, s));
    vol.ImageWrite(last.track, last.sector, 0, [t, s]);
    vol.Take(t, s);
    ClearDirSector(vol, TS(t, s));
    GrownDir(vol.f, T, vol.St(), TS(t, s), t, s);
    vol.L := WithDir(vol.L, TS(t, s));
  }

  lemma UsedNone(st: State, L: Layout, dh: Slot)
    requires dh.entry == 0
    ensures UsedBefore(st, L, dh, 0)
  {
  }

  lemma UsedToo(st: State, L: Layout, next: Slot, i: nat, e: Entry)
    requires AtDir(L, next, i) && next.entry > 0 && UsedBefore(st, L, Slot(next.dir, next.entry - 1), i)
    requires next.dir in st.sec && e == EntryIn(st.sec[next.dir], next.entry - 1) && e[OFS_TYPE] != 0
    ensures UsedBefore(st, L, next, i)
  {
    hide EntryIn;
  }

  lemma AllUsed(st: State, L: Layout, dh: Slot, i: nat)
    requires AtDir(L, dh, i) && UsedBefore(st, L, dh, i) && dh.entry == 8 && i == |L.dir| - 1
    ensures DirFull(st, L)
  {
    hide Used;
  }

  lemma SmallNumbers(f: Disk, ts: TS)
    requires OnDisk(f, ts) && !f.Dnp?
    ensures 0 < ts.track < 256 && ts.sector < 256
  {
  }

  lemma GrownDir(f: Disk, T: Tree, st': State, ts: TS, t: byte, s: byte)
    requires Sound(f, T) && ts in T.st.free && Plain(f, ts) && ts == TS(t, s) && t as int == DirTrack(f)
    requires T.L.dir != [] && T.L.dir[|T.L.dir| - 1] in T.st.sec
    requires var last := T.L.dir[|T.L.dir| - 1];
      st' == Stored(State(Stored(T.st, last, Patch(T.st.sec[last], 0, [t, s])).sec, T.st.free - {ts}), ts, EmptyDirSector())
    ensures Sound(f, Tree(st', WithDir(T.L, ts))) && DirOnly(f, T, Tree(st', WithDir(T.L, ts)))
    ensures InDir(WithDir(T.L, ts), ts) && ts in st'.sec
    ensures EntryIn(st'.sec[ts], 0) == [0, 255] + ZeroBytes(30)
  {
    hide TreeOk, OthersKept, Plain, EmptyDirSector, DirLinked, WithDir, DirOk, FileOk;
    var last := T.L.dir[|T.L.dir| - 1];
    var linked := Patch(T.st.sec[last], 0, [t, s]);
    var mid := State(T.st.sec, T.st.free - {ts});
    FreeIsUnowned(f, T.st, T.L, ts);
    TakeKeeps(f, T.st, mid, T.L, ts);
    TreeFacts(f, T.st, T.L);
    EmptyEntry();
    LinkedNow(mid, st', T.L, ts, t, s);
    DirGrows(f, mid, st', T.L, ts, linked, EmptyDirSector());
    WithDirFacts(T.L, ts);
    forall k
      ensures OthersKept(T, Tree(st', WithDir(T.L, ts)), k)
    {
      MapChange(T, Tree(mid, T.L), k);
      DirExtended(Tree(mid, T.L), Tree(st', WithDir(T.L, ts)), k, ts, linked, EmptyDirSector());
      OthersTransitive(T, Tree(mid, T.L), Tree(st', WithDir(T.L, ts)), k);
    }
  }

  lemma LinkedNow(mid: State, st': State, L: Layout, ts: TS, t: byte, s: byte)
    requires L.dir != [] && L.dir[|L.dir| - 1] in mid.sec && ts == TS(t, s)
    requires var last := L.dir[|L.dir| - 1];
      st' == Stored(State(Stored(mid, last, Patch(mid.sec[last], 0, [t, s])).sec, mid.free), ts, EmptyDirSector())
    ensures DirLinked(mid, st', L, ts, Patch(mid.sec[L.dir[|L.dir| - 1]], 0, [t, s]), EmptyDirSector())
  {
  }

  lemma WithDirFacts(L: Layout, ts: TS)
    ensures InDir(WithDir(L, ts), ts) && WithDir(L, ts).files == L.files
  {
  }

  lemma EmptyEntry()
    ensures EntryIn(EmptyDirSector(), 0) == [0, 255] + ZeroBytes(30) && EmptyDirSector()[0] == 0
  {
  }

  lemma Unchanged(f: Disk, T: Tree)
    ensures DirOnly(f, T, T)
  {
    forall k
      ensures OthersKept(T, T, k)
    {
      MapChange(T, T, k);
    }
  }
}
