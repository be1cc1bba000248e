/** Writing files: creating an entry, filling and storing blocks, closing. */
module DxxWrite {
  import opened Bits
  import opened Common
  import opened DxxGeometry
  import opened DxxBam
  import opened DxxAlloc
  import opened DxxState
  import opened DxxLayout
  import opened DxxFrames
  import opened DxxVolume
  import opened DxxFiles

  /** The buffer of an open file. The two link bytes at the front of `data` are filled in when it is stored. */
  class FileBuffer {
    var data: Sector
    var position: byte
    var lastused: byte
    var mustflush: bool
    var read: bool
    var sendeoi: bool
    var held: bool
    var track: byte
    var sector: byte
    /** Blocks stored so far, a 16-bit number. */
    var blocks: nat
    var dh: Slot

    /** A newly held buffer is all zero. */
    constructor ()
      ensures Fresh()
    {
      data, position, lastused, mustflush, read, sendeoi := ZeroBytes(256), 0, 0, false, false, false;
      held, track, sector, blocks, dh := true, 0, 0, 0, Slot(TS(0, 0), 0);
    }

    /** One that is given out again is all zero as well. */
    method Clear()
      modifies this
      ensures Fresh()
    {
      data, position, lastused, mustflush, read, sendeoi := ZeroBytes(256), 0, 0, false, false, false;
      held, track, sector, blocks, dh := true, 0, 0, 0, Slot(TS(0, 0), 0);
    }

    ghost predicate Fresh()
      reads this
    {
      && held && !mustflush && !read && !sendeoi && blocks == 0 && track == sector == 0 && position == lastused == 0
      && data == ZeroBytes(256)
    }

    /** Where the next byte goes; a wrapped position means behind the end. */
    ghost function Fill(): nat
      reads this
    {
      if mustflush then 256 else position
    }

    /** The buffer stands for the last sector of its file. */
    ghost predicate Seated(L: Layout)
      reads this
    {
      dh in L.files && L.files[dh] != [] && L.files[dh][|L.files[dh]| - 1] == TS(track, sector) && track != 0
    }

    /** All bytes up to the position are in use, except that a new file starts out holding a carriage return. */
    ghost predicate Shaped()
      reads this
    {
      && held && !read
      && (mustflush <==> position == 0) && Fill() >= 2
      && (lastused as int == Fill() - 1 || Virgin())
    }

    ghost predicate Virgin()
      reads this
    {
      Fill() == 2 && lastused == 2 && data[2] == 13
    }

    ghost predicate Rewound()
      reads this
    {
      held && !read && !mustflush && position == 2 && lastused == 1
    }

    /** Counts the block, and marks it as the last one in case there is no other. */
    method MarkLast()
      modifies this`blocks, this`data
      ensures blocks == (old(blocks) + 1) % 0x1_0000
      ensures data[0] == 0 && data[1] == lastused && data[2..] == old(data[2..])
    {
      blocks := (blocks + 1) % 0x1_0000;
      var first: byte, last: byte := 0, lastused;
      data := [first, last] + data[2..];
    }

    method LinkTo(t: byte, s: byte)
      modifies this`data
      ensures data[0] == t && data[1] == s && data[2..] == old(data[2..])
    {
      data := [t, s] + data[2..];
    }

    /** Makes the buffer ready for the next block. */
    method Rewind(t: byte, s: byte)
      requires held && !read
      modifies this`track, this`sector, this`position, this`lastused, this`mustflush
      ensures track == t && sector == s && Rewound()
    {
      track, sector, position, lastused, mustflush := t, s, 2, 1, false;
    }

    /** Puts a byte into the buffer and moves on; running off the end wraps the position and asks for a flush. */
    method Put(c: byte)
      requires held && !read && !mustflush && 1 <= position
      requires lastused as int == position - 1 || Virgin()
      modifies this`data, this`lastused, this`position, this`mustflush
      ensures data == old(data)[old(position) := c] && Fill() == old(position) + 1
      ensures Shaped() && lastused as int == Fill() - 1
    {
      data := data[position := c];
      if lastused < position {
        lastused := position;
      }
      position := (position + 1) % 256;
      if position == 0 {
        mustflush := true;
      }
    }

    method GiveUp()
      modifies this`track, this`position, this`lastused, this`mustflush, this`held
      ensures track == 0 && !held && position == 2 && lastused == 1 && !mustflush
    {
      track, position, lastused, mustflush, held := 0, 2, 1, false, false;
    }

    /** Prepares the buffer for a new file. */
    method Begin(slot: Slot, t: byte, s: byte)
      requires Fresh()
      modifies this
      ensures Shaped() && Virgin() && blocks == 0 && dh == slot && track == t && sector == s
    {
      position, lastused, dh, track, sector := 2, 2, slot, t, s;
      data := data[2 := 13];
    }
  }

  /** `bytes` is what the sectors before the last one and the first `n` bytes of `data` hold of the file. */
  ghost predicate Holds(T: Tree, slot: Slot, data: Sector, n: nat, bytes: seq<byte>) {
    && slot in T.L.files && T.L.files[slot] != [] && 2 <= n <= 256
    && var chain := T.L.files[slot];
    && Inside(T.st.sec, chain)
    && bytes == Body(T.st.sec, chain[..|chain| - 1]) + data[2..n]
  }

  // ----- creating -----

  function Padded(name: seq<byte>): seq<byte>
    requires |name| <= NAME_LENGTH
  {
    name + seq(NAME_LENGTH - |name|, _ => 160)
  }

  /** The entry of a new file; its first two bytes are not the file's. */
  function NewEntry(was: Entry, kind: byte, t: byte, s: byte, name: seq<byte>, stamp: Stamp): Entry
    requires |name| <= NAME_LENGTH
  {
    was[..2] + [kind, t, s] + Padded(name) + ZeroBytes(4) + stamp + [0, 0]
  }

  // ----- directory entries byte by byte -----

  /** Bytes 5 to 20 are the name, filled up with shifted spaces. */
  ghost predicate Named(e: Entry, name: seq<byte>) {
    |name| <= 16 && forall i :: 0 <= i < 16 ==> e[5 + i] == if i < |name| then name[i] else 0xa0
  }

  /** Bytes 25 to 29 are year, month, day, hour and minute. */
  ghost predicate Stamped(e: Entry, stamp: Stamp) {
    forall i :: 0 <= i < 5 ==> e[25 + i] == stamp[i]
  }

  /** The entry of a file that is being written: no blocks counted yet, and nothing in bytes 21 to 24. */
  ghost predicate Opened(e: Entry, name: seq<byte>, kind: byte, ts: TS, stamp: Stamp) {
    && e[2] == kind && e[3] as int == ts.track && e[4] as int == ts.sector && Named(e, name)
    && (forall i :: 21 <= i < 25 ==> e[i] == 0) && Stamped(e, stamp) && e[30] == e[31] == 0
  }

  /** Bit 7 of byte 2 is set; but for that, the time and the number of blocks the entry is as before. */
  ghost predicate Completed(was: Entry, e: Entry, stamp: Stamp) {
    && (forall i :: 0 <= i < 25 && i != 2 ==> e[i] == was[i])
    && (forall k: nat :: k < 8 ==> (Bit(e[2], k) <==> k == 7 || Bit(was[2], k)))
    && Stamped(e, stamp)
  }

  /** Only the time has changed. */
  ghost predicate Retimed(was: Entry, e: Entry, stamp: Stamp) {
    && (forall i :: 0 <= i < 32 && !(25 <= i < 30) ==> e[i] == was[i])
    && Stamped(e, stamp)
  }

  /** The entry of a closed file. */
  ghost predicate Listed(e: Entry, name: seq<byte>, kind: byte, ts: TS, stamp: Stamp) {
    && (forall k: nat :: k < 8 ==> (Bit(e[2], k) <==> k == 7 || Bit(kind, k)))
    && e[3] as int == ts.track && e[4] as int == ts.sector && Named(e, name)
    && (forall i :: 21 <= i < 25 ==> e[i] == 0) && Stamped(e, stamp)
  }

  /** The entry of a file; there is one for every file of a sound image. */
  ghost predicate HasEntry(T: Tree, slot: Slot) {
    slot.dir in T.st.sec && slot.entry < 8
  }

  ghost function EntryOf(T: Tree, slot: Slot): Entry
    requires HasEntry(T, slot)
  {
    EntryIn(T.st.sec[slot.dir], slot.entry)
  }

  ghost predicate EntryOpened(T: Tree, slot: Slot, name: seq<byte>, kind: byte, ts: TS, stamp: Stamp) {
    HasEntry(T, slot) && Opened(EntryOf(T, slot), name, kind, ts, stamp)
  }

  ghost predicate EntryCompleted(T: Tree, T': Tree, slot: Slot, stamp: Stamp) {
    HasEntry(T, slot) && HasEntry(T', slot) && Completed(EntryOf(T, slot), EntryOf(T', slot), stamp)
  }

  ghost predicate EntryListed(T: Tree, slot: Slot, name: seq<byte>, kind: byte, ts: TS, stamp: Stamp) {
    HasEntry(T, slot) && Listed(EntryOf(T, slot), name, kind, ts, stamp)
  }

  /** The sectors free before are, off the directory track, those free now and those of the chain. */
  ghost predicate SpaceMoved(f: Disk, free: set<TS>, free': set<TS>, chain: seq<TS>) {
    SameSpace(f, free, free' + Elements(chain))
  }

  /** Creates a file. It fails only if no sector is free for data, or none for a needed directory sector. */
  method OpenWrite(vol: Volume, name: seq<byte>, kind: byte, stamp: Stamp, buf: FileBuffer) returns (ok: bool)
    requires vol.Valid() && kind != 0 && |name| <= NAME_LENGTH && buf.Fresh()
    modifies vol, vol.drive, buf
    ensures vol.Valid() && vol.Rest() == old(vol.Rest())
    ensures ok ==> Created(vol.f, old(TreeOf(vol)), TreeOf(vol), buf.dh, TS(buf.track, buf.sector), name, kind, stamp)
    ensures ok ==> FirstPlace(vol.f, old(vol.St()).free, TS(buf.track, buf.sector))
    ensures ok ==> EntryOpened(TreeOf(vol), buf.dh, name, kind, TS(buf.track, buf.sector), stamp)
    ensures ok ==> buf.Seated(vol.L) && buf.Shaped() && buf.Virgin() && buf.blocks == 0 && buf.track as int != DirTrack(vol.f)
    ensures !ok ==> DirOnly(vol.f, old(TreeOf(vol)), TreeOf(vol))
    ensures !ok ==> !FreeOffDir(vol.f, old(vol.St())) || NoEntryLeft(vol.f, vol.St(), vol.L)
  {
    hide TreeOk, EntryIn, StateOf, DirOnly, DirFull, NewEntry, Created, FreeOffDir, EntryOpened, FirstPlace;
    ghost var T := TreeOf(vol);
    var slot, e, found, t, s;
    found, slot, e := FindEmptyEntry(vol);
    if !found {
      return false;
    }
    ghost var T1 := TreeOf(vol);
    found, t, s := vol.FirstSector();
    if !found {
      SameFreeOffDir(vol.f, T, T1);
      return false;
    }
    SameFirstPlace(vol.f, T, T1, TS(t, s));
    vol.Listed(TS(t, s));
    SmallNumbers(vol.f, TS(t, s));
    AddFile(vol, slot, e, t, s, name, kind, stamp, T);
    CreatedSeat(vol.f, T, TreeOf(vol), slot, TS(t, s), name, kind, stamp);
    CreatedEntry(vol.f, T, TreeOf(vol), slot, TS(t, s), name, kind, stamp);
    buf.Begin(slot, t, s);
    ok := true;
  }

  /** Takes a free sector and fills in an unused entry for it. */
  method AddFile(vol: Volume, slot: Slot, e: Entry, t: byte, s: byte, name: seq<byte>, kind: byte, stamp: Stamp, ghost T: Tree)
    requires vol.Valid() && kind != 0 && |name| <= NAME_LENGTH && DirOnly(vol.f, T, TreeOf(vol))
    requires InDir(vol.L, slot.dir) && slot.entry < 8 && slot.dir in vol.St().sec
    requires EntryIn(vol.St().sec[slot.dir], slot.entry) == e && e[OFS_TYPE] == 0
    requires TS(t, s) in vol.St().free && t as int != DirTrack(vol.f)
    modifies vol, vol.drive
    ensures vol.Valid() && vol.Rest() == old(vol.Rest())
    ensures Created(vol.f, T, TreeOf(vol), slot, TS(t, s), name, kind, stamp)
  {
    hide TreeOk, EntryIn, StateOf, DirOnly, NewEntry, Created;
    ghost var T1 := TreeOf(vol);
    FreeIsUnowned(vol.f, T1.st, T1.L, TS(t, s));
    vol.Listed(TS(t, s));
    vol.Take(t, s);
    vol.ImageWrite(slot.dir.track, slot.dir.sector, 32 * slot.entry, NewEntry(e, kind, t, s, name, stamp));
    FileMade(vol.f, T, T1, vol.St(), slot, e, t, s, name, kind, stamp);
    vol.L := NewFile(vol.L, slot, TS(t, s));
  }

  lemma CreatedSeat(f: Disk, T: Tree, T': Tree, slot: Slot, ts: TS, name: seq<byte>, kind: byte, stamp: Stamp)
    requires Created(f, T, T', slot, ts, name, kind, stamp)
    ensures slot in T'.L.files && T'.L.files[slot] == [ts]
  {
  }

  lemma CreatedEntry(f: Disk, T: Tree, T': Tree, slot: Slot, ts: TS, name: seq<byte>, kind: byte, stamp: Stamp)
    requires Created(f, T, T', slot, ts, name, kind, stamp)
    ensures EntryOpened(T', slot, name, kind, ts, stamp)
  {
    hide Sound, OthersKept, SpaceMoved;
    var body, e := EntryBody(T'.st.sec[slot.dir], slot.entry), EntryOf(T', slot);
    assert forall i :: 0 <= i < 30 ==> e[i + 2] == body[i];
  }

  lemma MadeSeat(L: Layout, slot: Slot, ts: TS)
    ensures slot in NewFile(L, slot, ts).files && NewFile(L, slot, ts).files[slot] == [ts]
  {
  }

  /** All entries of the directory are used and its track is full. */
  ghost predicate NoEntryLeft(f: Disk, st: State, L: Layout) {
    DirFull(st, L) && forall ts :: ts in st.free ==> ts.track != DirTrack(f)
  }

  lemma SameFreeOffDir(f: Disk, T: Tree, T': Tree)
    requires DirOnly(f, T, T')
    ensures FreeOffDir(f, T.st) <==> FreeOffDir(f, T'.st)
  {
    hide OthersKept;
  }

  lemma SameFirstPlace(f: Disk, T: Tree, T': Tree, ts: TS)
    requires DirOnly(f, T, T')
    ensures FirstPlace(f, T.st.free, ts) <==> FirstPlace(f, T'.st.free, ts)
  {
    hide OthersKept;
  }

  /** A new file of one sector, described as asked; every other file is as it was. */
  ghost predicate Created(f: Disk, T: Tree, T': Tree, slot: Slot, ts: TS, name: seq<byte>, kind: byte, stamp: Stamp) {
    && Sound(f, T') && slot !in T.L.files && slot in T'.L.files && T'.L.files[slot] == [ts]
    && OthersKept(T, T', slot) && SpaceMoved(f, T.st.free, T'.st.free, [ts]) && ts !in T'.st.free
    && slot.entry < 8 && slot.dir in T'.st.sec && ts.track < 256 && ts.sector < 256 && |name| <= NAME_LENGTH
    && EntryBody(T'.st.sec[slot.dir], slot.entry)
       == [kind, ts.track, ts.sector] + Padded(name) + ZeroBytes(4) + stamp + [0, 0]
  }

  lemma FileMade(f: Disk, T: Tree, T1: Tree, st': State, slot: Slot, e: Entry, t: byte, s: byte,
                 name: seq<byte>, kind: byte, stamp: Stamp)
    requires DirOnly(f, T, T1) && Sound(f, T1) && TS(t, s) in T1.st.free && Plain(f, TS(t, s))
    requires t as int != DirTrack(f) && kind != 0 && |name| <= NAME_LENGTH
    requires InDir(T1.L, slot.dir) && slot.entry < 8 && slot.dir in T1.st.sec
    requires EntryIn(T1.st.sec[slot.dir], slot.entry) == e && e[OFS_TYPE] == 0
    requires st' == Stored(State(T1.st.sec, T1.st.free - {TS(t, s)}), slot.dir,
                           Patch(T1.st.sec[slot.dir], 32 * slot.entry, NewEntry(e, kind, t, s, name, stamp)))
    ensures Sound(f, Tree(st', NewFile(T1.L, slot, TS(t, s))))
    ensures Created(f, T, Tree(st', NewFile(T1.L, slot, TS(t, s))), slot, TS(t, s), name, kind, stamp)
  {
    hide TreeOk, OthersKept, Plain, EntryIn, NewEntry, NewFile, Padded;
    var ts := TS(t, s);
    var mid, made := State(T1.st.sec, T1.st.free - {ts}), NewEntry(e, kind, t, s, name, stamp);
    FreeIsUnowned(f, T1.st, T1.L, ts);
    TakeKeeps(f, T1.st, mid, T1.L, ts);
    NewEntryBytes(e, kind, t, s, name, stamp);
    UnusedSlot(f, T1, slot);
    PatchIsEntry(mid, st', slot, made);
    CreateKeeps(f, mid, st', T1.L, slot, made, ts);
    EntryStoredFacts(mid, st', slot, made);
    MadeSeat(T1.L, slot, ts);
    var A, B := Tree(mid, T1.L), Tree(st', T1.L);
    MapChange(T1, A, slot);
    EntryChanged(A, B, slot, made);
    FileAdded(B, slot, ts);
    OthersTransitive(T1, A, B, slot);
    OthersTransitive(T1, B, Tree(st', NewFile(T1.L, slot, ts)), slot);
    OthersTransitive(T, T1, Tree(st', NewFile(T1.L, slot, ts)), slot);
    assert SpaceMoved(f, T.st.free, st'.free, [ts]);
  }

  lemma NewEntryBytes(e: Entry, kind: byte, t: byte, s: byte, name: seq<byte>, stamp: Stamp)
    requires |name| <= NAME_LENGTH
    ensures var n := NewEntry(e, kind, t, s, name, stamp);
      && n[0] == e[0] && n[1] == e[1] && n[OFS_TYPE] == kind && n[OFS_TRACK] == t && n[OFS_SECTOR] == s
      && n[2..] == [kind, t, s] + Padded(name) + ZeroBytes(4) + stamp + [0, 0]
  {
  }

  lemma UnusedSlot(f: Disk, T: Tree, slot: Slot)
    requires Sound(f, T) && slot.entry < 8 && slot.dir in T.st.sec
      && EntryIn(T.st.sec[slot.dir], slot.entry)[OFS_TYPE] == 0
    ensures slot !in T.L.files
  {
    hide EntryIn, Linked, Inside;
  }

  lemma PatchIsEntry(st: State, st': State, slot: Slot, e: Entry)
    requires slot.dir in st.sec && slot.entry < 8
    requires e[0] == EntryIn(st.sec[slot.dir], slot.entry)[0] && e[1] == EntryIn(st.sec[slot.dir], slot.entry)[1]
    requires st' == Stored(st, slot.dir, Patch(st.sec[slot.dir], 32 * slot.entry, e))
    ensures EntryStored(st, st', slot, e)
  {
    assert Patch(st.sec[slot.dir], 32 * slot.entry, e) == WithEntry(st.sec[slot.dir], slot.entry, e);
  }

  // ----- storing blocks -----

  /** The last sector of the file has new contents. */
  ghost predicate LastStored(T: Tree, T': Tree, slot: Slot, data: Sector) {
    && slot in T.L.files && T.L.files[slot] != []
    && var last := T.L.files[slot][|T.L.files[slot]| - 1];
    && last in T.st.sec && T' == Tree(Stored(T.st, last, data), T.L)
  }

  /** The last sector is stored with a link to a free sector, which becomes the last one. */
  ghost predicate BlockAdded(T: Tree, T': Tree, slot: Slot, ts: TS, data: Sector) {
    && slot in T.L.files && T.L.files[slot] != [] && ts in T.st.free && Link(data) == ts
    && var last := T.L.files[slot][|T.L.files[slot]| - 1];
    && last in T.st.sec
    && T' == Tree(Stored(State(T.st.sec, T.st.free - {ts}), last, data), WithFile(T.L, slot, ts))
  }

  /** Storing the last sector keeps the image sound and leaves the other files alone. */
  lemma LastStoredKeeps(f: Disk, T: Tree, T': Tree, slot: Slot, data: Sector)
    requires Sound(f, T) && LastStored(T, T', slot, data)
    ensures Sound(f, T') && OthersKept(T, T', slot) && slot in T'.L.files && T'.L.files[slot] != []
  {
    hide TreeOk, FileOk, OthersKept;
    TreeFacts(f, T.st, T.L);
    LastOwned(T.L, slot);
    StoreKeeps(f, T.st, T'.st, T.L, T.L.files[slot][|T.L.files[slot]| - 1], data);
    SectorStored(T, T', slot, T.L.files[slot][|T.L.files[slot]| - 1], data);
  }

  lemma LastOwned(L: Layout, slot: Slot)
    requires FilesOwned(L) && slot in L.files && L.files[slot] != []
    ensures var n := |L.files[slot]|;
      L.files[slot][n - 1] in L.owner && L.owner[L.files[slot][n - 1]] == FilePlace(slot, n - 1)
    ensures L.files[slot][|L.files[slot]| - 1] !in L.files[slot][..|L.files[slot]| - 1]
  {
    var chain := L.files[slot];
    forall k | 0 <= k < |chain| - 1
      ensures chain[k] != chain[|chain| - 1]
    {
      assert L.owner[chain[k]] == FilePlace(slot, k);
    }
  }

  /** Adding a block keeps the image sound and leaves the other files alone. */
  lemma BlockAddedKeeps(f: Disk, T: Tree, T': Tree, slot: Slot, ts: TS, data: Sector)
    requires Sound(f, T) && BlockAdded(T, T', slot, ts, data) && Plain(f, ts)
    ensures Sound(f, T') && OthersKept(T, T', slot)
    ensures slot in T'.L.files && T'.L.files[slot] == T.L.files[slot] + [ts]
    ensures SpaceMoved(f, T.st.free, T'.st.free, [ts])
  {
    hide TreeOk, FileOk, OthersKept, Plain, Link;
    var A := Tree(State(T.st.sec, T.st.free - {ts}), T.L);
    var B := Tree(T'.st, T.L);
    FreeIsUnowned(f, T.st, T.L, ts);
    TakeKeeps(f, T.st, A.st, T.L, ts);
    LastStoredKeeps(f, A, B, slot, data);
    ExtendKeeps(f, B.st, T.L, slot, ts);
    MapChange(T, A, slot);
    FileExtended(B, slot, ts);
    OthersTransitive(T, A, B, slot);
    OthersTransitive(T, B, T', slot);
  }

  /** An added block makes the stored part of the file longer by all its bytes. */
  lemma BlockAddedHolds(f: Disk, T: Tree, T': Tree, slot: Slot, ts: TS, data: Sector, was: Sector, bytes: seq<byte>)
    requires Sound(f, T) && BlockAdded(T, T', slot, ts, data) && Plain(f, ts)
    requires Holds(T, slot, was, 256, bytes) && data[2..] == was[2..]
    ensures Holds(T', slot, was, 2, bytes)
  {
    hide TreeOk, FileOk, Plain, Link;
    TreeFacts(f, T.st, T.L);
    FreeIsUnowned(f, T.st, T.L, ts);
    LastOwned(T.L, slot);
    var chain := T.L.files[slot];
    assert T'.st.sec == T.st.sec[chain[|chain| - 1] := data];
    FilledBody(T.st.sec, chain, data);
    assert (chain + [ts])[..|chain|] == chain;
    assert was[2..256] == was[2..];
    assert was[2..2] == [];
    assert Inside(T'.st.sec, chain + [ts]);
  }

  /** A chain whose last sector is stored in full has the body it had before and that sector. */
  lemma FilledBody(sec: map<TS, Sector>, chain: seq<TS>, data: Sector)
    requires Inside(sec, chain) && chain != [] && chain[|chain| - 1] !in chain[..|chain| - 1]
    ensures var sec' := sec[chain[|chain| - 1] := data];
      Inside(sec, chain[..|chain| - 1]) && Inside(sec', chain) && Body(sec', chain) == Body(sec, chain[..|chain| - 1]) + data[2..]
  {
    hide Link;
    var last, front := chain[|chain| - 1], chain[..|chain| - 1];
    FrontInside(sec, chain);
    StoreElsewhere(sec, front, last, data);
    assert chain == front + [last];
    BodyAppend(sec[last := data], front, last);
  }

  lemma FrontInside(sec: map<TS, Sector>, chain: seq<TS>)
    requires Inside(sec, chain) && chain != []
    ensures Inside(sec, chain[..|chain| - 1]) && chain[|chain| - 1] in sec
  {
  }

  /** A last sector stored as such makes what the buffer holds the contents of the file. */
  /** Where the bytes of a last sector end that names this byte as its last. */
  function EndOf(lastused: byte): nat { if lastused == 0 then 2 else lastused + 1 }

  lemma LastStoredHolds(f: Disk, T: Tree, T': Tree, slot: Slot, data: Sector, was: Sector, n: nat, bytes: seq<byte>)
    requires Sound(f, T) && LastStored(T, T', slot, data)
    requires Holds(T, slot, was, n, bytes) && data[2..] == was[2..] && data[0] == 0 && n == EndOf(data[1])
    ensures Contents(T', slot, bytes)
  {
    hide TreeOk, FileOk;
    TreeFacts(f, T.st, T.L);
    LastOwned(T.L, slot);
    var chain := T.L.files[slot];
    var last, front := chain[|chain| - 1], chain[..|chain| - 1];
    FrontInside(T.st.sec, chain);
    StoreElsewhere(T.st.sec, front, last, data);
    var sec' := T.st.sec[last := data];
    assert T'.st.sec == sec' && sec'[last] == data;
    assert Inside(sec', chain) && Body(sec', front) == Body(T.st.sec, front);
    SameRange(was, data, n);
  }

  lemma SameRange(was: Sector, data: Sector, n: nat)
    requires 2 <= n <= 256 && data[2..] == was[2..]
    ensures data[2..n] == was[2..n]
  {
    assert was[2..n] == was[2..][..n - 2] && data[2..n] == data[2..][..n - 2];
  }

  /** The file is ended and holds `bytes`. */
  ghost predicate Contents(T: Tree, slot: Slot, bytes: seq<byte>) {
    && slot in T.L.files && Inside(T.st.sec, T.L.files[slot]) && Ended(T.st.sec, T.L.files[slot])
    && bytes == FileBytes(T.st.sec, T.L.files[slot])
  }

  /** Where the buffer's sector is, and that files may be there. */
  lemma SeatFacts(f: Disk, T: Tree, slot: Slot)
    requires Sound(f, T) && slot in T.L.files && T.L.files[slot] != []
    ensures var last := T.L.files[slot][|T.L.files[slot]| - 1]; last in T.st.sec && Plain(f, last) && OnDisk(f, last)
    ensures Inside(T.st.sec, T.L.files[slot])
  {
    hide Linked, EntryIn;
    assert FileOk(f, T.st, slot, T.L.files[slot]);
  }

  /**
   Stores a full block: looks for the next sector, links it in, and starts the buffer afresh for it. If
   there is none, the block is stored as the last one of the file and the buffer is given up.
   */
  method WriteBlock(vol: Volume, buf: FileBuffer) returns (err: bool)
    requires vol.Valid() && buf.Seated(vol.L) && buf.held && !buf.read
    modifies vol, vol.drive, buf
    ensures vol.Valid() && vol.Rest() == old(vol.Rest())
    ensures buf.dh == old(buf.dh) && buf.data[2..] == old(buf.data[2..])
      && buf.blocks == (old(buf.blocks) + 1) % 0x1_0000
    ensures !err ==> BlockAdded(old(TreeOf(vol)), TreeOf(vol), buf.dh, TS(buf.track, buf.sector), buf.data)
    ensures !err ==> Plain(vol.f, TS(buf.track, buf.sector)) && buf.Rewound() && buf.Seated(vol.L)
    ensures !err ==> (buf.track as int == DirTrack(vol.f) <==> old(buf.track) as int == DirTrack(vol.f))
    ensures !err ==> NextPlace(vol.f, old(vol.St()).free, TS(old(buf.track), old(buf.sector)), TS(buf.track, buf.sector))
    ensures err ==> LastStored(old(TreeOf(vol)), TreeOf(vol), buf.dh, buf.data)
    ensures err ==> buf.data[0] == 0 && buf.data[1] == old(buf.lastused) && buf.track == 0 && !buf.held
    ensures err ==> NoneLeft(vol.f, old(vol.St()), old(buf.track))
  {
    hide TreeOk, StateOf, BlockAdded, LastStored, NoneLeft, Link, Plain, NextPlace;
    SeatFacts(vol.f, TreeOf(vol), buf.dh);
    var t, s := buf.track, buf.sector;
    buf.MarkLast();
    var found, nt, ns := vol.NextSector(t, s);
    if !found {
      StoreLast(vol, buf);
      buf.GiveUp();
      return true;
    }
    vol.Listed(TS(nt, ns));
    SmallNumbers(vol.f, TS(nt, ns));
    buf.LinkTo(nt, ns);
    LinkAndStore(vol, buf, nt, ns);
    buf.Rewind(nt, ns);
    AddedSeat(vol.f, old(TreeOf(vol)), TreeOf(vol), buf.dh, TS(nt, ns), buf.data);
    err := false;
  }

  /** Stores the buffer in its sector. */
  method StoreLast(vol: Volume, buf: FileBuffer)
    requires vol.Valid() && buf.Seated(vol.L)
    modifies vol.drive
    ensures vol.Valid() && vol.Rest() == old(vol.Rest())
    ensures LastStored(old(TreeOf(vol)), TreeOf(vol), buf.dh, buf.data)
  {
    hide TreeOk, StateOf, LastStored;
    ghost var T := TreeOf(vol);
    SeatFacts(vol.f, T, buf.dh);
    vol.ImageWrite(buf.track, buf.sector, 0, buf.data);
    WholePatch(T.st.sec[TS(buf.track, buf.sector)], buf.data);
    StoredLast(T, TreeOf(vol), buf.dh, buf.data);
    LastStoredKeeps(vol.f, T, TreeOf(vol), buf.dh, buf.data);
  }

  /** Takes the free sector that the buffer links to, and stores the buffer in its own. */
  method LinkAndStore(vol: Volume, buf: FileBuffer, nt: byte, ns: byte)
    requires vol.Valid() && buf.Seated(vol.L) && TS(nt, ns) in vol.St().free && buf.data[0] == nt && buf.data[1] == ns
    modifies vol, vol.drive
    ensures vol.Valid() && vol.Rest() == old(vol.Rest()) && Plain(vol.f, TS(nt, ns))
    ensures BlockAdded(old(TreeOf(vol)), TreeOf(vol), buf.dh, TS(nt, ns), buf.data)
  {
    hide TreeOk, StateOf, BlockAdded, Link, Plain;
    ghost var T := TreeOf(vol);
    SeatFacts(vol.f, T, buf.dh);
    FreeIsUnowned(vol.f, T.st, T.L, TS(nt, ns));
    vol.Listed(TS(nt, ns));
    vol.Take(nt, ns);
    vol.ImageWrite(buf.track, buf.sector, 0, buf.data);
    WholePatch(T.st.sec[TS(buf.track, buf.sector)], buf.data);
    StoredLinked(T, vol.St(), buf.dh, TS(nt, ns), buf.data);
    vol.L := WithFile(vol.L, buf.dh, TS(nt, ns));
    BlockAddedKeeps(vol.f, T, TreeOf(vol), buf.dh, TS(nt, ns), buf.data);
  }

  lemma AddedSeat(f: Disk, T: Tree, T': Tree, slot: Slot, ts: TS, data: Sector)
    requires Sound(f, T) && BlockAdded(T, T', slot, ts, data) && OnDisk(f, ts)
    ensures slot in T'.L.files && T'.L.files[slot] == T.L.files[slot] + [ts] && ts.track != 0
  {
    hide TreeOk, Link;
  }

  lemma WholePatch(sec: Sector, data: Sector)
    ensures Patch(sec, 0, data) == data
  {
  }

  lemma StoredLast(T: Tree, T': Tree, slot: Slot, data: Sector)
    requires slot in T.L.files && T.L.files[slot] != [] && T.L.files[slot][|T.L.files[slot]| - 1] in T.st.sec
    requires T' == Tree(Stored(T.st, T.L.files[slot][|T.L.files[slot]| - 1], data), T.L)
    ensures LastStored(T, T', slot, data)
  {
  }

  lemma StoredLinked(T: Tree, st': State, slot: Slot, ts: TS, data: Sector)
    requires slot in T.L.files && T.L.files[slot] != [] && T.L.files[slot][|T.L.files[slot]| - 1] in T.st.sec
    requires ts in T.st.free && data[0] as int == ts.track && data[1] as int == ts.sector
    requires st' == Stored(State(T.st.sec, T.st.free - {ts}), T.L.files[slot][|T.L.files[slot]| - 1], data)
    ensures BlockAdded(T, Tree(st', WithFile(T.L, slot, ts)), slot, ts, data)
  {
  }

  // ----- closing -----

  function WithBit7(b: byte): (r: byte)
    ensures r != 0 && Bit(r, 7) && forall k: nat :: k < 8 && k != 7 ==> Bit(r, k) == Bit(b, k)
  {
    assert Pow2(8) == 256;
    PutBitBound(b, 7, true, 8);
    PutBitAt(b, 7, true, 7);
    ZeroHasNoBits(7);
    OtherBits(b);
    PutBit(b, 7, true)
  }

  lemma OtherBits(b: byte)
    ensures forall k: nat :: k < 8 && k != 7 ==> Bit(PutBit(b, 7, true), k) == Bit(b, k)
  {
    hide Bit, PutBit;
    forall k: nat | k < 8 && k != 7
      ensures Bit(PutBit(b, 7, true), k) == Bit(b, k)
    {
      PutBitAt(b, 7, true, k);
    }
  }

  /** The entry of a closed file: properly closed, with its size in blocks and the time of closing. */
  function ClosedEntry(e: Entry, blocks: nat, stamp: Stamp): (r: Entry)
    requires blocks < 0x1_0000
  {
    e[..2] + [WithBit7(e[OFS_TYPE])] + e[3..25] + stamp + [blocks % 256, blocks / 256]
  }

  lemma ClosedEntryBytes(e: Entry, blocks: nat, stamp: Stamp)
    requires blocks < 0x1_0000
    ensures var r := ClosedEntry(e, blocks, stamp);
      && r[0] == e[0] && r[1] == e[1] && r[OFS_TYPE] != 0 && r[OFS_TRACK] == e[OFS_TRACK]
      && r[OFS_SECTOR] == e[OFS_SECTOR]
      && r[OFS_SIZE_LOW] as int + 256 * r[OFS_SIZE_HI] as int == blocks
      && Completed(e, r, stamp) && r[30] as int + 256 * r[31] as int == blocks
  {
    hide Bit;
  }

  /** The file has got the entry of a closed file; apart from that and its last sector nothing changed. */
  ghost predicate Described(T: Tree, T': Tree, slot: Slot, e: Entry) {
    EntryStored(T.st, T'.st, slot, e) && T'.L == T.L
  }

  /** Rewriting the entry of a file for the same first sector changes neither soundness nor any file's contents. */
  lemma DescribedKeeps(f: Disk, T: Tree, T': Tree, slot: Slot, e: Entry)
    requires Sound(f, T) && slot in T.L.files && Described(T, T', slot, e) && e[OFS_TYPE] != 0
    requires slot.dir in T.st.sec && slot.entry < 8
    requires var was := EntryIn(T.st.sec[slot.dir], slot.entry);
      e[OFS_TRACK] == was[OFS_TRACK] && e[OFS_SECTOR] == was[OFS_SECTOR]
    ensures Sound(f, T') && OthersKept(T, T', slot) && InDir(T.L, slot.dir)
    ensures slot in T'.L.files && T'.L.files[slot] != []
    ensures Unaltered(T.st.sec, T'.st.sec, T.L.files[slot])
  {
    hide TreeOk, OthersKept, EntryIn, EntryStored, Linked, FilesOwned, DirOwned, OwnersReal;
    TreeFacts(f, T.st, T.L);
    FileInside(f, T.st, slot, T.L.files[slot]);
    DescribeKeeps(f, T.st, T'.st, T.L, slot, e);
    EntryChanged(T, T', slot, e);
    EntryStoredFacts(T.st, T'.st, slot, e);
    ChainAvoids(T.L, slot, slot.dir);
  }

  lemma UnalteredContents(T: Tree, T': Tree, slot: Slot, bytes: seq<byte>)
    requires Contents(T, slot, bytes) && T'.L == T.L && Unaltered(T.st.sec, T'.st.sec, T.L.files[slot])
    ensures Contents(T', slot, bytes)
  {
    SameBytes(T.st.sec, T'.st.sec, T.L.files[slot]);
  }

  /** The last sector of the file names `n` as its last byte in use. */
  ghost predicate LastByteAt(T: Tree, slot: Slot, n: int) {
    && slot in T.L.files && T.L.files[slot] != []
    && var last := T.L.files[slot][|T.L.files[slot]| - 1];
    last in T.st.sec && T.st.sec[last][1] as int == n
  }

  lemma UnalteredLast(T: Tree, T': Tree, slot: Slot, n: int)
    requires LastByteAt(T, slot, n) && T'.L == T.L && Unaltered(T.st.sec, T'.st.sec, T.L.files[slot])
    ensures LastByteAt(T', slot, n)
  {
  }

  /** Stores the last block and completes the directory entry. */
  method WriteCleanup(vol: Volume, buf: FileBuffer, stamp: Stamp) returns (err: bool)
    requires vol.Valid() && (buf.track != 0 ==> buf.Seated(vol.L))
    modifies vol, vol.drive, buf
    ensures vol.Valid() && vol.Rest() == old(vol.Rest()) && buf.dh == old(buf.dh)
    ensures err <==> old(buf.track) == 0
    ensures err ==> TreeOf(vol) == old(TreeOf(vol))
    ensures !err ==> FileClosed(old(TreeOf(vol)), TreeOf(vol), buf.dh, (old(buf.blocks) + 1) % 0x1_0000, stamp)
    ensures !err ==> forall bytes :: Holds(old(TreeOf(vol)), buf.dh, old(buf.data), EndOf(old(buf.lastused)), bytes) ==>
      Contents(TreeOf(vol), buf.dh, bytes)
    ensures !err ==> LastByteAt(TreeOf(vol), buf.dh, old(buf.lastused)) && !buf.held
    ensures !err ==> EntryCompleted(old(TreeOf(vol)), TreeOf(vol), buf.dh, stamp)
    ensures !err ==>
      EntryOf(TreeOf(vol), buf.dh)[30] as int + 256 * EntryOf(TreeOf(vol), buf.dh)[31] as int == (old(buf.blocks) + 1) % 0x1_0000
  {
    hide TreeOk, StateOf, LastStored, Contents, Holds, FileClosed, LastByteAt, Completed, EntryIn;
    ghost var T, data, n := TreeOf(vol), buf.data, EndOf(buf.lastused);
    buf.MarkLast();
    if buf.track == 0 {
      return true;
    }
    StoreLast(vol, buf);
    ghost var T1 := TreeOf(vol);
    LastStoredKeeps(vol.f, T, T1, buf.dh, buf.data);
    forall bytes | Holds(T, buf.dh, data, n, bytes)
      ensures Contents(T1, buf.dh, bytes)
    {
      LastStoredHolds(vol.f, T, T1, buf.dh, buf.data, data, n, bytes);
    }
    StoredByte(T, T1, buf.dh, buf.data);
    Describe(vol, buf.dh, buf.blocks, stamp);
    UnalteredLast(T1, TreeOf(vol), buf.dh, buf.data[1]);
    ClosedBoth(T, T1, TreeOf(vol), buf.dh, buf.data, buf.blocks, stamp);
    forall bytes | Contents(T1, buf.dh, bytes)
      ensures Contents(TreeOf(vol), buf.dh, bytes)
    {
      UnalteredContents(T1, TreeOf(vol), buf.dh, bytes);
    }
    ClosedFacts(vol.f, T, TreeOf(vol), buf.dh, buf.blocks, stamp);
    buf.GiveUp();
    err := false;
  }

  lemma StoredByte(T: Tree, T': Tree, slot: Slot, data: Sector)
    requires LastStored(T, T', slot, data)
    ensures LastByteAt(T', slot, data[1])
  {
  }

  /** Completes the directory entry of a file. */
  method Describe(vol: Volume, slot: Slot, blocks: nat, stamp: Stamp)
    requires vol.Valid() && slot in vol.L.files && blocks < 0x1_0000
    modifies vol.drive
    ensures vol.Valid() && vol.Rest() == old(vol.Rest())
    ensures EntryClosed(old(TreeOf(vol)), TreeOf(vol), slot, blocks, stamp)
    ensures Unaltered(old(vol.St()).sec, vol.St().sec, vol.L.files[slot])
      && OthersKept(old(TreeOf(vol)), TreeOf(vol), slot)
  {
    hide TreeOk, StateOf, EntryIn, EntryStored, ClosedEntry, Unaltered, OthersKept;
    ghost var T := TreeOf(vol);
    SlotFacts(vol.f, T, slot);
    var ok, sec := vol.CheckedRead(slot.dir.track, slot.dir.sector);
    var e := ClosedEntry(EntryIn(sec, slot.entry), blocks, stamp);
    ClosedEntryBytes(EntryIn(sec, slot.entry), blocks, stamp);
    vol.ImageWrite(slot.dir.track, slot.dir.sector, 32 * slot.entry, e);
    PatchIsEntry(T.st, vol.St(), slot, e);
    ghost var T' := TreeOf(vol);
    assert Described(T, T', slot, e);
    DescribedKeeps(vol.f, T, T', slot, e);
  }

  lemma SlotFacts(f: Disk, T: Tree, slot: Slot)
    requires Sound(f, T) && slot in T.L.files
    ensures slot.dir in T.st.sec && slot.entry < 8 && InDir(T.L, slot.dir)
    ensures T.L.files[slot] != [] && Inside(T.st.sec, T.L.files[slot])
  {
    hide Linked, EntryIn;
    assert FileOk(f, T.st, slot, T.L.files[slot]);
  }

  /** The entry of the file is that of a file closed with `blocks` blocks, and nothing else changed. */
  ghost predicate EntryClosed(T: Tree, T': Tree, slot: Slot, blocks: nat, stamp: Stamp) {
    && slot.dir in T.st.sec && slot.entry < 8 && blocks < 0x1_0000
    && Described(T, T', slot, ClosedEntry(EntryIn(T.st.sec[slot.dir], slot.entry), blocks, stamp))
  }

  /** The last sector is stored and the entry closed. */
  ghost predicate FileClosed(T: Tree, T': Tree, slot: Slot, blocks: nat, stamp: Stamp) {
    exists T1, data :: LastStored(T, T1, slot, data) && EntryClosed(T1, T', slot, blocks, stamp)
  }

  lemma ClosedBoth(T: Tree, T1: Tree, T': Tree, slot: Slot, data: Sector, blocks: nat, stamp: Stamp)
    requires LastStored(T, T1, slot, data) && EntryClosed(T1, T', slot, blocks, stamp)
    ensures FileClosed(T, T', slot, blocks, stamp) && T'.L == T.L && T1.L == T.L
  {
    hide EntryIn;
  }

  /** What closing leaves: the layout, the free sectors, all other files, and an entry with the size in blocks. */
  lemma ClosedFacts(f: Disk, T: Tree, T': Tree, slot: Slot, blocks: nat, stamp: Stamp)
    requires Sound(f, T) && Sound(f, T') && FileClosed(T, T', slot, blocks, stamp)
    ensures T'.L == T.L && T'.st.free == T.st.free && OthersKept(T, T', slot)
    ensures slot in T.L.files && slot.dir in T'.st.sec && slot.entry < 8 && slot.dir in T.st.sec && blocks < 0x1_0000
    ensures EntryIn(T'.st.sec[slot.dir], slot.entry) == ClosedEntry(EntryIn(T.st.sec[slot.dir], slot.entry), blocks, stamp)
    ensures EntryCompleted(T, T', slot, stamp)
    ensures EntryOf(T', slot)[30] as int + 256 * EntryOf(T', slot)[31] as int == blocks
  {
    hide TreeOk, OthersKept, ClosedEntry, EntryIn, EntryStored, Completed;
    var T1, data :| LastStored(T, T1, slot, data) && EntryClosed(T1, T', slot, blocks, stamp);
    var e := ClosedEntry(EntryIn(T1.st.sec[slot.dir], slot.entry), blocks, stamp);
    LastStoredKeeps(f, T, T1, slot, data);
    SlotFacts(f, T1, slot);
    SlotFacts(f, T, slot);
    EntryChanged(T1, T', slot, e);
    EntryStoredFacts(T1.st, T'.st, slot, e);
    OthersTransitive(T, T1, T', slot);
    DirNotLast(f, T, slot);
    ClosedEntryBytes(EntryIn(T.st.sec[slot.dir], slot.entry), blocks, stamp);
  }

  lemma DirNotLast(f: Disk, T: Tree, slot: Slot)
    requires Sound(f, T) && slot in T.L.files && T.L.files[slot] != []
    ensures slot.dir != T.L.files[slot][|T.L.files[slot]| - 1]
  {
    hide FileOk, DirOk;
    ChainAvoids(T.L, slot, slot.dir);
  }

  // ----- storing what is sent -----

  /** The file has got more sectors, which were free; its entry and all other files are as they were. */
  ghost predicate Grown(f: Disk, T: Tree, T': Tree, slot: Slot) {
    && slot in T.L.files && slot in T'.L.files && OthersKept(T, T', slot)
    && T.L.files[slot] <= T'.L.files[slot]
    && SpaceMoved(f, T.st.free, T'.st.free, T'.L.files[slot][|T.L.files[slot]|..])
    && EntryUnchanged(T, T', slot)
  }

  ghost predicate EntryUnchanged(T: Tree, T': Tree, slot: Slot) {
    && slot.entry < 8 && slot.dir in T.st.sec && slot.dir in T'.st.sec
    && EntryIn(T'.st.sec[slot.dir], slot.entry) == EntryIn(T.st.sec[slot.dir], slot.entry)
  }

  lemma GrownNot(f: Disk, T: Tree, slot: Slot)
    requires Sound(f, T) && slot in T.L.files
    ensures Grown(f, T, T, slot)
  {
    hide OthersKept, FileOk, DirOk;
    MapChange(T, T, slot);
    SlotFacts(f, T, slot);
    assert T.L.files[slot][|T.L.files[slot]|..] == [];
    assert T.st.free + Elements([]) == T.st.free;
  }

  lemma GrownMore(f: Disk, A: Tree, B: Tree, C: Tree, slot: Slot)
    requires Grown(f, A, B, slot) && Grown(f, B, C, slot)
    ensures Grown(f, A, C, slot)
  {
    hide OthersKept, EntryIn;
    OthersTransitive(A, B, C, slot);
    var a, b, c := A.L.files[slot], B.L.files[slot], C.L.files[slot];
    SplitElements(b[|a|..], c[|b|..]);
    assert c[|a|..] == b[|a|..] + c[|b|..];
  }

  lemma SplitElements(a: seq<TS>, b: seq<TS>)
    ensures Elements(a + b) == Elements(a) + Elements(b)
  {
  }

  lemma GrownByBlock(f: Disk, T: Tree, T': Tree, slot: Slot, ts: TS, data: Sector)
    requires Sound(f, T) && BlockAdded(T, T', slot, ts, data) && Plain(f, ts)
    ensures Grown(f, T, T', slot) && |T'.L.files[slot]| == |T.L.files[slot]| + 1
  {
    hide TreeOk, OthersKept, EntryIn, Plain, Link, SpaceMoved;
    BlockAddedKeeps(f, T, T', slot, ts, data);
    SlotFacts(f, T, slot);
    DirNotLast(f, T, slot);
    var a := T.L.files[slot];
    assert (a + [ts])[|a|..] == [ts];
  }

  lemma GrownByEnd(f: Disk, T: Tree, T': Tree, slot: Slot, data: Sector)
    requires Sound(f, T) && LastStored(T, T', slot, data)
    ensures Grown(f, T, T', slot)
  {
    hide TreeOk, OthersKept, EntryIn, SpaceMoved;
    LastStoredKeeps(f, T, T', slot, data);
    GrownNot(f, T, slot);
    SlotFacts(f, T, slot);
    DirNotLast(f, T, slot);
  }

  lemma PutHolds(T: Tree, slot: Slot, data: Sector, n: nat, bytes: seq<byte>, c: byte)
    requires Holds(T, slot, data, n, bytes) && n < 256
    ensures Holds(T, slot, data[n := c], n + 1, bytes + [c])
  {
    assert data[n := c][2..n + 1] == data[2..n] + [c];
  }

  lemma OtherData(T: Tree, slot: Slot, data: Sector, data': Sector, n: nat, bytes: seq<byte>)
    requires Holds(T, slot, data, n, bytes) && data[2..] == data'[2..]
    ensures Holds(T, slot, data', n, bytes)
  {
    assert data[2..n] == data[2..][..n - 2] && data'[2..n] == data'[2..][..n - 2];
  }

  /** The block count goes with the length of the chain. */
  ghost predicate Counts(blocks: nat, chain: seq<TS>) {
    blocks == (|chain| - 1) % 0x1_0000
  }

  /** Stores a full buffer and starts afresh; without room the file ends with it. */
  method Flush(vol: Volume, buf: FileBuffer, ghost sofar: seq<byte>) returns (err: bool)
    requires vol.Valid() && buf.Seated(vol.L) && buf.held && !buf.read && buf.lastused == 255
    requires Holds(TreeOf(vol), buf.dh, buf.data, 256, sofar)
    modifies vol, vol.drive, buf
    ensures vol.Valid() && vol.Rest() == old(vol.Rest()) && buf.dh == old(buf.dh)
    ensures Grown(vol.f, old(TreeOf(vol)), TreeOf(vol), buf.dh)
    ensures !err ==> buf.Seated(vol.L) && buf.Rewound() && Holds(TreeOf(vol), buf.dh, buf.data, 2, sofar)
    ensures !err && old(Counts(buf.blocks, vol.L.files[buf.dh])) ==> Counts(buf.blocks, vol.L.files[buf.dh])
    ensures !err ==> (buf.track as int == DirTrack(vol.f) <==> old(buf.track) as int == DirTrack(vol.f))
    ensures err ==> !buf.held && buf.track == 0
    ensures err ==> Contents(TreeOf(vol), buf.dh, sofar) && NoneLeft(vol.f, vol.St(), old(buf.track))
    ensures err ==> LastByteAt(TreeOf(vol), buf.dh, 255)
  {
    hide TreeOk, StateOf, BlockAdded, LastStored, Holds, Contents, Grown, NoneLeft, Link, Plain, LastByteAt;
    ghost var T, data := TreeOf(vol), buf.data;
    err := WriteBlock(vol, buf);
    ghost var T' := TreeOf(vol);
    if err {
      GrownByEnd(vol.f, T, T', buf.dh, buf.data);
      LastStoredHolds(vol.f, T, T', buf.dh, buf.data, data, 256, sofar);
      StillFull(vol.f, T, T', buf.dh, buf.data, old(buf.track));
      StoredByte(T, T', buf.dh, buf.data);
    } else {
      GrownByBlock(vol.f, T, T', buf.dh, TS(buf.track, buf.sector), buf.data);
      BlockAddedHolds(vol.f, T, T', buf.dh, TS(buf.track, buf.sector), buf.data, data, sofar);
      OtherData(T', buf.dh, data, buf.data, 2, sofar);
    }
  }

  /** Takes one byte, storing the buffer first if it is full. */
  method PutByte(vol: Volume, buf: FileBuffer, c: byte, ghost sofar: seq<byte>) returns (err: bool)
    requires vol.Valid() && buf.Seated(vol.L) && buf.Shaped()
    requires Holds(TreeOf(vol), buf.dh, buf.data, buf.Fill(), sofar)
    modifies vol, vol.drive, buf
    ensures vol.Valid() && vol.Rest() == old(vol.Rest()) && buf.dh == old(buf.dh)
    ensures Grown(vol.f, old(TreeOf(vol)), TreeOf(vol), buf.dh)
    ensures !err ==> buf.Seated(vol.L) && buf.Shaped() && 2 <= buf.lastused as int == buf.Fill() - 1
    ensures !err ==> Holds(TreeOf(vol), buf.dh, buf.data, buf.Fill(), sofar + [c])
    ensures !err && old(Counts(buf.blocks, vol.L.files[buf.dh])) ==> Counts(buf.blocks, vol.L.files[buf.dh])
    ensures !err ==> (buf.track as int == DirTrack(vol.f) <==> old(buf.track) as int == DirTrack(vol.f))
    ensures err ==> !buf.held && buf.track == 0
    ensures err ==> Contents(TreeOf(vol), buf.dh, sofar) && NoneLeft(vol.f, vol.St(), old(buf.track))
    ensures err ==> LastByteAt(TreeOf(vol), buf.dh, 255)
  {
    hide TreeOk, StateOf, BlockAdded, LastStored, Holds, Contents, Grown, NoneLeft, Link, Plain, LastByteAt;
    GrownNot(vol.f, TreeOf(vol), buf.dh);
    if buf.mustflush {
      err := Flush(vol, buf, sofar);
      if err {
        return;
      }
    }
    PutHolds(TreeOf(vol), buf.dh, buf.data, buf.position, sofar, c);
    buf.Put(c);
    err := false;
  }

  lemma StillFull(f: Disk, T: Tree, T': Tree, slot: Slot, data: Sector, t: nat)
    requires LastStored(T, T', slot, data) && NoneLeft(f, T.st, t)
    ensures NoneLeft(f, T'.st, t)
  {
  }

  /** For room to grow it only matters whether a file is on the directory track. */
  lemma SameRoom(f: Disk, st: State, t: nat, u: nat)
    requires t == DirTrack(f) <==> u == DirTrack(f)
    ensures NoneLeft(f, st, t) <==> NoneLeft(f, st, u)
  {
  }

  /**
   Stores the bytes sent for an open file one after the other. If the disk fills up, the file is ended
   with what was accepted until then.
   */
  method Listen(vol: Volume, buf: FileBuffer, bytes: seq<byte>, ghost sofar: seq<byte>) returns (err: bool, accepted: nat)
    requires vol.Valid() && buf.Seated(vol.L) && buf.Shaped()
    requires Holds(TreeOf(vol), buf.dh, buf.data, buf.Fill(), sofar)
    modifies vol, vol.drive, buf
    ensures vol.Valid() && vol.Rest() == old(vol.Rest()) && buf.dh == old(buf.dh)
    ensures Grown(vol.f, old(TreeOf(vol)), TreeOf(vol), buf.dh)
    ensures accepted <= |bytes| && (err <==> accepted < |bytes|)
    ensures !err ==> buf.Seated(vol.L) && buf.Shaped()
    ensures !err ==> Holds(TreeOf(vol), buf.dh, buf.data, buf.Fill(), sofar + bytes)
    ensures !err ==> if bytes == [] then buf.lastused == old(buf.lastused) && buf.data == old(buf.data) && buf.Fill() == old(buf.Fill())
                     else 2 <= buf.lastused as int == buf.Fill() - 1
    ensures !err && old(Counts(buf.blocks, vol.L.files[buf.dh])) ==> Counts(buf.blocks, vol.L.files[buf.dh])
    ensures err ==> Contents(TreeOf(vol), buf.dh, sofar + bytes[..accepted]) && NoneLeft(vol.f, vol.St(), old(buf.track))
    ensures err ==> LastByteAt(TreeOf(vol), buf.dh, 255) && !buf.held
  {
    hide TreeOk, StateOf, Holds, Contents, Grown, NoneLeft, Counts, LastByteAt;
    ghost var T := TreeOf(vol);
    GrownNot(vol.f, T, buf.dh);
    assert sofar + bytes[..0] == sofar;
    accepted := 0;
    while accepted < |bytes|
      invariant 0 <= accepted <= |bytes|
      invariant vol.Valid() && vol.Rest() == old(vol.Rest()) && buf.dh == old(buf.dh)
      invariant buf.Seated(vol.L) && buf.Shaped()
      invariant buf.track as int == DirTrack(vol.f) <==> old(buf.track) as int == DirTrack(vol.f)
      invariant Grown(vol.f, T, TreeOf(vol), buf.dh)
      invariant Holds(TreeOf(vol), buf.dh, buf.data, buf.Fill(), sofar + bytes[..accepted])
      invariant if accepted == 0 then buf.lastused == old(buf.lastused) && buf.data == old(buf.data) && buf.Fill() == old(buf.Fill())
                else 2 <= buf.lastused as int == buf.Fill() - 1
      invariant old(Counts(buf.blocks, vol.L.files[buf.dh])) ==> Counts(buf.blocks, vol.L.files[buf.dh])
    {
      ghost var T1, t := TreeOf(vol), buf.track;
      err := PutByte(vol, buf, bytes[accepted], sofar + bytes[..accepted]);
      GrownMore(vol.f, T, T1, TreeOf(vol), buf.dh);
      if err {
        SameRoom(vol.f, vol.St(), t, old(buf.track));
        return;
      }
      assert sofar + bytes[..accepted + 1] == sofar + bytes[..accepted] + [bytes[accepted]];
      accepted := accepted + 1;
    }
    assert sofar + bytes[..accepted] == sofar + bytes;
    err := false;
  }
}