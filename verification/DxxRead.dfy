/** Reading files block by block, reopening them for appending, and deleting them. */
module DxxRead {
  import opened Bits
  import opened Common
  import opened DxxGeometry
  import opened DxxBam
  import opened DxxAlloc
  import opened DxxState
  import opened DxxLayout
  import opened DxxFrames
  import opened DxxVolume
  import opened DxxFiles
  import opened DxxWrite

  /** The buffer holds sector number `i` of the chain, and knows whether it is the last one. */
  ghost predicate AtBlock(sec: map<TS, Sector>, chain: seq<TS>, i: nat, data: Sector, lastused: byte, sendeoi: bool) {
    && i < |chain| && chain[i] in sec && data == sec[chain[i]]
    && sendeoi == (i == |chain| - 1)
    && lastused == (if i == |chain| - 1 then data[1] else 255)
    && (if i == |chain| - 1 then data[0] == 0 else Link(data) == chain[i + 1] && data[0] != 0)
  }

  /** What following an ended chain finds at each of its sectors. */
  lemma BlockFacts(f: Disk, T: Tree, slot: Slot, i: nat)
    requires Sound(f, T) && slot in T.L.files && Ended(T.st.sec, T.L.files[slot]) && i < |T.L.files[slot]|
    ensures var chain := T.L.files[slot];
      && chain[i] in T.st.sec && OnDisk(f, chain[i])
      && AtBlock(T.st.sec, chain, i, T.st.sec[chain[i]], if i == |chain| - 1 then T.st.sec[chain[i]][1] else 255, i == |chain| - 1)
  {
    hide EntryIn, DirOk;
    var chain := T.L.files[slot];
    assert FileOk(f, T.st, slot, chain);
    if i < |chain| - 1 {
      assert Plain(f, chain[i + 1]) && Link(T.st.sec[chain[i]]) == chain[i + 1];
    }
  }

  /** Follows the link in the buffer: the next sector is read into it. */
  method ReadBlock(vol: Volume, buf: FileBuffer) returns (err: bool)
    requires vol.Mounted()
    modifies buf
    ensures err <==> !ValidSector(vol.f, old(buf.data[0]), old(buf.data[1]))
    ensures buf.track == old(buf.data[0]) && buf.sector == old(buf.data[1]) && buf.read == old(buf.read)
    ensures buf.dh == old(buf.dh) && buf.blocks == old(buf.blocks) && buf.held == (old(buf.held) && !err)
    ensures !err ==> buf.position == 2 && buf.mustflush == old(buf.mustflush)
    ensures !err ==> buf.sendeoi == (buf.data[0] == 0) && buf.lastused == (if buf.data[0] == 0 then buf.data[1] else 255)
    ensures !err && TS(old(buf.data[0]), old(buf.data[1])) in vol.St().sec ==>
      buf.data == vol.St().sec[TS(old(buf.data[0]), old(buf.data[1]))]
  {
    hide StateOf;
    buf.track, buf.sector := buf.data[0], buf.data[1];
    var ok, data := vol.CheckedRead(buf.data[0], buf.data[1]);
    if !ok {
      buf.held := false;
      return true;
    }
    buf.data, buf.position := data, 2;
    if data[0] == 0 {
      buf.lastused, buf.sendeoi := data[1], true;
    } else {
      buf.lastused, buf.sendeoi := 255, false;
    }
    err := false;
  }

  /** The file is open for reading, and its sector number `i` is still to be sent. */
  ghost predicate Reading(T: Tree, slot: Slot, i: nat, buf: FileBuffer)
    reads buf
  {
    buf.position == 2 && Standing(T, slot, i, buf)
  }

  /** The file is open for reading and stands at its sector number `i`. */
  ghost predicate Standing(T: Tree, slot: Slot, i: nat, buf: FileBuffer)
    reads buf
  {
    && buf.read && buf.held && slot in T.L.files
    && AtBlock(T.st.sec, T.L.files[slot], i, buf.data, buf.lastused, buf.sendeoi)
    && TS(buf.track, buf.sector) == T.L.files[slot][i]
  }

  /** Opens a file for reading: its first sector is read. */
  method OpenRead(vol: Volume, slot: Slot, buf: FileBuffer) returns (err: bool)
    requires vol.Valid() && slot in vol.L.files && Ended(vol.St().sec, vol.L.files[slot]) && buf.held
    modifies buf
    ensures !err && Reading(TreeOf(vol), slot, 0, buf)
    ensures buf.blocks == old(buf.blocks) && buf.mustflush == old(buf.mustflush)
  {
    hide TreeOk, StateOf, AtBlock, EntryIn, Ended;
    ghost var T := TreeOf(vol);
    SlotFacts(vol.f, T, slot);
    FirstSector(vol.f, T, slot);
    BlockFacts(vol.f, T, slot, 0);
    var ok, sec := vol.CheckedRead(slot.dir.track, slot.dir.sector);
    var e := EntryIn(sec, slot.entry);
    buf.data := [e[OFS_TRACK], e[OFS_SECTOR]] + buf.data[2..];
    buf.read := true;
    err := ReadBlock(vol, buf);
    BlockThere(T.st.sec, T.L.files[slot], 0, buf.data, buf.lastused, buf.sendeoi);
  }

  lemma FirstSector(f: Disk, T: Tree, slot: Slot)
    requires Sound(f, T) && slot in T.L.files && slot.dir in T.st.sec && slot.entry < 8 && T.L.files[slot] != []
    ensures var e := EntryIn(T.st.sec[slot.dir], slot.entry); TS(e[OFS_TRACK], e[OFS_SECTOR]) == T.L.files[slot][0]
  {
    hide EntryIn, Linked, Inside;
    assert FileOk(f, T.st, slot, T.L.files[slot]);
  }

  /** A buffer filled from a sector of the chain stands at it. */
  lemma BlockThere(sec: map<TS, Sector>, chain: seq<TS>, i: nat, data: Sector, lastused: byte, sendeoi: bool)
    requires i < |chain| && chain[i] in sec && data == sec[chain[i]]
    requires AtBlock(sec, chain, i, data, if i == |chain| - 1 then data[1] else 255, i == |chain| - 1)
    requires sendeoi == (data[0] == 0) && lastused == (if data[0] == 0 then data[1] else 255)
    ensures AtBlock(sec, chain, i, data, lastused, sendeoi)
  {
  }

  /** Reads the sector after the one the buffer stands at. */
  method NextBlock(vol: Volume, buf: FileBuffer, ghost slot: Slot, ghost i: nat) returns (err: bool)
    requires vol.Valid() && slot in vol.L.files && Ended(vol.St().sec, vol.L.files[slot])
    requires Standing(TreeOf(vol), slot, i, buf) && i < |vol.L.files[slot]| - 1
    modifies buf
    ensures !err && Reading(TreeOf(vol), slot, i + 1, buf)
    ensures buf.blocks == old(buf.blocks) && buf.mustflush == old(buf.mustflush)
  {
    hide TreeOk, StateOf, EntryIn, Ended;
    ghost var T := TreeOf(vol);
    BlockFacts(vol.f, T, slot, i + 1);
    err := ReadBlock(vol, buf);
  }

  // ----- sending a file -----

  /** The bytes sent from a buffer: from its position to the last one in use, and at least one. */
  function FromBuffer(data: Sector, position: byte, lastused: byte): seq<byte> {
    data[position..(if lastused < position then position else lastused) as int + 1]
  }

  /** Sends what is left in the buffer. */
  method SendBuffer(buf: FileBuffer) returns (out: seq<byte>)
    modifies buf`position
    ensures out == FromBuffer(buf.data, old(buf.position), buf.lastused)
  {
    out := [];
    ghost var p := buf.position;
    var more := true;
    while more
      invariant buf.data == old(buf.data) && buf.lastused == old(buf.lastused)
      invariant if more then (p <= buf.position && (buf.position > p ==> buf.position <= buf.lastused) && out == buf.data[p..buf.position])
                else out == FromBuffer(buf.data, p, buf.lastused)
      decreases more, 256 - buf.position
    {
      out := out + [buf.data[buf.position]];
      more := buf.position < buf.lastused;
      buf.position := (buf.position + 1) % 256;
    }
  }

  /** What a listener gets of a file: all of it, except that an ended file always has at least one byte in its last sector. */
  ghost function Sent(sec: map<TS, Sector>, chain: seq<TS>): seq<byte>
    requires Inside(sec, chain) && chain != []
  {
    var last := sec[chain[|chain| - 1]];
    Body(sec, chain[..|chain| - 1]) + FromBuffer(last, 2, last[1])
  }

  /** A listener gets exactly the contents, unless the last sector claims to have none. */
  lemma SentIsContents(sec: map<TS, Sector>, chain: seq<TS>)
    requires Inside(sec, chain) && chain != []
    ensures Sent(sec, chain) == FileBytes(sec, chain) <==> sec[chain[|chain| - 1]][1] >= 2
  {
    var last := sec[chain[|chain| - 1]];
    var front := Body(sec, chain[..|chain| - 1]);
    assert |Sent(sec, chain)| == |front| + |FromBuffer(last, 2, last[1])|;
    assert |FileBytes(sec, chain)| == |front| + (if last[1] >= 1 then last[1] - 1 else 0);
  }

  /** A file whose only sector names byte 0 or byte 1 as its last: it has no bytes, and one is sent. */
  lemma EmptyLastSector(ts: TS, last: byte, b: byte)
    requires last < 2
    ensures var sec := map[ts := [0, last, b] + ZeroBytes(253)];
      && Inside(sec, [ts]) && Ended(sec, [ts])
      && FileBytes(sec, [ts]) == [] && Sent(sec, [ts]) == [b]
  {
    var data: Sector := [0, last, b] + ZeroBytes(253);
    assert data[2..3] == [b];
    assert [ts][..0] == [];
  }

  lemma SentMore(f: Disk, T: Tree, slot: Slot, i: nat, data: Sector, lastused: byte, sendeoi: bool)
    requires Sound(f, T) && slot in T.L.files && AtBlock(T.st.sec, T.L.files[slot], i, data, lastused, sendeoi)
    ensures var chain := T.L.files[slot];
      && Inside(T.st.sec, chain) && Inside(T.st.sec, chain[..i])
      && (i < |chain| - 1 ==> Inside(T.st.sec, chain[..i + 1])
                              && Body(T.st.sec, chain[..i + 1]) == Body(T.st.sec, chain[..i]) + FromBuffer(data, 2, lastused))
      && (i == |chain| - 1 ==> Sent(T.st.sec, chain) == Body(T.st.sec, chain[..i]) + FromBuffer(data, 2, lastused))
  {
    hide TreeOk, FileOk, Link;
    SlotFacts(f, T, slot);
    var chain := T.L.files[slot];
    if i < |chain| - 1 {
      BodyAppend(T.st.sec, chain[..i], chain[i]);
      assert chain[..i + 1] == chain[..i] + [chain[i]];
      assert data[2..256] == data[2..];
    }
  }

  /** `out` is what the first `i` sectors of the file hold. */
  ghost predicate SentBefore(T: Tree, slot: Slot, i: nat, out: seq<byte>) {
    && slot in T.L.files && i < |T.L.files[slot]|
    && Inside(T.st.sec, T.L.files[slot][..i]) && out == Body(T.st.sec, T.L.files[slot][..i])
  }

  /** Sends a file that has just been opened, sector after sector. */
  method Talk(vol: Volume, buf: FileBuffer, ghost slot: Slot) returns (err: bool, out: seq<byte>)
    requires vol.Valid() && slot in vol.L.files && Ended(vol.St().sec, vol.L.files[slot])
    requires Reading(TreeOf(vol), slot, 0, buf)
    modifies buf
    ensures !err && !buf.read && Inside(vol.St().sec, vol.L.files[slot]) && out == Sent(vol.St().sec, vol.L.files[slot])
  {
    hide TreeOk, StateOf, EntryIn, Ended, Inside, Sent, FromBuffer, AtBlock;
    ghost var i: nat, T := 0, TreeOf(vol);
    SentMore(vol.f, T, slot, 0, buf.data, buf.lastused, buf.sendeoi);
    LastKnown(T.st.sec, T.L.files[slot], 0, buf.data, buf.lastused, buf.sendeoi);
    out, err := [], false;
    while buf.read
      invariant buf.read ==> Reading(T, slot, i, buf) && SentBefore(T, slot, i, out)
      invariant !buf.read ==> out == Sent(T.st.sec, T.L.files[slot])
      modifies buf
      decreases if buf.read then |T.L.files[slot]| - i else 0
    {
      SentMore(vol.f, T, slot, i, buf.data, buf.lastused, buf.sendeoi);
      LastKnown(T.st.sec, T.L.files[slot], i, buf.data, buf.lastused, buf.sendeoi);
      var part := SendBuffer(buf);
      out := out + part;
      if buf.sendeoi {
        buf.read := false;
        break;
      }
      err := NextBlock(vol, buf, slot, i);
      i := i + 1;
      LastKnown(T.st.sec, T.L.files[slot], i, buf.data, buf.lastused, buf.sendeoi);
    }
  }

  lemma LastKnown(sec: map<TS, Sector>, chain: seq<TS>, i: nat, data: Sector, lastused: byte, sendeoi: bool)
    requires AtBlock(sec, chain, i, data, lastused, sendeoi)
    ensures i < |chain| && (sendeoi <==> i == |chain| - 1) && (sendeoi <==> data[0] == 0)
      && (sendeoi ==> lastused == data[1])
    ensures chain[i] in sec && data == sec[chain[i]]
  {
  }

  // ----- appending -----

  /** The number of blocks in a directory entry. */
  function SizeOf(e: Entry): nat { e[OFS_SIZE_LOW] as int + 256 * e[OFS_SIZE_HI] as int }

  /** The entry with a new time. */
  function TouchedEntry(e: Entry, stamp: Stamp): Entry { e[..25] + stamp + e[30..] }

  lemma TouchedEntryBytes(e: Entry, stamp: Stamp)
    ensures var r := TouchedEntry(e, stamp);
      && r[0] == e[0] && r[1] == e[1] && r[OFS_TYPE] == e[OFS_TYPE] && r[OFS_TRACK] == e[OFS_TRACK]
      && r[OFS_SECTOR] == e[OFS_SECTOR]
      && SizeOf(r) == SizeOf(e) && Retimed(e, r, stamp)
  {
  }

  /** The entry of the file has a new time, and nothing else changed. */
  ghost predicate EntryTouched(T: Tree, T': Tree, slot: Slot, stamp: Stamp) {
    && slot.dir in T.st.sec && slot.entry < 8
    && Described(T, T', slot, TouchedEntry(EntryIn(T.st.sec[slot.dir], slot.entry), stamp))
  }

  /** Reads a file up to its last sector. */
  method ReadToLast(vol: Volume, slot: Slot, buf: FileBuffer)
    requires vol.Valid() && slot in vol.L.files && Ended(vol.St().sec, vol.L.files[slot]) && buf.held
    modifies buf
    ensures Standing(TreeOf(vol), slot, |vol.L.files[slot]| - 1, buf)
    ensures buf.blocks == old(buf.blocks)
  {
    hide TreeOk, StateOf, EntryIn, Ended, AtBlock;
    ghost var T, i: nat := TreeOf(vol), 0;
    var err := OpenRead(vol, slot, buf);
    LastKnown(T.st.sec, T.L.files[slot], i, buf.data, buf.lastused, buf.sendeoi);
    while buf.data[0] != 0
      invariant i < |T.L.files[slot]| && Standing(T, slot, i, buf) && buf.blocks == old(buf.blocks)
      invariant buf.data[0] == 0 <==> i == |T.L.files[slot]| - 1
      modifies buf
      decreases |T.L.files[slot]| - i
    {
      err := NextBlock(vol, buf, slot, i);
      i := i + 1;
      LastKnown(T.st.sec, T.L.files[slot], i, buf.data, buf.lastused, buf.sendeoi);
    }
  }

  /** Turns a buffer that stands at the last sector of a file into one that continues the file. */
  method ToWriter(buf: FileBuffer, slot: Slot, size: nat)
    modifies buf
    ensures buf.dh == slot && buf.blocks == (size - 1) % 0x1_0000 && !buf.read && buf.held == old(buf.held)
    ensures buf.data == old(buf.data) && buf.lastused == old(buf.lastused)
    ensures buf.track == old(buf.track) && buf.sector == old(buf.sector)
    ensures buf.Fill() == buf.lastused as int + 1 && (buf.mustflush <==> buf.position == 0)
  {
    buf.dh, buf.blocks, buf.read := slot, (size - 1) % 0x1_0000, false;
    buf.position := (buf.lastused + 1) % 256;
    buf.mustflush := buf.position == 0;
  }

  /** Opens an ended file for appending. If its last sector names byte 0, the position is that of the name itself. */
  method Append(vol: Volume, slot: Slot, stamp: Stamp, buf: FileBuffer)
    requires vol.Valid() && slot in vol.L.files && Ended(vol.St().sec, vol.L.files[slot]) && buf.held
    modifies vol.drive, buf
    ensures vol.Valid() && vol.Rest() == old(vol.Rest()) && buf.dh == slot && buf.Seated(vol.L)
    ensures EntryTouched(old(TreeOf(vol)), TreeOf(vol), slot, stamp) && LastByteAt(old(TreeOf(vol)), slot, buf.lastused)
    ensures buf.Fill() == buf.lastused as int + 1 && !buf.read && (buf.mustflush <==> buf.position == 0)
    ensures var chain := old(vol.L.files[slot]);
      chain != [] && chain[|chain| - 1] in old(vol.St()).sec && buf.data == old(vol.St()).sec[chain[|chain| - 1]]
    ensures buf.lastused >= 1 ==> (
      && buf.Shaped() && Inside(old(vol.St()).sec, old(vol.L.files[slot]))
      && Holds(TreeOf(vol), slot, buf.data, buf.Fill(), FileBytes(old(vol.St()).sec, old(vol.L.files[slot]))))
    ensures buf.lastused == 0 ==> (
      && buf.held && buf.position == 1 && Inside(old(vol.St()).sec, old(vol.L.files[slot]))
      && Holds(TreeOf(vol), slot, buf.data, 2, FileBytes(old(vol.St()).sec, old(vol.L.files[slot]))))
    ensures SizeRight(old(TreeOf(vol)), slot) ==> Counts(buf.blocks, vol.L.files[slot])
    ensures HasEntry(old(TreeOf(vol)), slot) && HasEntry(TreeOf(vol), slot)
      && Retimed(EntryOf(old(TreeOf(vol)), slot), EntryOf(TreeOf(vol), slot), stamp)
  {
    hide TreeOk, StateOf, EntryIn, Ended, AtBlock, EntryStored, Holds, Counts, FileBytes, TouchedEntry, Retimed;
    ghost var T := TreeOf(vol);
    SlotFacts(vol.f, T, slot);
    SeatFacts(vol.f, T, slot);
    ReadToLast(vol, slot, buf);
    ghost var n := |T.L.files[slot]| - 1;
    LastKnown(T.st.sec, T.L.files[slot], n, buf.data, buf.lastused, buf.sendeoi);
    var ok, sec := vol.CheckedRead(slot.dir.track, slot.dir.sector);
    var e := EntryIn(sec, slot.entry);
    ToWriter(buf, slot, SizeOf(e));
    CountsRight(T, slot, SizeOf(e), buf.blocks);
    Touch(vol, slot, e, stamp);
    ReopenedHolds(T, TreeOf(vol), slot, buf.data);
  }

  /** The directory entry has the right number of blocks. */
  ghost predicate SizeRight(T: Tree, slot: Slot) {
    && slot in T.L.files && slot.dir in T.st.sec && slot.entry < 8
    && SizeOf(EntryIn(T.st.sec[slot.dir], slot.entry)) == |T.L.files[slot]| % 0x1_0000
  }

  lemma CountsRight(T: Tree, slot: Slot, size: nat, blocks: nat)
    requires slot in T.L.files && slot.dir in T.st.sec && slot.entry < 8
    requires size == SizeOf(EntryIn(T.st.sec[slot.dir], slot.entry)) && blocks == (size - 1) % 0x1_0000
    ensures SizeRight(T, slot) ==> Counts(blocks, T.L.files[slot])
  {
    hide EntryIn, SizeOf;
  }

  /** Writes the entry of a file back with a new time. */
  method Touch(vol: Volume, slot: Slot, e: Entry, stamp: Stamp)
    requires vol.Valid() && slot in vol.L.files && slot.dir in vol.St().sec && slot.entry < 8
    requires e == EntryIn(vol.St().sec[slot.dir], slot.entry)
    modifies vol.drive
    ensures vol.Valid() && vol.Rest() == old(vol.Rest())
    ensures EntryTouched(old(TreeOf(vol)), TreeOf(vol), slot, stamp)
    ensures HasEntry(TreeOf(vol), slot) && Retimed(e, EntryOf(TreeOf(vol), slot), stamp)
    ensures Unaltered(old(vol.St()).sec, vol.St().sec, vol.L.files[slot])
  {
    hide TreeOk, StateOf, EntryIn, EntryStored, TouchedEntry, Unaltered, OthersKept, Retimed;
    ghost var T := TreeOf(vol);
    UsedEntry(vol.f, T, slot);
    TouchedEntryBytes(e, stamp);
    vol.ImageWrite(slot.dir.track, slot.dir.sector, 32 * slot.entry, TouchedEntry(e, stamp));
    PatchIsEntry(T.st, vol.St(), slot, TouchedEntry(e, stamp));
    assert Described(T, TreeOf(vol), slot, TouchedEntry(e, stamp));
    EntryStoredFacts(T.st, vol.St(), slot, TouchedEntry(e, stamp));
    DescribedKeeps(vol.f, T, TreeOf(vol), slot, TouchedEntry(e, stamp));
  }

  lemma UsedEntry(f: Disk, T: Tree, slot: Slot)
    requires Sound(f, T) && slot in T.L.files && slot.dir in T.st.sec && slot.entry < 8
    ensures EntryIn(T.st.sec[slot.dir], slot.entry)[OFS_TYPE] != 0
  {
    hide EntryIn, Linked, Inside;
    assert FileOk(f, T.st, slot, T.L.files[slot]);
  }

  /** What a reopened file holds is what it held when it was closed. */
  lemma ReopenedHolds(T: Tree, T': Tree, slot: Slot, data: Sector)
    requires slot in T.L.files && T.L.files[slot] != [] && T'.L == T.L
      && Unaltered(T.st.sec, T'.st.sec, T.L.files[slot])
    requires data == T.st.sec[T.L.files[slot][|T.L.files[slot]| - 1]]
    ensures Inside(T.st.sec, T.L.files[slot])
    ensures Holds(T', slot, data, EndOf(data[1]), FileBytes(T.st.sec, T.L.files[slot]))
  {
    SameBytes(T.st.sec, T'.st.sec, T.L.files[slot]);
  }

  // ----- deleting -----

  /** Deletes a closed file: its sectors become free, and its entry unused. */
  method Delete(vol: Volume, slot: Slot) returns (deleted: bool)
    requires vol.Valid() && slot in vol.L.files && Ended(vol.St().sec, vol.L.files[slot])
    modifies vol, vol.drive
    ensures deleted && vol.Valid() && vol.Rest() == old(vol.Rest())
    ensures slot !in vol.L.files && OthersKept(old(TreeOf(vol)), TreeOf(vol), slot)
    ensures vol.St().free == old(vol.St().free) + Elements(old(vol.L.files[slot]))
    ensures slot.entry < 8 && slot.dir in old(vol.St()).sec && slot.dir in vol.St().sec
    ensures EntryIn(vol.St().sec[slot.dir], slot.entry) == UnusedEntry(EntryIn(old(vol.St()).sec[slot.dir], slot.entry))
    ensures EntryIn(vol.St().sec[slot.dir], slot.entry) == EntryIn(old(vol.St()).sec[slot.dir], slot.entry)[2 := 0]
  {
    hide TreeOk, StateOf, EntryIn, Ended, OthersKept, UnusedEntry;
    ghost var T := TreeOf(vol);
    SlotFacts(vol.f, T, slot);
    var ok, sec := vol.CheckedRead(slot.dir.track, slot.dir.sector);
    var e := EntryIn(sec, slot.entry);
    FirstSector(vol.f, T, slot);
    deleted := FreeChain(vol, slot, e[OFS_TRACK], e[OFS_SECTOR]);
    var cleared := UnusedEntry(e);
    vol.ImageWrite(slot.dir.track, slot.dir.sector, 32 * slot.entry, cleared);
    Removed(vol.f, T, vol.St(), slot, cleared);
    vol.L := WithoutFile(vol.L, slot);
  }

  /** The entry of a deleted file: only the type says so. */
  function UnusedEntry(e: Entry): (r: Entry)
    ensures r == e[2 := 0]
  {
    e[..2] + [0] + e[3..]
  }

  /** Marks the sectors of a file as free, following its links. */
  method FreeChain(vol: Volume, ghost slot: Slot, t0: byte, s0: byte) returns (ok: bool)
    requires vol.Valid() && slot in vol.L.files && Ended(vol.St().sec, vol.L.files[slot])
    requires vol.L.files[slot] != [] && vol.L.files[slot][0] == TS(t0, s0)
    modifies vol.drive
    ensures ok && vol.Mounted() && vol.Rest() == old(vol.Rest())
    ensures vol.St() == State(old(vol.St()).sec, old(vol.St()).free + Elements(vol.L.files[slot]))
  {
    hide TreeOk, StateOf, EntryIn, Ended, Elements, AtBlock;
    ghost var T, i: nat := TreeOf(vol), 0;
    ghost var chain := T.L.files[slot];
    var t, s := t0, s0;
    NoElements(T.st.free, chain);
    while true
      invariant vol.Mounted() && vol.Rest() == old(vol.Rest())
      invariant i < |chain| && chain[i] == TS(t, s)
      invariant vol.St() == State(T.st.sec, T.st.free + Elements(chain[..i]))
      decreases |chain| - i
    {
      BlockFacts(vol.f, T, slot, i);
      OneElement(T.st.free, chain, i);
      vol.Release(t, s);
      var link;
      ok, link := vol.CheckedRead(t, s);
      LastKnown(T.st.sec, chain, i, link, if i == |chain| - 1 then link[1] else 255, i == |chain| - 1);
      LinkKnown(T.st.sec, chain, i, link, if i == |chain| - 1 then link[1] else 255, i == |chain| - 1);
      if link[0] == 0 {
        assert chain[..i + 1] == chain;
        break;
      }
      t, s, i := link[0], link[1], i + 1;
    }
  }

  lemma LinkKnown(sec: map<TS, Sector>, chain: seq<TS>, i: nat, data: Sector, lastused: byte, sendeoi: bool)
    requires AtBlock(sec, chain, i, data, lastused, sendeoi)
    ensures i < |chain| - 1 ==> chain[i + 1] == TS(data[0], data[1])
  {
  }

  lemma NoElements(free: set<TS>, chain: seq<TS>)
    ensures free + Elements(chain[..0]) == free
  {
  }

  lemma OneElement(free: set<TS>, chain: seq<TS>, i: nat)
    requires i < |chain|
    ensures free + Elements(chain[..i]) + {chain[i]} == free + Elements(chain[..i + 1])
  {
    assert chain[..i + 1] == chain[..i] + [chain[i]];
  }

  lemma Removed(f: Disk, T: Tree, st': State, slot: Slot, e: Entry)
    requires Sound(f, T) && slot in T.L.files && slot.dir in T.st.sec && slot.entry < 8
    requires e[0] == EntryIn(T.st.sec[slot.dir], slot.entry)[0] && e[1] == EntryIn(T.st.sec[slot.dir], slot.entry)[1]
    requires st' == Stored(State(T.st.sec, T.st.free + Elements(T.L.files[slot])), slot.dir, Patch(T.st.sec[slot.dir], 32 * slot.entry, e))
    ensures var T' := Tree(st', WithoutFile(T.L, slot));
      && Sound(f, T') && OthersKept(T, T', slot) && slot !in T'.L.files
      && slot.dir in st'.sec && EntryIn(st'.sec[slot.dir], slot.entry) == e
  {
    hide TreeOk, OthersKept, EntryIn, EntryStored;
    var A := Tree(State(T.st.sec, T.st.free + Elements(T.L.files[slot])), T.L);
    var B := Tree(st', T.L);
    SlotFacts(f, T, slot);
    PatchIsEntry(A.st, st', slot, e);
    EntryStoredFacts(A.st, st', slot, e);
    DeleteKeeps(f, T.st, st', T.L, slot, e);
    MapChange(T, A, slot);
    EntryChanged(A, B, slot, e);
    FileDropped(B, slot);
    OthersTransitive(T, A, B, slot);
    OthersTransitive(T, B, Tree(st', WithoutFile(T.L, slot)), slot);
  }
}
