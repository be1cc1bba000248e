/**
 Who owns the sectors of a disk image: the directory chain and the chains of the files. A sound image
 has every owned sector in exactly one place and none of them free.
 */
module DxxLayout {
  import opened Bits
  import opened DxxGeometry
  import opened DxxBam
  import opened DxxState

  /** A directory entry: a directory sector and one of its eight entries. */
  datatype Slot = Slot(dir: TS, entry: nat)

  datatype Place = DirPlace(index: nat) | FilePlace(slot: Slot, index: nat)

  /** The directory chain, the sector chain of each file, and for each owned sector its only place. */
  datatype Layout = Layout(dir: seq<TS>, files: map<Slot, seq<TS>>, owner: map<TS, Place>)

  // ----- directory entries -----

  const ENTRY_SIZE := 32
  const OFS_TYPE := 2
  const OFS_TRACK := 3
  const OFS_SECTOR := 4
  const OFS_SIZE_LOW := 0x1e
  const OFS_SIZE_HI := 0x1f

  type Entry = e: seq<byte> | |e| == 32 witness seq(32, _ => 0)

  function EntryIn(sec: Sector, i: nat): Entry
    requires i < 8
  {
    sec[32 * i..32 * i + 32]
  }

  function WithEntry(sec: Sector, i: nat, e: Entry): (r: Sector)
    requires i < 8
  {
    sec[..32 * i] + e + sec[32 * i + 32..]
  }

  function Link(sec: Sector): TS { TS(sec[0], sec[1]) }

  lemma EntryWritten(sec: Sector, i: nat, e: Entry)
    requires i < 8
    ensures EntryIn(WithEntry(sec, i, e), i) == e
    ensures forall j :: 0 <= j < 8 && j != i ==> EntryIn(WithEntry(sec, i, e), j) == EntryIn(sec, j)
    ensures e[0] == EntryIn(sec, i)[0] && e[1] == EntryIn(sec, i)[1] ==> Link(WithEntry(sec, i, e)) == Link(sec)
  {
    var r := WithEntry(sec, i, e);
    forall j | 0 <= j < 8 && j != i
      ensures EntryIn(r, j) == EntryIn(sec, j)
    {
      assert forall k :: 0 <= k < 32 ==> EntryIn(r, j)[k] == sec[32 * j + k];
    }
  }

  // ----- chains -----

  /** Each sector of the chain but the last links to the next one. */
  ghost predicate Linked(sec: map<TS, Sector>, chain: seq<TS>) {
    forall k {:trigger chain[k]} :: 0 <= k < |chain| - 1 ==> chain[k] in sec && Link(sec[chain[k]]) == chain[k + 1]
  }

  /** The last sector of the chain says that it is the last one. */
  ghost predicate Ended(sec: map<TS, Sector>, chain: seq<TS>) {
    chain != [] && chain[|chain| - 1] in sec && sec[chain[|chain| - 1]][0] == 0
  }

  ghost predicate Inside(sec: map<TS, Sector>, chain: seq<TS>) {
    forall k :: 0 <= k < |chain| ==> chain[k] in sec
  }

  /** The data bytes of all the given sectors, 254 from each. */
  ghost function Body(sec: map<TS, Sector>, chain: seq<TS>): seq<byte>
    requires Inside(sec, chain)
  {
    if chain == [] then [] else Body(sec, chain[..|chain| - 1]) + sec[chain[|chain| - 1]][2..]
  }

  /** The bytes of an ended file: whole sectors, and the last one up to the byte it names. */
  ghost function FileBytes(sec: map<TS, Sector>, chain: seq<TS>): seq<byte>
    requires Inside(sec, chain) && chain != []
  {
    var last := sec[chain[|chain| - 1]];
    Body(sec, chain[..|chain| - 1]) + (if last[1] >= 1 then last[2..last[1] as int + 1] else [])
  }

  lemma {:induction false} BodyFrame(sec: map<TS, Sector>, sec': map<TS, Sector>, chain: seq<TS>)
    requires Inside(sec, chain)
    requires forall k :: 0 <= k < |chain| ==> chain[k] in sec' && sec'[chain[k]] == sec[chain[k]]
    ensures Inside(sec', chain) && Body(sec', chain) == Body(sec, chain)
  {
    if chain != [] {
      BodyFrame(sec, sec', chain[..|chain| - 1]);
    }
  }

  lemma BodyAppend(sec: map<TS, Sector>, chain: seq<TS>, ts: TS)
    requires Inside(sec, chain) && ts in sec
    ensures Inside(sec, chain + [ts]) && Body(sec, chain + [ts]) == Body(sec, chain) + sec[ts][2..]
  {
    assert (chain + [ts])[..|chain|] == chain;
  }

  // ----- sound images -----

  ghost predicate DirOwned(L: Layout) {
    forall i :: 0 <= i < |L.dir| ==> L.dir[i] in L.owner && L.owner[L.dir[i]] == DirPlace(i)
  }

  ghost predicate FilesOwned(L: Layout) {
    forall slot, k :: slot in L.files && 0 <= k < |L.files[slot]| ==>
      L.files[slot][k] in L.owner && L.owner[L.files[slot][k]] == FilePlace(slot, k)
  }

  ghost predicate OwnersReal(L: Layout) {
    forall ts :: ts in L.owner ==>
      match L.owner[ts]
      case DirPlace(i) => i < |L.dir| && L.dir[i] == ts
      case FilePlace(slot, k) => slot in L.files && k < |L.files[slot]| && L.files[slot][k] == ts
  }

  /** Owned sectors are ordinary and not free; map sectors are not free either. */
  ghost predicate Reserved(st: State, L: Layout) {
    && (forall ts :: ts in st.free ==> ts in st.sec)
    && (forall ts :: ts in L.owner ==> ts in st.sec && ts !in st.free)
  }

  /** The directory is one ended chain on its own track, starting where the format says. */
  ghost predicate DirOk(f: Disk, st: State, L: Layout) {
    && L.dir != [] && L.dir[0] == TS(DirTrack(f), if f == D81 then 3 else 1)
    && (forall i :: 0 <= i < |L.dir| ==> OnDisk(f, L.dir[i]) && L.dir[i].track == DirTrack(f))
    && Inside(st.sec, L.dir) && Linked(st.sec, L.dir) && Ended(st.sec, L.dir)
  }

  /** The directory entry of a file names its first sector, and the chain is linked. */
  ghost predicate FileOk(f: Disk, st: State, slot: Slot, chain: seq<TS>) {
    && slot.entry < 8 && slot.dir in st.sec
    && chain != [] && Inside(st.sec, chain) && Linked(st.sec, chain)
    && (forall k :: 0 <= k < |chain| ==> Plain(f, chain[k]))
    && var e := EntryIn(st.sec[slot.dir], slot.entry);
    && e[OFS_TYPE] != 0 && TS(e[OFS_TRACK], e[OFS_SECTOR]) == chain[0]
  }

  ghost predicate TreeOk(f: Disk, st: State, L: Layout) {
    && DirOwned(L) && FilesOwned(L) && OwnersReal(L) && Reserved(st, L) && DirOk(f, st, L)
    && (forall slot :: slot in L.files ==> FileOk(f, st, slot, L.files[slot]) && slot.dir in L.owner && L.owner[slot.dir].DirPlace?)
  }

  // ----- consequences -----

  /** Chains of different files never meet, and none runs in a circle or through the directory. */
  lemma ChainsApart(f: Disk, st: State, L: Layout, a: Slot, j: nat, b: Slot, k: nat)
    requires TreeOk(f, st, L) && a in L.files && j < |L.files[a]| && b in L.files && k < |L.files[b]|
    ensures L.files[a][j] == L.files[b][k] ==> a == b && j == k
    ensures L.files[a][j] !in L.dir && L.files[a][j] !in st.free
  {
    assert L.owner[L.files[a][j]] == FilePlace(a, j);
    assert L.owner[L.files[b][k]] == FilePlace(b, k);
  }

  /** A sector marked free belongs to nobody. */
  lemma FreeIsUnowned(f: Disk, st: State, L: Layout, ts: TS)
    requires TreeOk(f, st, L) && ts in st.free
    ensures ts !in L.owner && ts in st.sec
  {
  }

  // ----- what a change elsewhere leaves alone -----

  /** What is said of a file depends on its entry, and on its sectors except the contents of the last one. */
  lemma FileFrame(f: Disk, st: State, st': State, slot: Slot, chain: seq<TS>)
    requires FileOk(f, st, slot, chain) && Inside(st'.sec, chain)
    requires forall k :: 0 <= k < |chain| - 1 ==> st'.sec[chain[k]] == st.sec[chain[k]]
    requires slot.dir in st'.sec && SameEntry(st.sec[slot.dir], st'.sec[slot.dir], slot.entry)
    ensures FileOk(f, st', slot, chain)
  {
    hide EntryIn, Link;
  }

  /** Both sectors hold an entry of the same type for the same first sector. */
  ghost predicate SameEntry(a: Sector, b: Sector, i: nat) {
    i < 8 && EntryIn(a, i)[OFS_TYPE] == EntryIn(b, i)[OFS_TYPE]
    && EntryIn(a, i)[OFS_TRACK] == EntryIn(b, i)[OFS_TRACK] && EntryIn(a, i)[OFS_SECTOR] == EntryIn(b, i)[OFS_SECTOR]
  }

  /** What is said of the directory depends on the links of its sectors only. */
  lemma DirFrame(f: Disk, st: State, st': State, L: Layout)
    requires DirOk(f, st, L) && Inside(st'.sec, L.dir)
    requires forall i :: 0 <= i < |L.dir| ==> Link(st'.sec[L.dir[i]]) == Link(st.sec[L.dir[i]])
    ensures DirOk(f, st', L)
  {
    assert Link(st'.sec[L.dir[|L.dir| - 1]]).track == st'.sec[L.dir[|L.dir| - 1]][0];
  }

  /** The parts of `TreeOk`, for proofs that keep its definition out of sight. */
  lemma TreeFacts(f: Disk, st: State, L: Layout)
    requires TreeOk(f, st, L)
    ensures DirOwned(L) && FilesOwned(L) && OwnersReal(L) && Reserved(st, L) && DirOk(f, st, L) && Inside(st.sec, L.dir)
    ensures forall slot :: slot in L.files ==>
      FileOk(f, st, slot, L.files[slot]) && slot.dir in L.owner && L.owner[slot.dir].DirPlace?
  {
  }

  /** The chain of a file holds no directory sector, and another file's sector only if it is the same file. */
  lemma ChainAvoids(L: Layout, slot: Slot, ts: TS)
    requires FilesOwned(L) && slot in L.files
    requires ts in L.owner ==> L.owner[ts].DirPlace? || L.owner[ts].slot != slot
    ensures ts !in L.files[slot]
  {
  }

  lemma DirAvoids(L: Layout, ts: TS)
    requires DirOwned(L) && (ts in L.owner ==> L.owner[ts].FilePlace?)
    ensures ts !in L.dir
  {
  }

  // ----- changes -----

  /** Taking sectors that nobody owns out of the free ones keeps an image sound. */
  lemma TakeKeeps(f: Disk, st: State, st': State, L: Layout, ts: TS)
    requires TreeOk(f, st, L) && st' == State(st.sec, st.free - {ts})
    ensures TreeOk(f, st', L)
  {
    hide DirOwned, FilesOwned, OwnersReal, Linked, Ended, Inside;
    forall slot | slot in L.files
      ensures FileOk(f, st', slot, L.files[slot])
    {
      assert FileOk(f, st, slot, L.files[slot]);
    }
  }

  /** Rewriting a sector that nobody owns, or that is the last one of a file, keeps an image sound. */
  lemma StoreKeeps(f: Disk, st: State, st': State, L: Layout, ts: TS, data: Sector)
    requires TreeOk(f, st, L) && ts in st.sec && st' == State(st.sec[ts := data], st.free)
    requires ts in L.owner ==> L.owner[ts].FilePlace? && LastOf(L, L.owner[ts].slot, L.owner[ts].index)
    ensures TreeOk(f, st', L)
  {
    hide EntryIn, Link, DirOk, FileOk, DirOwned, FilesOwned, OwnersReal, SameEntry;
    TreeFacts(f, st, L);
    DirAvoids(L, ts);
    DirFrame(f, st, st', L);
    forall slot | slot in L.files
      ensures FileOk(f, st', slot, L.files[slot])
    {
      StoreInFile(f, st, st', L, slot, ts, data);
    }
  }

  ghost predicate LastOf(L: Layout, slot: Slot, k: nat) {
    slot in L.files && k == |L.files[slot]| - 1
  }

  lemma StoreInFile(f: Disk, st: State, st': State, L: Layout, slot: Slot, ts: TS, data: Sector)
    requires FilesOwned(L) && slot in L.files && FileOk(f, st, slot, L.files[slot])
    requires slot.dir in L.owner && L.owner[slot.dir].DirPlace?
    requires ts in st.sec && st' == State(st.sec[ts := data], st.free)
    requires ts in L.owner ==> L.owner[ts].FilePlace? && LastOf(L, L.owner[ts].slot, L.owner[ts].index)
    ensures FileOk(f, st', slot, L.files[slot])
  {
    hide EntryIn, Link, Linked;
    var chain := L.files[slot];
    forall k | 0 <= k < |chain| - 1
      ensures chain[k] != ts
    {
      assert L.owner[chain[k]] == FilePlace(slot, k);
    }
    FileFrame(f, st, st', slot, chain);
  }

  /** What a store into `ts` leaves of a chain that does not contain it. */
  lemma StoreElsewhere(sec: map<TS, Sector>, chain: seq<TS>, ts: TS, data: Sector)
    requires Inside(sec, chain) && ts !in chain
    ensures Inside(sec[ts := data], chain) && Body(sec[ts := data], chain) == Body(sec, chain)
    ensures Linked(sec, chain) ==> Linked(sec[ts := data], chain)
    ensures Ended(sec, chain) ==> Ended(sec[ts := data], chain)
    ensures chain != [] ==> FileBytes(sec[ts := data], chain) == FileBytes(sec, chain)
  {
    forall k | 0 <= k < |chain|
      ensures chain[k] != ts
    {
    }
    BodyFrame(sec, sec[ts := data], chain);
    if chain != [] {
      BodyFrame(sec, sec[ts := data], chain[..|chain| - 1]);
    }
  }

  function WithFile(L: Layout, slot: Slot, ts: TS): Layout
    requires slot in L.files
  {
    L.(files := L.files[slot := L.files[slot] + [ts]], owner := L.owner[ts := FilePlace(slot, |L.files[slot]|)])
  }

  /** Once its last sector links to a reserved, unowned sector, a file can take that sector over. */
  lemma ExtendKeeps(f: Disk, st: State, L: Layout, slot: Slot, ts: TS)
    requires TreeOk(f, st, L) && slot in L.files && Plain(f, ts) && ts in st.sec && ts !in st.free && ts !in L.owner
    requires LinksTo(st.sec, L.files[slot], ts)
    ensures TreeOk(f, st, WithFile(L, slot, ts))
  {
    hide FileOk, DirOk, DirOwned, FilesOwned, OwnersReal, Reserved;
    ExtendOwned(f, st, L, slot, ts);
    ExtendFile(f, st, slot, L.files[slot], ts);
  }

  ghost predicate LinksTo(sec: map<TS, Sector>, chain: seq<TS>, ts: TS) {
    chain != [] && chain[|chain| - 1] in sec && Link(sec[chain[|chain| - 1]]) == ts
  }

  lemma ExtendFile(f: Disk, st: State, slot: Slot, chain: seq<TS>, ts: TS)
    requires FileOk(f, st, slot, chain) && Plain(f, ts) && ts in st.sec && LinksTo(st.sec, chain, ts)
    ensures FileOk(f, st, slot, chain + [ts])
  {
    hide EntryIn, Link, Plain;
  }

  lemma ExtendOwned(f: Disk, st: State, L: Layout, slot: Slot, ts: TS)
    requires DirOwned(L) && FilesOwned(L) && OwnersReal(L) && Reserved(st, L) && DirOk(f, st, L)
    requires slot in L.files && ts in st.sec && ts !in st.free && ts !in L.owner
    ensures var L' := WithFile(L, slot, ts);
      DirOwned(L') && FilesOwned(L') && OwnersReal(L') && Reserved(st, L') && DirOk(f, st, L')
  {
    hide Linked, Ended, Inside;
  }

  function WithDir(L: Layout, ts: TS): Layout {
    L.(dir := L.dir + [ts], owner := L.owner[ts := DirPlace(|L.dir|)])
  }

  function NewFile(L: Layout, slot: Slot, ts: TS): Layout {
    L.(files := L.files[slot := [ts]], owner := L.owner[ts := FilePlace(slot, 0)])
  }

  function WithoutFile(L: Layout, slot: Slot): Layout {
    L.(files := L.files - {slot}, owner := map ts | ts in L.owner && !(L.owner[ts].FilePlace? && L.owner[ts].slot == slot) :: L.owner[ts])
  }

  /** Rewriting an entry of a directory sector, apart from the bytes that carry the sector's link. */
  ghost predicate EntryStored(st: State, st': State, slot: Slot, e: Entry) {
    && slot.dir in st.sec && slot.entry < 8
    && e[0] == EntryIn(st.sec[slot.dir], slot.entry)[0] && e[1] == EntryIn(st.sec[slot.dir], slot.entry)[1]
    && st' == State(st.sec[slot.dir := WithEntry(st.sec[slot.dir], slot.entry, e)], st.free)
  }

  lemma EntryStoredFacts(st: State, st': State, slot: Slot, e: Entry)
    requires EntryStored(st, st', slot, e)
    ensures st'.sec.Keys == st.sec.Keys && st'.free == st.free
    ensures forall ts :: ts in st.sec && ts != slot.dir ==> st'.sec[ts] == st.sec[ts]
    ensures Link(st'.sec[slot.dir]) == Link(st.sec[slot.dir])
    ensures EntryIn(st'.sec[slot.dir], slot.entry) == e
    ensures forall j :: 0 <= j < 8 && j != slot.entry ==> EntryIn(st'.sec[slot.dir], j) == EntryIn(st.sec[slot.dir], j)
  {
    EntryWritten(st.sec[slot.dir], slot.entry, e);
  }

  /** A directory sector with its links intact changes no chain. */
  lemma DirRewritten(f: Disk, st: State, st': State, L: Layout, d: TS)
    requires TreeOk(f, st, L) && d in L.owner && L.owner[d].DirPlace?
    requires st'.sec.Keys == st.sec.Keys && st'.free == st.free
    requires forall ts :: ts in st.sec && ts != d ==> st'.sec[ts] == st.sec[ts]
    requires d in st.sec && Link(st'.sec[d]) == Link(st.sec[d])
    ensures DirOk(f, st', L) && Reserved(st', L)
    ensures forall slot :: slot in L.files ==>
      Inside(st'.sec, L.files[slot]) && Linked(st'.sec, L.files[slot]) && d !in L.files[slot]
  {
    hide EntryIn, Link, TreeOk, DirOk, FileOk, DirOwned, FilesOwned, OwnersReal;
    TreeFacts(f, st, L);
    DirFrame(f, st, st', L);
    forall slot | slot in L.files
      ensures Inside(st'.sec, L.files[slot]) && Linked(st'.sec, L.files[slot]) && d !in L.files[slot]
    {
      ChainAvoids(L, slot, d);
      ChainKept(f, st, st', slot, L.files[slot], d);
    }
  }

  lemma ChainKept(f: Disk, st: State, st': State, slot: Slot, chain: seq<TS>, d: TS)
    requires FileOk(f, st, slot, chain) && d !in chain && st'.sec.Keys == st.sec.Keys
    requires forall ts :: ts in st.sec && ts != d ==> st'.sec[ts] == st.sec[ts]
    ensures Inside(st'.sec, chain) && Linked(st'.sec, chain)
  {
    hide EntryIn, Link;
    assert forall k :: 0 <= k < |chain| ==> chain[k] in chain;
  }

  /** Changing a file's entry without changing its first sector keeps an image sound. */
  lemma DescribeKeeps(f: Disk, st: State, st': State, L: Layout, slot: Slot, e: Entry)
    requires TreeOk(f, st, L) && slot in L.files && EntryStored(st, st', slot, e)
    requires e[OFS_TYPE] != 0 && TS(e[OFS_TRACK], e[OFS_SECTOR]) == L.files[slot][0]
    ensures TreeOk(f, st', L)
  {
    hide EntryStored, Link, EntryIn, Linked, Inside, DirOk, Ended, Reserved, DirOwned, FilesOwned, OwnersReal;
    EntryStoredFacts(st, st', slot, e);
    SlotDir(st, st', slot, e);
    DirRewritten(f, st, st', L, slot.dir);
    forall s | s in L.files
      ensures FileOk(f, st', s, L.files[s])
    {
      assert FileOk(f, st, s, L.files[s]);
    }
  }

  lemma SlotDir(st: State, st': State, slot: Slot, e: Entry)
    requires EntryStored(st, st', slot, e)
    ensures slot.dir in st.sec && slot.entry < 8
  {
  }

  /** An unused entry filled in for a reserved, unowned sector becomes a new file. */
  lemma CreateKeeps(f: Disk, st: State, st': State, L: Layout, slot: Slot, e: Entry, ts: TS)
    requires TreeOk(f, st, L) && slot !in L.files && EntryStored(st, st', slot, e)
    requires slot.dir in L.owner && L.owner[slot.dir].DirPlace?
    requires Plain(f, ts) && ts in st.sec && ts !in st.free && ts !in L.owner
    requires e[OFS_TYPE] != 0 && TS(e[OFS_TRACK], e[OFS_SECTOR]) == ts
    ensures TreeOk(f, st', NewFile(L, slot, ts))
  {
    hide EntryStored, Link, EntryIn, DirOk, Reserved, DirOwned, FilesOwned, OwnersReal;
    EntryStoredFacts(st, st', slot, e);
    SlotDir(st, st', slot, e);
    DirRewritten(f, st, st', L, slot.dir);
    NewFileOwned(f, st', L, slot, ts);
    forall s | s in L.files
      ensures FileOk(f, st', s, L.files[s])
    {
      assert FileOk(f, st, s, L.files[s]);
    }
    assert FileOk(f, st', slot, [ts]);
  }

  lemma NewFileOwned(f: Disk, st: State, L: Layout, slot: Slot, ts: TS)
    requires DirOwned(L) && FilesOwned(L) && OwnersReal(L) && Reserved(st, L) && DirOk(f, st, L)
    requires slot !in L.files && ts in st.sec && ts !in st.free && ts !in L.owner
    ensures var L' := NewFile(L, slot, ts);
      DirOwned(L') && FilesOwned(L') && OwnersReal(L') && Reserved(st, L') && DirOk(f, st, L')
  {
    hide Linked, Ended, Inside;
  }

  /** Clearing a file's entry and freeing exactly its sectors removes the file. */
  lemma DeleteKeeps(f: Disk, st: State, st': State, L: Layout, slot: Slot, e: Entry)
    requires TreeOk(f, st, L) && slot in L.files
    requires EntryStored(State(st.sec, st'.free), st', slot, e)
    requires forall ts :: ts in st'.free <==> ts in st.free || ts in L.files[slot]
    ensures TreeOk(f, st', WithoutFile(L, slot))
  {
    hide Link, EntryIn, DirOk, FileOk, WithEntry;
    var mid := State(st.sec, st'.free);
    var L' := WithoutFile(L, slot);
    WithoutOwned(f, st, mid, L, slot);
    EntryStoredFacts(mid, st', slot, e);
    DirRewritten(f, mid, st', L', slot.dir);
    forall s | s in L'.files
      ensures FileOk(f, st', s, L'.files[s])
    {
      Redescribed(f, mid, st', L', s, slot, e);
    }
  }

  lemma Redescribed(f: Disk, st: State, st': State, L: Layout, s: Slot, slot: Slot, e: Entry)
    requires s in L.files && FileOk(f, st, s, L.files[s]) && s != slot && EntryStored(st, st', slot, e)
    requires Inside(st'.sec, L.files[s]) && Linked(st'.sec, L.files[s])
    ensures FileOk(f, st', s, L.files[s])
  {
    hide Linked, Inside, EntryIn, Link;
    EntryStoredFacts(st, st', slot, e);
  }

  lemma WithoutOwned(f: Disk, st: State, mid: State, L: Layout, slot: Slot)
    requires TreeOk(f, st, L) && slot in L.files && mid.sec == st.sec
    requires forall ts :: ts in mid.free <==> ts in st.free || ts in L.files[slot]
    ensures TreeOk(f, mid, WithoutFile(L, slot))
    ensures slot.dir in WithoutFile(L, slot).owner && WithoutFile(L, slot).owner[slot.dir].DirPlace?
  {
    hide TreeOk, FileOk, DirOk, DirOwned, FilesOwned, OwnersReal, Reserved, WithoutFile;
    TreeFacts(f, st, L);
    FileInside(f, st, slot, L.files[slot]);
    WithoutOwners(st, mid, L, slot);
    WithoutDir(f, st, mid, L, slot);
    forall s | s in L.files
      ensures FileOk(f, mid, s, L.files[s])
    {
      SameSectors(f, st, mid, s, L.files[s]);
    }
    AssembleTree(f, mid, WithoutFile(L, slot), L);
  }

  lemma AssembleTree(f: Disk, st: State, L': Layout, L: Layout)
    requires DirOwned(L') && FilesOwned(L') && OwnersReal(L') && Reserved(st, L') && DirOk(f, st, L')
    requires forall s :: s in L'.files ==> s in L.files && L'.files[s] == L.files[s] && FileOk(f, st, s, L.files[s])
    requires forall s :: s in L'.files ==> s.dir in L'.owner && L'.owner[s.dir].DirPlace?
    ensures TreeOk(f, st, L')
  {
    hide FileOk, DirOk, DirOwned, FilesOwned, OwnersReal, Reserved;
  }

  lemma FileInside(f: Disk, st: State, slot: Slot, chain: seq<TS>)
    requires FileOk(f, st, slot, chain)
    ensures Inside(st.sec, chain) && Linked(st.sec, chain) && chain != [] && slot.dir in st.sec && slot.entry < 8
    ensures forall k :: 0 <= k < |chain| ==> Plain(f, chain[k])
    ensures TS(EntryIn(st.sec[slot.dir], slot.entry)[OFS_TRACK], EntryIn(st.sec[slot.dir], slot.entry)[OFS_SECTOR]) == chain[0]
    ensures EntryIn(st.sec[slot.dir], slot.entry)[OFS_TYPE] != 0
  {
  }

  lemma SameSectors(f: Disk, st: State, mid: State, slot: Slot, chain: seq<TS>)
    requires FileOk(f, st, slot, chain) && mid.sec == st.sec
    ensures FileOk(f, mid, slot, chain)
  {
    hide Linked, Inside, EntryIn;
  }

  lemma WithoutDir(f: Disk, st: State, mid: State, L: Layout, slot: Slot)
    requires DirOk(f, st, L) && mid.sec == st.sec
    ensures DirOk(f, mid, WithoutFile(L, slot))
  {
    hide Linked, Inside, Ended;
  }

  lemma WithoutOwners(st: State, mid: State, L: Layout, slot: Slot)
    requires DirOwned(L) && FilesOwned(L) && OwnersReal(L) && Reserved(st, L) && slot in L.files && mid.sec == st.sec
    requires Inside(st.sec, L.files[slot])
    requires forall ts :: ts in mid.free <==> ts in st.free || ts in L.files[slot]
    ensures var L' := WithoutFile(L, slot);
      && DirOwned(L') && FilesOwned(L') && OwnersReal(L') && Reserved(mid, L')
      && L'.files == L.files - {slot}
      && forall d :: d in L.owner && L.owner[d].DirPlace? ==> d in L'.owner && L'.owner[d].DirPlace?
  {
    forall ts | ts in L.owner
      ensures ts in L.files[slot] <==> L.owner[ts].FilePlace? && L.owner[ts].slot == slot
    {
      ChainMember(L, slot, ts);
    }
  }

  lemma ChainMember(L: Layout, slot: Slot, ts: TS)
    requires FilesOwned(L) && OwnersReal(L) && slot in L.files && ts in L.owner
    ensures ts in L.files[slot] <==> L.owner[ts].FilePlace? && L.owner[ts].slot == slot
  {
    if ts in L.files[slot] {
      var k :| 0 <= k < |L.files[slot]| && L.files[slot][k] == ts;
    }
  }

  /** A cleared directory sector linked behind the last one extends the directory. */
  lemma DirGrows(f: Disk, st: State, st': State, L: Layout, ts: TS, linked: Sector, cleared: Sector)
    requires TreeOk(f, st, L) && Plain(f, ts) && ts.track == DirTrack(f)
    requires ts in st.sec && ts !in st.free && ts !in L.owner
    requires DirLinked(st, st', L, ts, linked, cleared)
    ensures TreeOk(f, st', WithDir(L, ts))
  {
    hide TreeOk, FileOk, DirOk, DirOwned, FilesOwned, OwnersReal, Reserved, DirLinked, WithDir, Plain;
    TreeFacts(f, st, L);
    DirGrowsOwners(f, st, st', L, ts, linked, cleared);
    DirGrowsChain(f, st, st', L, ts, linked, cleared);
    forall slot | slot in L.files
      ensures FileOk(f, st', slot, L.files[slot])
    {
      DirGrowsFile(f, st, st', L, ts, linked, cleared, slot);
    }
    AssembleTree(f, st', WithDir(L, ts), L);
  }

  /** `st'` is `st` with the last directory sector linked to the cleared sector `ts`. */
  ghost predicate DirLinked(st: State, st': State, L: Layout, ts: TS, linked: Sector, cleared: Sector) {
    && L.dir != []
    && var last := L.dir[|L.dir| - 1];
    && last in st.sec && Link(linked) == ts && linked[2..] == st.sec[last][2..]
    && st' == State(st.sec[last := linked][ts := cleared], st.free)
    && cleared[0] == 0
  }

  lemma DirGrowsOwners(f: Disk, st: State, st': State, L: Layout, ts: TS, linked: Sector, cleared: Sector)
    requires DirOwned(L) && FilesOwned(L) && OwnersReal(L) && Reserved(st, L)
    requires ts in st.sec && ts !in st.free && ts !in L.owner && DirLinked(st, st', L, ts, linked, cleared)
    ensures var L' := WithDir(L, ts);
      && DirOwned(L') && FilesOwned(L') && OwnersReal(L') && Reserved(st', L') && L'.files == L.files
      && forall d :: d in L.owner ==> d in L'.owner && L'.owner[d] == L.owner[d]
  {
    hide Link;
  }

  lemma DirGrowsChain(f: Disk, st: State, st': State, L: Layout, ts: TS, linked: Sector, cleared: Sector)
    requires DirOwned(L) && DirOk(f, st, L) && Plain(f, ts) && ts.track == DirTrack(f)
    requires ts in st.sec && ts !in L.owner && DirLinked(st, st', L, ts, linked, cleared)
    ensures DirOk(f, st', WithDir(L, ts))
  {
    hide Link, IsBam, ValidSector, DirTrack, Linked, Ended, Inside;
    var dir := L.dir;
    forall i | 0 <= i < |dir|
      ensures dir[i] != ts && (i < |dir| - 1 ==> dir[i] != dir[|dir| - 1])
    {
      assert L.owner[dir[i]] == DirPlace(i) && L.owner[dir[|dir| - 1]] == DirPlace(|dir| - 1);
    }
    ChainGrows(st.sec, dir, ts, linked, cleared);
  }

  /** A chain whose last sector links to another, ending one is a longer ended chain. */
  lemma ChainGrows(sec: map<TS, Sector>, chain: seq<TS>, ts: TS, linked: Sector, cleared: Sector)
    requires chain != [] && Inside(sec, chain) && Linked(sec, chain) && ts in sec && Link(linked) == ts
      && cleared[0] == 0
    requires forall i :: 0 <= i < |chain| ==> chain[i] != ts && (i < |chain| - 1 ==> chain[i] != chain[|chain| - 1])
    ensures var sec' := sec[chain[|chain| - 1] := linked][ts := cleared];
      Inside(sec', chain + [ts]) && Linked(sec', chain + [ts]) && Ended(sec', chain + [ts])
  {
    hide Link;
  }

  lemma DirGrowsFile(f: Disk, st: State, st': State, L: Layout, ts: TS, linked: Sector, cleared: Sector, slot: Slot)
    requires DirOwned(L) && FilesOwned(L) && slot in L.files && FileOk(f, st, slot, L.files[slot])
    requires slot.dir in L.owner && L.owner[slot.dir].DirPlace?
    requires ts in st.sec && ts !in L.owner && DirLinked(st, st', L, ts, linked, cleared)
    ensures FileOk(f, st', slot, L.files[slot])
  {
    hide Link, Linked, EntryIn;
    var last := L.dir[|L.dir| - 1];
    assert L.owner[last] == DirPlace(|L.dir| - 1);
    ChainAvoids(L, slot, last);
    ChainAvoids(L, slot, ts);
    LinkedEntry(st.sec[last], linked, slot.entry);
    assert forall k :: 0 <= k < |L.files[slot]| ==> L.files[slot][k] in L.files[slot];
    FileFrame(f, st, st', slot, L.files[slot]);
  }

  lemma LinkedEntry(sec: Sector, linked: Sector, i: nat)
    requires linked[2..] == sec[2..] && i < 8
    ensures EntryIn(linked, i)[OFS_TYPE] == EntryIn(sec, i)[OFS_TYPE]
    ensures EntryIn(linked, i)[OFS_TRACK] == EntryIn(sec, i)[OFS_TRACK]
    ensures EntryIn(linked, i)[OFS_SECTOR] == EntryIn(sec, i)[OFS_SECTOR]
  {
    assert forall k :: 2 <= k < 256 ==> linked[k] == linked[2..][k - 2] && sec[k] == sec[2..][k - 2];
  }
}
