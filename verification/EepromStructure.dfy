/**
 What a sound EEPROM directory looks like: every live entry belongs to exactly one file's chain,
 every sector in use belongs to exactly one place of one file, and the changes the program makes
 keep it that way.
 */
module EepromStructure {
  import opened Bits
  import opened Common
  import opened EepromLayout

  /** The directory entries of a file in chain order, and its sectors in file order. */
  datatype File = File(chain: seq<nat>, secs: seq<nat>)

  /** Position `index` of file `file`. */
  datatype Place = Place(file: nat, index: nat)

  /**
   Files by the number of their name entry, with the inverse maps from entries and sectors to their owner.
   Sectors that are marked as used but named in no entry are `lost`; a file is `torn` if its recorded size
   is more than its sectors hold. Only an append can bring about either.
   */
  datatype Layout = Layout(files: map<nat, File>, entOwner: map<nat, Place>, secOwner: map<nat, Place>,
                           lost: set<nat>, torn: set<nat>)

  const EMPTY := Layout(map[], map[], map[], {}, {})

  /** How many sectors the first `c` entries of a chain hold. */
  function Base(c: nat): nat {
    if c == 0 then 0 else NAME_SECTORS + LIST_SECTORS * (c - 1)
  }

  function SlotValue(f: File, k: nat): int {
    if k < |f.secs| then f.secs[k] else NONE
  }

  /** Entry `e` is what position `c` of the chain of `f` must hold. */
  ghost predicate EntryOk(e: Entry, f: File, c: nat) {
    && !Deleted(e)
    && (IsList(e) <==> c > 0)
    && Next(e) as int == (if c + 1 < |f.chain| then f.chain[c + 1] else NONE)
    && forall i :: 0 <= i < MaxSectors(e) ==> e[i] as int == SlotValue(f, Base(c) + i)
  }

  ghost predicate FileOk(g: Geometry, dir: seq<Entry>, h: nat, f: File) {
    && f.chain != [] && f.chain[0] == h
    && (forall c :: 0 <= c < |f.chain| ==> f.chain[c] < |dir|)
    && (forall k :: 0 <= k < |f.secs| ==> f.secs[k] < g.sectors)
    && |f.secs| <= Base(|f.chain|)
    && (|f.chain| > 1 ==> Base(|f.chain| - 1) < |f.secs|)
    && forall c {:trigger EntryOk(dir[f.chain[c]], f, c)} :: 0 <= c < |f.chain| ==> EntryOk(dir[f.chain[c]], f, c)
  }

  ghost predicate EntriesOwned(L: Layout) {
    && (forall h, c :: h in L.files && 0 <= c < |L.files[h].chain| ==>
          L.files[h].chain[c] in L.entOwner && L.entOwner[L.files[h].chain[c]] == Place(h, c))
    && (forall i :: i in L.entOwner ==>
          var p := L.entOwner[i];
          p.file in L.files && p.index < |L.files[p.file].chain| && L.files[p.file].chain[p.index] == i)
  }

  ghost predicate SectorsOwned(L: Layout) {
    && (forall h, k :: h in L.files && 0 <= k < |L.files[h].secs| ==>
          L.files[h].secs[k] in L.secOwner && L.secOwner[L.files[h].secs[k]] == Place(h, k))
    && (forall s :: s in L.secOwner ==>
          var p := L.secOwner[s];
          p.file in L.files && p.index < |L.files[p.file].secs| && L.files[p.file].secs[p.index] == s)
  }

  ghost predicate Structure(g: Geometry, dir: seq<Entry>, L: Layout) {
    && |dir| == g.entries
    && EntriesOwned(L) && SectorsOwned(L)
    && (forall h :: h in L.files ==> FileOk(g, dir, h, L.files[h]))
    && (forall i :: 0 <= i < |dir| ==> (!Deleted(dir[i]) <==> i in L.entOwner))
  }

  ghost predicate ChainDistinct(f: File) {
    forall c, c' :: 0 <= c < c' < |f.chain| ==> f.chain[c] != f.chain[c']
  }

  lemma OwnedChainDistinct(L: Layout, h: nat)
    requires EntriesOwned(L) && h in L.files
    ensures ChainDistinct(L.files[h])
  {
    var f := L.files[h];
    forall c, c' | 0 <= c < c' < |f.chain|
      ensures f.chain[c] != f.chain[c']
    {
      assert L.entOwner[f.chain[c]] == Place(h, c) && L.entOwner[f.chain[c']] == Place(h, c');
    }
  }

  lemma ChainEntryFacts(g: Geometry, dir: seq<Entry>, L: Layout, h: nat, c: nat)
    requires Structure(g, dir, L) && h in L.files && c < |L.files[h].chain|
    ensures var f := L.files[h];
      && f.chain[c] < |dir| == g.entries && f.chain[c] in L.entOwner && L.entOwner[f.chain[c]] == Place(h, c)
      && EntryOk(dir[f.chain[c]], f, c)
      && |f.secs| <= Base(|f.chain|)
  {
    assert FileOk(g, dir, h, L.files[h]);
    assert EntryOk(dir[L.files[h].chain[c]], L.files[h], c);
  }

  lemma EntryInChain(g: Geometry, dir: seq<Entry>, L: Layout, i: nat)
    requires Structure(g, dir, L) && i in L.entOwner
    ensures var p := L.entOwner[i];
      p.file in L.files && p.index < |L.files[p.file].chain| && L.files[p.file].chain[p.index] == i
  {
  }

  /** In a sound directory the live name entries are exactly the files. */
  lemma NameEntriesAreFiles(g: Geometry, dir: seq<Entry>, L: Layout, i: nat)
    requires Structure(g, dir, L) && i < |dir|
    ensures !Deleted(dir[i]) && !IsList(dir[i]) <==> i in L.files
    ensures i in L.files ==> L.files[i].chain[0] == i && L.entOwner[i] == Place(i, 0)
  {
    if i in L.files {
      assert FileOk(g, dir, i, L.files[i]);
      assert EntryOk(dir[L.files[i].chain[0]], L.files[i], 0);
    }
    if !Deleted(dir[i]) && !IsList(dir[i]) {
      var p := L.entOwner[i];
      assert EntryOk(dir[L.files[p.file].chain[p.index]], L.files[p.file], p.index);
    }
  }

  /** The files are exactly the live name entries. */
  ghost predicate Indexed(dir: seq<Entry>, L: Layout) {
    && (forall h :: h in L.files ==> h < |dir|)
    && (forall i :: 0 <= i < |dir| ==> (!Deleted(dir[i]) && !IsList(dir[i]) <==> i in L.files))
  }

  lemma StructureIndexed(g: Geometry, dir: seq<Entry>, L: Layout)
    requires Structure(g, dir, L)
    ensures Indexed(dir, L)
  {
    forall i | 0 <= i < |dir|
      ensures !Deleted(dir[i]) && !IsList(dir[i]) <==> i in L.files
    {
      NameEntriesAreFiles(g, dir, L, i);
    }
    forall h | h in L.files
      ensures h < |dir|
    {
      assert FileOk(g, dir, h, L.files[h]) && L.files[h].chain[0] == h;
    }
  }

  /** Sectors of one file never repeat, and no two files share one. */
  lemma NoSharing(g: Geometry, dir: seq<Entry>, L: Layout, h: nat, k: nat, h': nat, k': nat)
    requires Structure(g, dir, L)
    requires h in L.files && k < |L.files[h].secs| && h' in L.files && k' < |L.files[h'].secs|
    requires (h, k) != (h', k')
    ensures L.files[h].secs[k] != L.files[h'].secs[k']
  {
    assert L.secOwner[L.files[h].secs[k]] == Place(h, k);
    assert L.secOwner[L.files[h'].secs[k']] == Place(h', k');
  }

  /** Chains never meet and never run in a circle. */
  lemma ChainsApart(g: Geometry, dir: seq<Entry>, L: Layout, h: nat, c: nat, h': nat, c': nat)
    requires Structure(g, dir, L)
    requires h in L.files && c < |L.files[h].chain| && h' in L.files && c' < |L.files[h'].chain|
    requires (h, c) != (h', c')
    ensures L.files[h].chain[c] != L.files[h'].chain[c']
  {
    assert L.entOwner[L.files[h].chain[c]] == Place(h, c);
    assert L.entOwner[L.files[h'].chain[c']] == Place(h', c');
  }

  // ----- what a scan of the stored directory finds -----

  /** Sector `s` is named by some slot of some live entry. */
  ghost predicate Listed(dir: seq<Entry>, s: nat) {
    s != NONE as int && exists i, j :: 0 <= i < |dir| && ListedAt(dir[i], j, s)
  }

  ghost predicate ListedAt(e: Entry, j: int, s: nat) {
    !Deleted(e) && 0 <= j < MaxSectors(e) && e[j] as int == s
  }

  /** The start-up scan can only ever find the sectors the layout owns, and it finds all of them. */
  lemma ScanFindsOwned(g: Geometry, dir: seq<Entry>, L: Layout, s: nat)
    requires Structure(g, dir, L) && s < g.sectors
    ensures Listed(dir, s) <==> s in L.secOwner
  {
    if s in L.secOwner {
      var p := L.secOwner[s];
      SectorSlot(g, dir, p.file, L.files[p.file], p.index);
    }
    if Listed(dir, s) {
      var i, j :| 0 <= i < |dir| && ListedAt(dir[i], j, s);
      SlotOwner(g, dir, L, i, j);
    }
  }

  /** Sector `k` of a file stands in a slot of one of the file's entries. */
  lemma SectorSlot(g: Geometry, dir: seq<Entry>, h: nat, f: File, k: nat)
    requires FileOk(g, dir, h, f) && k < |f.secs|
    ensures exists i, j :: 0 <= i < |dir| && ListedAt(dir[i], j, f.secs[k])
  {
    var c := if k < NAME_SECTORS then 0 else (k - NAME_SECTORS) / LIST_SECTORS + 1;
    assert Base(c) <= k < Base(c + 1);
    assert c < |f.chain| by {
      BaseMonotone(|f.chain|, if c >= |f.chain| then c else |f.chain|);
    }
    assert EntryOk(dir[f.chain[c]], f, c);
    assert ListedAt(dir[f.chain[c]], k - Base(c), f.secs[k]);
  }

  lemma BaseMonotone(c: nat, d: nat)
    requires c <= d
    ensures Base(c) <= Base(d)
  {
  }

  /** The slot `j` of a live entry `i` belongs to one place of one file. */
  lemma SlotOwner(g: Geometry, dir: seq<Entry>, L: Layout, i: nat, j: nat)
    requires Structure(g, dir, L) && i < |dir| && !Deleted(dir[i]) && j < MaxSectors(dir[i])
    ensures i in L.entOwner
    ensures var p := L.entOwner[i];
      && p.file in L.files
      && dir[i][j] as int == SlotValue(L.files[p.file], Base(p.index) + j)
      && (dir[i][j] != NONE ==>
            (&& Base(p.index) + j < |L.files[p.file].secs|
             && dir[i][j] as int in L.secOwner
             && L.secOwner[dir[i][j] as int] == Place(p.file, Base(p.index) + j)))
  {
    var p := L.entOwner[i];
    assert FileOk(g, dir, p.file, L.files[p.file]);
    assert EntryOk(dir[L.files[p.file].chain[p.index]], L.files[p.file], p.index);
  }

  /** What is said of a file depends on the file's own entries only. */
  lemma FileFrame(g: Geometry, dir: seq<Entry>, dir': seq<Entry>, h: nat, f: File)
    requires FileOk(g, dir, h, f) && |dir'| == |dir|
    requires forall c :: 0 <= c < |f.chain| ==> dir'[f.chain[c]] == dir[f.chain[c]]
    ensures FileOk(g, dir', h, f)
  {
    forall c | 0 <= c < |f.chain|
      ensures EntryOk(dir'[f.chain[c]], f, c)
    {
      assert EntryOk(dir[f.chain[c]], f, c);
    }
  }

  /** A directory that differs in the entries of file `h` only still serves every other file. */
  lemma OtherFiles(g: Geometry, dir: seq<Entry>, dir': seq<Entry>, L: Layout, h: nat)
    requires Structure(g, dir, L) && |dir'| == |dir|
    requires forall i :: 0 <= i < |dir| && i in L.entOwner && L.entOwner[i].file != h ==> dir'[i] == dir[i]
    ensures forall h' :: h' in L.files && h' != h ==> FileOk(g, dir', h', L.files[h']) && h' < |dir| && dir'[h'] == dir[h']
  {
    forall h' | h' in L.files && h' != h
      ensures FileOk(g, dir', h', L.files[h']) && h' < |dir| && dir'[h'] == dir[h']
    {
      var f := L.files[h'];
      assert FileOk(g, dir, h', f);
      forall c | 0 <= c < |f.chain|
        ensures dir'[f.chain[c]] == dir[f.chain[c]]
      {
        assert L.entOwner[f.chain[c]] == Place(h', c);
      }
      FileFrame(g, dir, dir', h', f);
      assert f.chain[0] == h';
    }
  }

  // ----- creating a file -----

  function Created(L: Layout, i: nat): Layout {
    L.(files := L.files[i := File([i], [])], entOwner := L.entOwner[i := Place(i, 0)], torn := L.torn - {i})
  }

  lemma CreateKeeps(g: Geometry, dir: seq<Entry>, dir': seq<Entry>, L: Layout, i: nat, name: seq<byte>)
    requires Structure(g, dir, L) && i < g.entries && i !in L.entOwner && |name| == NAME_LENGTH
    requires dir' == dir[i := FreshName(name)]
    ensures i !in L.files
    ensures Structure(g, dir', Created(L, i))
  {
    if i in L.files {
      NameEntriesAreFiles(g, dir, L, i);
    }
    OtherFiles(g, dir, dir', L, i);
    CreatedOwned(L, i);
    FreshFile(g, dir', i, name);
  }

  lemma FreshFile(g: Geometry, dir: seq<Entry>, i: nat, name: seq<byte>)
    requires i < |dir| && |name| == NAME_LENGTH && dir[i] == FreshName(name)
    ensures FileOk(g, dir, i, File([i], [])) && !Deleted(dir[i])
  {
    FreshFacts(name, 0);
    assert EntryOk(dir[i], File([i], []), 0);
  }

  lemma CreatedOwned(L: Layout, i: nat)
    requires EntriesOwned(L) && SectorsOwned(L) && i !in L.entOwner && i !in L.files
    ensures EntriesOwned(Created(L, i)) && SectorsOwned(Created(L, i))
  {
    hide Created;
    CreatedEntries(L, i);
    CreatedSectors(L, i);
  }

  lemma CreatedEntries(L: Layout, i: nat)
    requires EntriesOwned(L) && i !in L.entOwner && i !in L.files
    ensures EntriesOwned(Created(L, i))
  {
  }

  lemma CreatedSectors(L: Layout, i: nat)
    requires SectorsOwned(L) && i !in L.files
    ensures SectorsOwned(Created(L, i))
  {
  }

  // ----- giving a file one more sector -----

  function Grown(L: Layout, h: nat, s: nat): Layout
    requires h in L.files
  {
    var f := L.files[h];
    L.(files := L.files[h := f.(secs := f.secs + [s])], secOwner := L.secOwner[s := Place(h, |f.secs|)])
  }

  lemma GrownOwned(L: Layout, h: nat, s: nat)
    requires EntriesOwned(L) && SectorsOwned(L) && h in L.files && s !in L.secOwner
    ensures EntriesOwned(Grown(L, h, s)) && SectorsOwned(Grown(L, h, s))
  {
  }

  /** A file's full entries read the same after the file got one more sector. */
  lemma FullEntryStays(e: Entry, f: File, c: nat, s: nat)
    requires EntryOk(e, f, c) && Base(c + 1) <= |f.secs|
    ensures EntryOk(e, f.(secs := f.secs + [s]), c)
  {
    assert Base(c) + MaxSectors(e) == Base(c + 1);
  }

  /**
   A change confined to the entries of file `h` leaves a sound directory sound, once `h` itself is in
   order and the live entries are the owned ones.
   */
  lemma Assemble(g: Geometry, dir: seq<Entry>, dir': seq<Entry>, L: Layout, L': Layout, h: nat)
    requires Structure(g, dir, L) && |dir'| == |dir| && h in L.files
    requires EntriesOwned(L') && SectorsOwned(L') && h in L'.files && L'.files == L.files[h := L'.files[h]]
    requires FileOk(g, dir', h, L'.files[h])
    requires forall i :: 0 <= i < |dir| ==> (!Deleted(dir'[i]) <==> i in L'.entOwner)
    requires forall i :: 0 <= i < |dir| && i in L.entOwner && L.entOwner[i].file != h ==> dir'[i] == dir[i]
    ensures Structure(g, dir', L')
  {
    hide FileOk, EntriesOwned, SectorsOwned, Deleted;
    OtherFiles(g, dir, dir', L, h);
  }

  /** A sector put into the next slot of a file's last entry. */
  lemma GrowInEntry(g: Geometry, dir: seq<Entry>, dir': seq<Entry>, L: Layout, h: nat, slot: nat, s: byte)
    requires Structure(g, dir, L) && h in L.files && s < g.sectors && s as int !in L.secOwner
    requires SlotFilled(dir, dir', L.files[h], slot, s)
    ensures Structure(g, dir', Grown(L, h, s))
  {
    var f := L.files[h];
    OwnedChainDistinct(L, h);
    LastEntrySlot(g, dir, h, f);
    GrownFile(g, dir, h, f, s);
    GrownOwned(L, h, s);
    SlotWrite(dir, f.chain[|f.chain| - 1], slot, s);
    Assemble(g, dir, dir', L, Grown(L, h, s), h);
  }

  /** `dir'` is `dir` with sector `s` in the next slot of the last entry of `f`. */
  ghost predicate SlotFilled(dir: seq<Entry>, dir': seq<Entry>, f: File, slot: nat, s: byte) {
    && f.chain != []
    && var last := f.chain[|f.chain| - 1];
    && |f.secs| == Base(|f.chain| - 1) + slot && |f.secs| < Base(|f.chain|)
    && last < |dir| && slot < 30
    && dir' == dir[last := SetByte(dir[last], slot, s)]
  }

  lemma SlotFilledBy(dir: seq<Entry>, f: File, last: byte, slot: byte, s: byte)
    requires f.chain != [] && last as int == f.chain[|f.chain| - 1] && (last as int) < |dir| && slot < 30
    requires |f.secs| == Base(|f.chain| - 1) + slot as int && |f.secs| < Base(|f.chain|)
    ensures SlotFilled(dir, SetEntry(dir, last, SetByte(dir[last], slot, s)), f, slot, s)
  {
  }

  lemma SlotRefilledBy(dir: seq<Entry>, f: File, last: byte, slot: byte, s: byte)
    requires f.chain != [] && last as int == f.chain[|f.chain| - 1] && (last as int) < |dir| && slot < 30
    requires Base(|f.chain| - 1) + slot as int < |f.secs|
    ensures SlotRefilled(dir, SetEntry(dir, last, SetByte(dir[last], slot, s)), f, slot, s)
  {
  }

  /** Filling a sector slot leaves flags alone, and in a name entry also name and size. */
  lemma SlotWrite(dir: seq<Entry>, last: nat, slot: nat, s: byte)
    requires last < |dir| && slot < MaxSectors(dir[last])
    ensures var dir' := dir[last := SetByte(dir[last], slot, s)];
      forall i :: 0 <= i < |dir| ==>
        (&& Deleted(dir'[i]) == Deleted(dir[i]) && IsList(dir'[i]) == IsList(dir[i])
         && (!IsList(dir[i]) ==> DescriptionOf(dir'[i]) == DescriptionOf(dir[i])))
  {
  }

  lemma LastEntrySlot(g: Geometry, dir: seq<Entry>, h: nat, f: File)
    requires FileOk(g, dir, h, f)
    ensures var c := |f.chain| - 1;
      && f.chain[c] < |dir| && EntryOk(dir[f.chain[c]], f, c)
      && MaxSectors(dir[f.chain[c]]) == Base(c + 1) - Base(c)
      && Base(c) <= |f.secs|
  {
    var c := |f.chain| - 1;
    assert EntryOk(dir[f.chain[c]], f, c);
  }

  lemma GrownFile(g: Geometry, dir: seq<Entry>, h: nat, f: File, s: byte)
    requires FileOk(g, dir, h, f) && ChainDistinct(f) && s < g.sectors && |f.secs| < Base(|f.chain|)
    ensures var last := f.chain[|f.chain| - 1];
      var slot := |f.secs| - Base(|f.chain| - 1);
      && last < |dir| && 0 <= slot < 30
      && FileOk(g, dir[last := SetByte(dir[last], slot, s)], h, f.(secs := f.secs + [s]))
  {
    var c := |f.chain| - 1;
    var last := f.chain[c];
    LastEntrySlot(g, dir, h, f);
    var slot := |f.secs| - Base(c);
    var e' := SetByte(dir[last], slot, s);
    var f' := f.(secs := f.secs + [s]);
    LastSlotFilled(dir[last], f, c, s);
    forall c' | 0 <= c' < |f.chain|
      ensures EntryOk(dir[last := e'][f.chain[c']], f', c')
    {
      if c' < c {
        BaseMonotone(c' + 1, c);
        FullEntryStays(dir[f.chain[c']], f, c', s);
      }
    }
  }

  lemma LastSlotFilled(e: Entry, f: File, c: nat, s: byte)
    requires EntryOk(e, f, c) && Base(c) <= |f.secs| < Base(c + 1)
    ensures EntryOk(e[|f.secs| - Base(c) := s], f.(secs := f.secs + [s]), c)
  {
  }

  // ----- a sector put over another one -----

  /** Sector `s` takes the place of the one at position `k` of file `h`, which is lost. */
  function Swapped(L: Layout, h: nat, k: nat, s: nat): Layout
    requires h in L.files && k < |L.files[h].secs|
  {
    var f := L.files[h];
    L.(files := L.files[h := f.(secs := f.secs[k := s])], secOwner := (L.secOwner - {f.secs[k]})[s := Place(h, k)],
       lost := L.lost + {f.secs[k]})
  }

  /** `dir'` is `dir` with sector `s` in slot `slot` of the last entry of `f`, which was in use. */
  ghost predicate SlotRefilled(dir: seq<Entry>, dir': seq<Entry>, f: File, slot: nat, s: byte) {
    && f.chain != []
    && var last := f.chain[|f.chain| - 1];
    && Base(|f.chain| - 1) + slot < |f.secs|
    && last < |dir| && slot < 30
    && dir' == dir[last := SetByte(dir[last], slot, s)]
  }

  lemma SwappedOwned(L: Layout, h: nat, k: nat, s: nat)
    requires EntriesOwned(L) && SectorsOwned(L) && h in L.files && k < |L.files[h].secs| && s !in L.secOwner
    ensures EntriesOwned(Swapped(L, h, k, s)) && SectorsOwned(Swapped(L, h, k, s))
    ensures L.files[h].secs[k] in L.secOwner
      && Swapped(L, h, k, s).secOwner.Keys == L.secOwner.Keys - {L.files[h].secs[k]} + {s}
  {
    var L', was := Swapped(L, h, k, s), L.files[h].secs[k];
    assert L.secOwner[was] == Place(h, k);
    forall h', k' | h' in L'.files && 0 <= k' < |L'.files[h'].secs|
      ensures L'.files[h'].secs[k'] in L'.secOwner && L'.secOwner[L'.files[h'].secs[k']] == Place(h', k')
    {
      assert L.secOwner[L.files[h'].secs[k']] == Place(h', k');
    }
  }

  lemma SwappedFile(g: Geometry, dir: seq<Entry>, dir': seq<Entry>, h: nat, f: File, slot: nat, s: byte)
    requires FileOk(g, dir, h, f) && ChainDistinct(f) && s < g.sectors && SlotRefilled(dir, dir', f, slot, s)
    ensures FileOk(g, dir', h, f.(secs := f.secs[Base(|f.chain| - 1) + slot := s]))
    ensures slot < MaxSectors(dir[f.chain[|f.chain| - 1]])
  {
    var c := |f.chain| - 1;
    LastEntrySlot(g, dir, h, f);
    var f' := f.(secs := f.secs[Base(c) + slot := s]);
    forall c' | 0 <= c' < |f.chain|
      ensures EntryOk(dir'[f.chain[c']], f', c')
    {
      if c' < c {
        BaseMonotone(c' + 1, c);
        BeforeSlot(dir[f.chain[c']], f, c', Base(c) + slot, s);
      } else {
        AtSlot(dir[f.chain[c]], f, c, slot, s);
      }
    }
  }

  lemma BeforeSlot(e: Entry, f: File, c: nat, k: nat, s: byte)
    requires EntryOk(e, f, c) && Base(c + 1) <= k < |f.secs|
    ensures EntryOk(e, f.(secs := f.secs[k := s]), c)
  {
  }

  lemma AtSlot(e: Entry, f: File, c: nat, slot: nat, s: byte)
    requires EntryOk(e, f, c) && slot < MaxSectors(e) && Base(c) + slot < |f.secs|
    ensures EntryOk(SetByte(e, slot, s), f.(secs := f.secs[Base(c) + slot := s]), c)
  {
  }

  /** A sector put over one in use leaves a sound directory, in which the one that was there is missing. */
  lemma SwapKeeps(g: Geometry, dir: seq<Entry>, dir': seq<Entry>, L: Layout, h: nat, slot: nat, s: byte)
    requires Structure(g, dir, L) && h in L.files && s < g.sectors && s as int !in L.secOwner
    requires SlotRefilled(dir, dir', L.files[h], slot, s)
    ensures Structure(g, dir', Swapped(L, h, Base(|L.files[h].chain| - 1) + slot, s))
  {
    hide FileOk, EntryOk, Swapped, DescriptionOf, Deleted, IsList, EntriesOwned, SectorsOwned, Base, SlotRefilled;
    var k := RefilledAt(g, dir, dir', L, h, slot, s);
    var f := L.files[h];
    var last := f.chain[|f.chain| - 1];
    OwnedChainDistinct(L, h);
    SwappedFile(g, dir, dir', h, f, slot, s);
    SwappedOwned(L, h, k, s);
    SwappedParts(L, h, k, s);
    LastEntryFacts(g, dir, L, h);
    SlotWrite(dir, last, slot, s);
    Assemble(g, dir, dir', L, Swapped(L, h, k, s), h);
  }

  lemma SwapKeepsDescriptions(g: Geometry, dir: seq<Entry>, dir': seq<Entry>, L: Layout, h: nat, slot: nat, s: byte)
    requires Structure(g, dir, L) && h in L.files && SlotRefilled(dir, dir', L.files[h], slot, s)
    ensures forall k :: 0 <= k < |dir| && k in L.files ==> DescriptionOf(dir'[k]) == DescriptionOf(dir[k])
  {
    hide Structure, FileOk, Deleted, DescriptionOf;
    StructureIndexed(g, dir, L);
    LastEntryFacts(g, dir, L, h);
    SlotWrite(dir, L.files[h].chain[|L.files[h].chain| - 1], slot, s);
  }

  lemma SwappedParts(L: Layout, h: nat, k: nat, s: nat)
    requires h in L.files && k < |L.files[h].secs|
    ensures var L', f := Swapped(L, h, k, s), L.files[h];
      && h in L'.files && L'.files[h] == f.(secs := f.secs[k := s]) && L'.files == L.files[h := L'.files[h]]
      && L'.entOwner == L.entOwner && L'.lost == L.lost + {f.secs[k]} && L'.torn == L.torn
  {
  }

  /**
   The sector that another one was put over is listed nowhere, and the next start-up scan takes it for free. That
   is what becomes of a file whose handle takes an earlier slot for the last one used.
   */
  lemma AppendOverwrites(g: Geometry, dir: seq<Entry>, dir': seq<Entry>, L: Layout, h: nat, slot: nat, s: byte)
    requires Structure(g, dir, L) && h in L.files && s < g.sectors && s as int !in L.secOwner
    requires SlotRefilled(dir, dir', L.files[h], slot, s)
    ensures var was := L.files[h].secs[Base(|L.files[h].chain| - 1) + slot]; Listed(dir, was) && !Listed(dir', was)
  {
    hide Structure, EntriesOwned, SectorsOwned, Listed, FileOk, EntryOk, Swapped, SlotRefilled;
    var k := RefilledAt(g, dir, dir', L, h, slot, s);
    SwapKeeps(g, dir, dir', L, h, slot, s);
    SwappedAway(g, dir, L, h, k, s);
    SectorInRange(g, dir, L, L.files[h].secs[k]);
    ScanFindsOwned(g, dir, L, L.files[h].secs[k]);
    ScanFindsOwned(g, dir', Swapped(L, h, k, s), L.files[h].secs[k]);
  }

  lemma RefilledAt(g: Geometry, dir: seq<Entry>, dir': seq<Entry>, L: Layout, h: nat, slot: nat,
      s: byte) returns (k: nat)
    requires Structure(g, dir, L) && h in L.files && SlotRefilled(dir, dir', L.files[h], slot, s)
    ensures L.files[h].chain != [] && k == Base(|L.files[h].chain| - 1) + slot < |L.files[h].secs|
    ensures L.files[h].chain[|L.files[h].chain| - 1] < |dir| && slot < 30
    ensures dir' == dir[L.files[h].chain[|L.files[h].chain| - 1] := SetByte(dir[L.files[h].chain[|L.files[h].chain| - 1]], slot, s)]
  {
    k := Base(|L.files[h].chain| - 1) + slot;
  }

  lemma SwappedAway(g: Geometry, dir: seq<Entry>, L: Layout, h: nat, k: nat, s: nat)
    requires Structure(g, dir, L) && h in L.files && k < |L.files[h].secs| && s !in L.secOwner
    ensures L.files[h].secs[k] in L.secOwner && L.files[h].secs[k] !in Swapped(L, h, k, s).secOwner
  {
    SwappedOwned(L, h, k, s);
  }

  // ----- giving a file one more list entry -----

  /** The layout once entry `n` is chained behind file `h`, still without sectors. */
  function Chained(L: Layout, h: nat, n: nat): Layout
    requires h in L.files
  {
    var f := L.files[h];
    L.(files := L.files[h := f.(chain := f.chain + [n])], entOwner := L.entOwner[n := Place(h, |f.chain|)])
  }

  /** A file with one more entry and one more sector. */
  function Lengthened(f: File, n: nat, s: nat): File {
    File(f.chain + [n], f.secs + [s])
  }

  function Extended(L: Layout, h: nat, n: nat, s: nat): Layout
    requires h in L.files
  {
    Grown(Chained(L, h, n), h, s)
  }

  lemma ChainedOwned(L: Layout, h: nat, n: nat)
    requires EntriesOwned(L) && SectorsOwned(L) && h in L.files && n !in L.entOwner
    ensures EntriesOwned(Chained(L, h, n)) && SectorsOwned(Chained(L, h, n))
  {
  }

  /** `dir'` is `dir` with a new list entry `n`, holding `s`, linked behind the last entry of `f`. */
  ghost predicate EntryLinked(dir: seq<Entry>, dir': seq<Entry>, f: File, n: byte, s: byte) {
    && f.chain != []
    && |f.secs| == Base(|f.chain|)
    && var last := f.chain[|f.chain| - 1];
    && last < |dir| && n as int < |dir| && last != n as int
    && dir' == dir[last := SetByte(dir[last], 31, n)][n as int := FreshList(s)]
  }

  lemma EntryLinkedBy(dir: seq<Entry>, f: File, last: byte, n: byte, s: byte)
    requires f.chain != [] && last as int == f.chain[|f.chain| - 1] && (last as int) < |dir|
    requires |f.secs| == Base(|f.chain|) && (n as int) < |dir| && last != n
    ensures EntryLinked(dir, SetEntry(SetEntry(dir, last, SetByte(dir[last], 31, n)), n, SetByte(SetByte(ErasedEntry(), 30, 2), 0, s)),
      f, n, s)
  {
  }

  lemma ExtendedFile(g: Geometry, dir: seq<Entry>, dir': seq<Entry>, h: nat, f: File, n: byte, s: byte)
    requires FileOk(g, dir, h, f) && ChainDistinct(f) && s < g.sectors && n as int !in f.chain
    requires EntryLinked(dir, dir', f, n, s)
    ensures FileOk(g, dir', h, Lengthened(f, n, s))
  {
    var c := |f.chain| - 1;
    var f' := Lengthened(f, n, s);
    forall c' | 0 <= c' < |f'.chain|
      ensures EntryOk(dir'[f'.chain[c']], f', c')
    {
      if c' <= c {
        assert EntryOk(dir[f.chain[c']], f, c');
        BaseMonotone(c' + 1, c + 1);
        FullEntryLinks(dir[f.chain[c']], f, c', n, s);
      } else {
        NewListEntry(f, n, s);
      }
    }
  }

  lemma FullEntryLinks(e: Entry, f: File, c: nat, n: byte, s: byte)
    requires EntryOk(e, f, c) && Base(c + 1) <= |f.secs| && c < |f.chain|
    ensures EntryOk(if c == |f.chain| - 1 then e[31 := n] else e, Lengthened(f, n, s), c)
  {
  }

  lemma NewListEntry(f: File, n: byte, s: byte)
    requires f.chain != [] && |f.secs| == Base(|f.chain|)
    ensures EntryOk(FreshList(s), Lengthened(f, n, s), |f.chain|)
  {
    FreshFacts(ErasedEntry()[..NAME_LENGTH], s);
  }

  /** Linking an entry leaves the flags, names and sizes of every other entry alone. */
  lemma LinkWrite(dir: seq<Entry>, dir': seq<Entry>, f: File, n: byte, s: byte)
    requires EntryLinked(dir, dir', f, n, s)
    ensures forall i :: 0 <= i < |dir| && i != n as int ==>
      (&& Deleted(dir'[i]) == Deleted(dir[i]) && IsList(dir'[i]) == IsList(dir[i])
       && DescriptionOf(dir'[i]) == DescriptionOf(dir[i]))
    ensures forall i :: 0 <= i < |dir| && i != n as int && i != f.chain[|f.chain| - 1] ==> dir'[i] == dir[i]
    ensures !Deleted(dir'[n]) && IsList(dir'[n])
  {
    FreshFacts(ErasedEntry()[..NAME_LENGTH], s);
  }

  /** A sector put into a new list entry behind a file whose entries are all full. */
  lemma GrowNewEntry(g: Geometry, dir: seq<Entry>, dir': seq<Entry>, L: Layout, h: nat, n: byte, s: byte)
    requires Structure(g, dir, L) && h in L.files && s < g.sectors && s as int !in L.secOwner
    requires n as int !in L.entOwner && EntryLinked(dir, dir', L.files[h], n, s)
    ensures Structure(g, dir', Extended(L, h, n, s))
  {
    var f := L.files[h];
    OwnedChainDistinct(L, h);
    ChainMembers(L, h, n);
    ExtendedFile(g, dir, dir', h, f, n, s);
    ExtendedOwned(L, h, n, s);
    LinkWrite(dir, dir', f, n, s);
    ExtendedOthers(g, dir, dir', L, h, n, s);
    FinishExtended(g, dir, dir', L, Extended(L, h, n, s), h, n);
  }

  lemma ExtendedOwned(L: Layout, h: nat, n: nat, s: nat)
    requires EntriesOwned(L) && SectorsOwned(L) && h in L.files && n !in L.entOwner && s !in L.secOwner
    ensures var L' := Extended(L, h, n, s);
      && EntriesOwned(L') && SectorsOwned(L')
      && L'.files == L.files[h := Lengthened(L.files[h], n, s)]
      && L'.entOwner.Keys == L.entOwner.Keys + {n}
  {
    ChainedOwned(L, h, n);
    GrownOwned(Chained(L, h, n), h, s);
  }

  lemma ExtendedOthers(g: Geometry, dir: seq<Entry>, dir': seq<Entry>, L: Layout, h: nat, n: byte, s: byte)
    requires Structure(g, dir, L) && h in L.files
    requires n as int !in L.entOwner && EntryLinked(dir, dir', L.files[h], n, s)
    ensures forall h' :: h' in L.files && h' != h ==> FileOk(g, dir', h', L.files[h'])
  {
    var f := L.files[h];
    LinkWrite(dir, dir', f, n, s);
    ChainMembers(L, h, f.chain[|f.chain| - 1]);
    OtherFiles(g, dir, dir', L, h);
  }

  lemma FinishExtended(g: Geometry, dir: seq<Entry>, dir': seq<Entry>, L: Layout, L': Layout, h: nat, n: nat)
    requires |dir| == |dir'| == g.entries && h in L.files && n < |dir|
    requires EntriesOwned(L') && SectorsOwned(L')
    requires h in L'.files && L'.files == L.files[h := L'.files[h]]
    requires L'.entOwner.Keys == L.entOwner.Keys + {n}
    requires forall i :: 0 <= i < |dir| ==> (!Deleted(dir[i]) <==> i in L.entOwner)
    requires forall i :: 0 <= i < |dir| && i != n ==> Deleted(dir'[i]) == Deleted(dir[i])
    requires !Deleted(dir'[n])
    requires FileOk(g, dir', h, L'.files[h])
    requires forall h' :: h' in L.files && h' != h ==> FileOk(g, dir', h', L.files[h'])
    ensures Structure(g, dir', L')
  {
  }

  // ----- changing the descriptive part of a name entry -----

  /** New name or size bytes in an entry change nothing about chains and sectors. */
  lemma DescribeKeeps(g: Geometry, dir: seq<Entry>, dir': seq<Entry>, L: Layout, h: nat, e: Entry)
    requires Structure(g, dir, L) && h in L.files && h < |dir| && dir' == dir[h := e]
    requires SameLinks(dir[h], e)
    ensures Structure(g, dir', L)
  {
    hide SectorsOwned;
    var f := L.files[h];
    assert FileOk(g, dir, h, f);
    assert L.entOwner[f.chain[0]] == Place(h, 0);
    assert EntryOk(dir[h], f, 0);
    forall c | 0 <= c < |f.chain|
      ensures EntryOk(dir'[f.chain[c]], f, c)
    {
      assert L.entOwner[f.chain[c]] == Place(h, c);
      assert EntryOk(dir[f.chain[c]], f, c);
    }
    assert FileOk(g, dir', h, f);
    Assemble(g, dir, dir', L, L, h);
  }

  /** The two entries agree on the name entry's sector slots, the flags and the link. */
  ghost predicate SameLinks(d: Entry, e: Entry) {
    && (forall i :: 0 <= i < NAME_SECTORS ==> e[i] == d[i])
    && e[30] == d[30] && e[31] == d[31]
  }

  lemma DescribeFacts(e: Entry, name: seq<byte>, size: nat)
    requires |name| == NAME_LENGTH && size < 65536
    ensures SameLinks(e, WithName(e, name)) && SameLinks(e, WithSize(e, size))
    ensures Name(WithName(e, name)) == name && Size(WithName(e, name)) == Size(e)
    ensures Name(WithSize(e, size)) == Name(e) && Size(WithSize(e, size)) == size
  {
  }

  // ----- removing a file -----

  function Removed(L: Layout, h: nat): Layout {
    Layout(
      L.files - {h},
      map i | i in L.entOwner && L.entOwner[i].file != h :: L.entOwner[i],
      map s | s in L.secOwner && L.secOwner[s].file != h :: L.secOwner[s],
      L.lost, L.torn - {h})
  }

  lemma RemovedOwned(L: Layout, h: nat)
    requires EntriesOwned(L) && SectorsOwned(L)
    ensures EntriesOwned(Removed(L, h)) && SectorsOwned(Removed(L, h))
  {
    hide Removed;
    RemovedEntries(L, h);
    RemovedSectors(L, h);
  }

  lemma RemovedEntries(L: Layout, h: nat)
    requires EntriesOwned(L)
    ensures EntriesOwned(Removed(L, h))
  {
  }

  lemma RemovedSectors(L: Layout, h: nat)
    requires SectorsOwned(L)
    ensures SectorsOwned(Removed(L, h))
  {
  }

  lemma ChainMembers(L: Layout, h: nat, i: nat)
    requires EntriesOwned(L) && h in L.files
    ensures i in L.files[h].chain <==> i in L.entOwner && L.entOwner[i].file == h
  {
    if i in L.files[h].chain {
      var c :| 0 <= c < |L.files[h].chain| && L.files[h].chain[c] == i;
      assert L.entOwner[L.files[h].chain[c]] == Place(h, c);
    }
  }

  lemma RemoveKeeps(g: Geometry, dir: seq<Entry>, dir': seq<Entry>, L: Layout, h: nat)
    requires Structure(g, dir, L) && h in L.files
    requires ErasedIn(dir, dir', L.files[h].chain)
    ensures Structure(g, dir', Removed(L, h))
  {
    forall i | 0 <= i < |dir|
      ensures dir'[i] == if i in L.entOwner && L.entOwner[i].file == h then ErasedEntry() else dir[i]
    {
      ChainMembers(L, h, i);
    }
    OtherFiles(g, dir, dir', L, h);
    FinishRemoved(g, dir, dir', L, h);
  }

  lemma FinishRemoved(g: Geometry, dir: seq<Entry>, dir': seq<Entry>, L: Layout, h: nat)
    requires |dir| == |dir'| == g.entries && EntriesOwned(L) && SectorsOwned(L)
    requires forall i :: 0 <= i < |dir| ==> (!Deleted(dir[i]) <==> i in L.entOwner)
    requires forall i :: 0 <= i < |dir| ==>
      dir'[i] == if i in L.entOwner && L.entOwner[i].file == h then ErasedEntry() else dir[i]
    requires forall h' :: h' in L.files && h' != h ==> FileOk(g, dir', h', L.files[h'])
    ensures Structure(g, dir', Removed(L, h))
  {
    ErasedIsDeleted();
    RemovedOwned(L, h);
  }

  function Elements(q: seq<nat>): set<nat> {
    set x | x in q
  }

  /** Removing a file takes exactly its sectors out of the owned ones. */
  lemma RemovedCount(L: Layout, h: nat)
    requires SectorsOwned(L) && h in L.files
    ensures |L.secOwner| == |Removed(L, h).secOwner| + |L.files[h].secs|
  {
    hide SectorsOwned;
    var secs := L.files[h].secs;
    SectorsOf(L, h);
    DistinctCount(secs);
    var rest := Removed(L, h).secOwner.Keys;
    assert L.secOwner.Keys == rest + Elements(secs);
    DisjointCount(rest, Elements(secs));
  }

  lemma SectorsOf(L: Layout, h: nat)
    requires SectorsOwned(L) && h in L.files
    ensures forall j, k :: 0 <= j < k < |L.files[h].secs| ==> L.files[h].secs[j] != L.files[h].secs[k]
    ensures forall s :: s in Elements(L.files[h].secs) <==> s in L.secOwner && L.secOwner[s].file == h
  {
    var secs := L.files[h].secs;
    forall j, k | 0 <= j < k < |secs|
      ensures secs[j] != secs[k]
    {
      assert L.secOwner[secs[j]] == Place(h, j) && L.secOwner[secs[k]] == Place(h, k);
    }
    forall s | s in secs
      ensures s in L.secOwner && L.secOwner[s].file == h
    {
      var k :| 0 <= k < |secs| && secs[k] == s;
      assert L.secOwner[secs[k]] == Place(h, k);
    }
  }

  lemma HeldRemoved(L: Layout, h: nat)
    requires SectorsOwned(L) && h in L.files && L.lost !! L.secOwner.Keys
    ensures |Held(L)| == |Held(Removed(L, h))| + |L.files[h].secs|
  {
    hide SectorsOwned;
    RemovedCount(L, h);
    DisjointCount(L.secOwner.Keys, L.lost);
    DisjointCount(Removed(L, h).secOwner.Keys, L.lost);
  }

  lemma DisjointCount(a: set<nat>, b: set<nat>)
    requires a !! b
    ensures |a + b| == |a| + |b|
  {
  }

  lemma {:induction false} DistinctCount(q: seq<nat>)
    requires forall j, k :: 0 <= j < k < |q| ==> q[j] != q[k]
    ensures |Elements(q)| == |q|
  {
    if q != [] {
      var init, x := q[..|q| - 1], q[|q| - 1];
      DistinctCount(init);
      assert q == init + [x];
      assert Elements(q) == Elements(init) + {x};
      assert x !in Elements(init);
    }
  }

  // ----- what a user of the file system sees -----

  /** Names, recorded sizes and sector contents of the files, by the number of their name entry. */
  datatype View = View(names: map<nat, seq<byte>>, sizes: map<nat, nat>, contents: map<nat, seq<byte>>)

  ghost predicate Within(secs: seq<nat>, n: nat) {
    forall k :: 0 <= k < |secs| ==> secs[k] < n
  }

  ghost function NamesOf(dir: seq<Entry>, L: Layout): map<nat, seq<byte>> {
    map h | h in L.files && h < |dir| :: Name(dir[h])
  }

  ghost function SizesOf(dir: seq<Entry>, L: Layout): map<nat, nat> {
    map h | h in L.files && h < |dir| :: Size(dir[h])
  }

  ghost function ContentsOf(data: seq<seq<byte>>, L: Layout): map<nat, seq<byte>> {
    map h | h in L.files && Within(L.files[h].secs, |data|) :: Flat(data, L.files[h].secs)
  }

  ghost predicate NamesUnique(names: map<nat, seq<byte>>) {
    forall h, k :: h in names && k in names && names[h] == names[k] ==> h == k
  }

  /** No recorded size exceeds what the file's sectors hold, except for torn files, which have at least one. */
  ghost predicate SizesFit(z: nat, sizes: map<nat, nat>, L: Layout) {
    forall h :: h in sizes && h in L.files ==>
      if h in L.torn then L.files[h].secs != [] else sizes[h] <= Times(z, |L.files[h].secs|)
  }

  /** A size that may be recorded for file `h`. */
  ghost predicate SizeFits(z: nat, size: nat, L: Layout, h: nat) {
    h in L.files && if h in L.torn then L.files[h].secs != [] else size <= Times(z, |L.files[h].secs|)
  }

  /** The layouts differ at most in whether file `h` is torn. */
  ghost predicate TornOnly(L: Layout, L': Layout, h: nat) {
    L' == L.(torn := L'.torn) && forall k :: k != h ==> (k in L'.torn <==> k in L.torn)
  }

  lemma ViewDomains(g: Geometry, dir: seq<Entry>, data: seq<seq<byte>>, L: Layout)
    requires Structure(g, dir, L) && |data| == g.sectors
    ensures NamesOf(dir, L).Keys == SizesOf(dir, L).Keys == ContentsOf(data, L).Keys == L.files.Keys
  {
    hide EntryOk, Deleted, EntriesOwned;
    forall h | h in L.files
      ensures h < |dir| && Within(L.files[h].secs, |data|)
    {
      assert FileOk(g, dir, h, L.files[h]);
      assert L.files[h].chain[0] == h;
    }
  }

  /** Writing into one file's sector, or adding a sector to a file, shows in that file's contents only. */
  lemma ContentsFrame(g: Geometry, data: seq<seq<byte>>, data': seq<seq<byte>>, L: Layout, h: nat, s: nat)
    requires SectorsOwned(L) && h in L.files && |data| == |data'|
    requires s in L.secOwner && L.secOwner[s].file == h
    requires forall t :: 0 <= t < |data| && t != s ==> data'[t] == data[t]
    ensures forall h' :: h' in L.files && h' != h && Within(L.files[h'].secs, |data|) ==>
      Flat(data', L.files[h'].secs) == Flat(data, L.files[h'].secs)
  {
    forall h' | h' in L.files && h' != h && Within(L.files[h'].secs, |data|)
      ensures Flat(data', L.files[h'].secs) == Flat(data, L.files[h'].secs)
    {
      var secs := L.files[h'].secs;
      forall k | 0 <= k < |secs|
        ensures secs[k] != s
      {
        assert L.secOwner[secs[k]] == Place(h', k);
      }
      FlatFrame(data, data', secs);
    }
  }

  /** Giving file `h` sector `s` appends that sector's bytes to it and shows nowhere else. */
  lemma GrowView(g: Geometry, dir: seq<Entry>, dir': seq<Entry>, data: seq<seq<byte>>, L: Layout, L': Layout,
      h: nat, s: nat)
    requires Structure(g, dir, L) && |dir'| == |dir| && |data| == g.sectors
    requires h in L.files && h in L'.files && s < g.sectors
    requires L'.files == L.files[h := File(L'.files[h].chain, L.files[h].secs + [s])]
    requires forall k :: 0 <= k < |dir| && k in L.files ==> DescriptionOf(dir'[k]) == DescriptionOf(dir[k])
    ensures NamesOf(dir', L') == NamesOf(dir, L) && SizesOf(dir', L') == SizesOf(dir, L)
    ensures h in ContentsOf(data, L)
    ensures ContentsOf(data, L') == ContentsOf(data, L)[h := ContentsOf(data, L)[h] + data[s]]
  {
    hide *;
    ViewDomains(g, dir, data, L);
    DescriptionsView(dir, dir', L, L');
    GrowContents(data, L, L', h, s);
  }

  lemma DescriptionsView(dir: seq<Entry>, dir': seq<Entry>, L: Layout, L': Layout)
    requires |dir'| == |dir| && L'.files.Keys == L.files.Keys
    requires forall k :: 0 <= k < |dir| && k in L.files ==> DescriptionOf(dir'[k]) == DescriptionOf(dir[k])
    ensures NamesOf(dir', L') == NamesOf(dir, L) && SizesOf(dir', L') == SizesOf(dir, L)
  {
  }

  lemma GrowContents(data: seq<seq<byte>>, L: Layout, L': Layout, h: nat, s: nat)
    requires h in ContentsOf(data, L) && h in L'.files && s < |data|
    requires L'.files == L.files[h := File(L'.files[h].chain, L.files[h].secs + [s])]
    ensures ContentsOf(data, L') == ContentsOf(data, L)[h := ContentsOf(data, L)[h] + data[s]]
  {
    FlatAppend(data, L.files[h].secs, s);
  }

  lemma GrowSizesFit(g: Geometry, sizes: map<nat, nat>, L: Layout, L': Layout, h: nat, s: nat)
    requires SizesFit(g.sectorSize, sizes, L)
    requires h in L.files && h in L'.files
    requires L'.files == L.files[h := File(L'.files[h].chain, L.files[h].secs + [s])] && L'.torn == L.torn
    ensures SizesFit(g.sectorSize, sizes, L')
  {
  }

  lemma LastSectorAlone(g: Geometry, dir: seq<Entry>, L: Layout, h: nat)
    requires Structure(g, dir, L) && h in L.files && L.files[h].secs != []
    ensures SectorsOwned(L)
    ensures var secs := L.files[h].secs;
      && (forall k :: 0 <= k < |secs| - 1 ==> secs[k] != secs[|secs| - 1])
      && secs[|secs| - 1] in L.secOwner && L.secOwner[secs[|secs| - 1]].file == h
  {
    var secs := L.files[h].secs;
    forall k | 0 <= k < |secs| - 1
      ensures secs[k] != secs[|secs| - 1]
    {
      NoSharing(g, dir, L, h, k, h, |secs| - 1);
    }
    assert L.secOwner[secs[|secs| - 1]] == Place(h, |secs| - 1);
  }

  // ----- the bitmaps and the counter kept in memory -----

  /** Layout `L'` is `L` with sector `s` appended to file `h`. */
  ghost predicate GrownBy(g: Geometry, L: Layout, L': Layout, h: nat, s: nat) {
    && h in L.files && h in L'.files && s < g.sectors
    && L'.files == L.files[h := File(L'.files[h].chain, L.files[h].secs + [s])]
    && L'.secOwner.Keys == L.secOwner.Keys + {s} && L'.lost == L.lost && L'.torn == L.torn
    && L.files[h].chain <= L'.files[h].chain
  }

  /** View `v'` is `v` with `bytes` appended to the contents of file `h`. */
  ghost predicate ViewGrown(v: View, v': View, h: nat, bytes: seq<byte>) {
    && h in v.contents
    && v' == v.(contents := v.contents[h := v.contents[h] + bytes])
  }

  lemma GrownByFacts(g: Geometry, L: Layout, h: nat, n: nat, s: nat)
    requires h in L.files && s < g.sectors
    ensures GrownBy(g, L, Grown(L, h, s), h, s)
    ensures GrownBy(g, L, Extended(L, h, n, s), h, s)
    ensures Grown(L, h, s).entOwner == L.entOwner
    ensures Extended(L, h, n, s).entOwner.Keys == L.entOwner.Keys + {n}
    ensures Extended(L, h, n, s).files[h].chain == L.files[h].chain + [n]
    ensures Grown(L, h, s).files[h].chain == L.files[h].chain
  {
  }

  /** `us'` and `n'` book sector `s` on top of `us` and `n`. */
  ghost predicate Booked(g: Geometry, us: seq<byte>, n: nat, us': seq<byte>, n': nat, s: nat) {
    && |us'| == |us| == (g.sectors + 7) / 8 && n == n' + 1
    && forall t: nat :: t < g.sectors ==> GetBit(us', t) == (t == s || GetBit(us, t))
  }

  /** `ue'` marks entry `e` as used on top of `ue`. */
  ghost predicate BookedEntry(g: Geometry, ue: seq<byte>, ue': seq<byte>, e: nat) {
    && |ue'| == |ue| == (g.entries + 7) / 8
    && forall i: nat :: i < g.entries ==> GetBit(ue', i) == (i == e || GetBit(ue, i))
  }

  /** After growing a file the views, the names, the sizes and the bookkeeping are as they should be. */
  lemma GrowResult(g: Geometry, dir: seq<Entry>, dir': seq<Entry>, data: seq<seq<byte>>, L: Layout, L': Layout,
      h: nat, s: nat)
    requires Structure(g, dir, L) && |dir'| == |dir| && |data| == g.sectors && GrownBy(g, L, L', h, s)
    requires forall k :: 0 <= k < |dir| && k in L.files ==> DescriptionOf(dir'[k]) == DescriptionOf(dir[k])
    requires NamesUnique(NamesOf(dir, L)) && SizesFit(g.sectorSize, SizesOf(dir, L), L)
    ensures ViewGrown(View(NamesOf(dir, L), SizesOf(dir, L), ContentsOf(data, L)),
                      View(NamesOf(dir', L'), SizesOf(dir', L'), ContentsOf(data, L')), h, data[s])
    ensures NamesUnique(NamesOf(dir', L')) && SizesFit(g.sectorSize, SizesOf(dir', L'), L')
  {
    hide Structure, NamesOf, SizesOf, DescriptionOf, ContentsOf, NamesUnique, SizesFit;
    GrowView(g, dir, dir', data, L, L', h, s);
    GrowSizesFit(g, SizesOf(dir, L), L, L', h, s);
  }

  /** What the memory copies say about the stored directory. */
  ghost predicate Bookkeeping(g: Geometry, L: Layout, usedSectors: seq<byte>, usedEntries: seq<byte>,
      freeSectors: nat) {
    && |usedSectors| == (g.sectors + 7) / 8 && |usedEntries| == (g.entries + 7) / 8
    && (forall s: nat :: s < g.sectors ==> (GetBit(usedSectors, s) <==> s in Held(L)))
    && (forall i: nat :: i < g.entries && i in L.entOwner ==> GetBit(usedEntries, i))
    && freeSectors + |Held(L)| == g.sectors
    && (forall s :: s in L.lost ==> s < g.sectors && s !in L.secOwner)
  }

  /** The sectors that are marked as used: those of the files, and those lost from them. */
  ghost function Held(L: Layout): set<nat> { L.secOwner.Keys + L.lost }

  /** Two descriptions of one sound directory agree on every sector and on the number of free ones. */
  lemma BookkeepingUnique(g: Geometry, L: Layout, us: seq<byte>, ue: seq<byte>, n: nat, us': seq<byte>,
      ue': seq<byte>, n': nat)
    requires Bookkeeping(g, L, us, ue, n) && Bookkeeping(g, L, us', ue', n')
    ensures n == n' && forall s: nat :: s < g.sectors ==> GetBit(us, s) == GetBit(us', s)
  {
  }

  lemma AllOwned(g: Geometry, L: Layout, usedSectors: seq<byte>, usedEntries: seq<byte>, freeSectors: nat)
    requires Bookkeeping(g, L, usedSectors, usedEntries, freeSectors)
    requires forall s: nat :: s < g.sectors ==> GetBit(usedSectors, s)
    ensures freeSectors == 0
  {
    FullCount(g.sectors, Held(L));
  }

  lemma {:induction false} FullCount(n: nat, a: set<nat>)
    requires forall s: nat :: s < n ==> s in a
    ensures |a| >= n
  {
    if n > 0 {
      FullCount(n - 1, a - {n - 1});
    }
  }

  /** A sector whose bit is clear is owned by nobody, and the counter is not yet zero. */
  lemma FreeSectorFacts(g: Geometry, dir: seq<Entry>, L: Layout, us: seq<byte>, ue: seq<byte>, n: nat, s: nat)
    requires Structure(g, dir, L) && Bookkeeping(g, L, us, ue, n)
    requires s < g.sectors && !GetBit(us, s)
    ensures s !in Held(L) && n > 0
  {
    hide Structure;
    forall t | t in L.secOwner
      ensures t < g.sectors
    {
      SectorInRange(g, dir, L, t);
    }
    BelowCount(g.sectors, Held(L) + {s});
    assert |Held(L) + {s}| == |Held(L)| + 1;
  }

  lemma {:induction false} BelowCount(n: nat, a: set<nat>)
    requires forall x :: x in a ==> x < n
    ensures |a| <= n
  {
    if n > 0 {
      BelowCount(n - 1, a - {n - 1});
    } else {
      assert a == {};
    }
  }

  /** Booking one more sector, and possibly one more entry. */
  lemma BookGrown(g: Geometry, L: Layout, L': Layout, us: seq<byte>, ue: seq<byte>, n: nat,
                  us': seq<byte>, ue': seq<byte>, n': nat, s: nat)
    requires Bookkeeping(g, L, us, ue, n) && s < g.sectors && s !in Held(L)
    requires L'.secOwner.Keys == L.secOwner.Keys + {s} && L'.lost == L.lost
    requires |ue'| == |ue| && Booked(g, us, n, us', n', s)
    requires forall i: nat :: i < g.entries && i in L'.entOwner ==> GetBit(ue', i)
    ensures Bookkeeping(g, L', us', ue', n')
  {
    assert Held(L') == Held(L) + {s};
  }

  /** The last entry of a file's chain, and how full it is. */
  lemma LastEntryFacts(g: Geometry, dir: seq<Entry>, L: Layout, h: nat)
    requires Structure(g, dir, L) && h in L.files
    ensures var f := L.files[h];
      && f.chain != [] && h < |dir|
      && var c := |f.chain| - 1;
      && f.chain[c] < |dir| && MaxSectors(dir[f.chain[c]]) == Base(c + 1) - Base(c)
      && f.chain[c] in L.entOwner && f.chain[c] < g.entries
      && Base(c) <= |f.secs| <= Base(c + 1)
      && (f.secs == [] ==> c == 0)
      && (forall k :: 0 <= k < |f.secs| ==> f.secs[k] < g.sectors)
  {
    var f := L.files[h];
    assert FileOk(g, dir, h, f);
    LastEntrySlot(g, dir, h, f);
    assert f.chain[0] == h;
  }

  lemma FilesOwned(g: Geometry, dir: seq<Entry>, L: Layout)
    requires Structure(g, dir, L)
    ensures forall h :: h in L.files ==> h in L.entOwner
  {
    forall h | h in L.files
      ensures h in L.entOwner
    {
      assert FileOk(g, dir, h, L.files[h]) && L.entOwner[L.files[h].chain[0]] == Place(h, 0);
    }
  }

  /** Both ways of growing a file leave every name and size as it was. */
  lemma GrowKeepsDescriptions(g: Geometry, dir: seq<Entry>, dir': seq<Entry>, L: Layout, h: nat, n: byte,
      slot: nat, s: byte)
    requires Structure(g, dir, L) && h in L.files
    requires SlotFilled(dir, dir', L.files[h], slot, s) || (EntryLinked(dir, dir', L.files[h], n, s) && n as int !in L.entOwner)
    ensures |dir'| == |dir|
    ensures forall k :: 0 <= k < |dir| && k in L.files ==> DescriptionOf(dir'[k]) == DescriptionOf(dir[k])
  {
    hide Structure, FileOk, Deleted, DescriptionOf;
    StructureIndexed(g, dir, L);
    FilesOwned(g, dir, L);
    LastEntryFacts(g, dir, L, h);
    var f := L.files[h];
    if SlotFilled(dir, dir', f, slot, s) {
      SlotWrite(dir, f.chain[|f.chain| - 1], slot, s);
    } else {
      LinkWrite(dir, dir', f, n, s);
    }
  }

  // ----- freeing the sectors of a chain, one entry after the other -----

  /** `us'` and `free'` release the listed sectors from `us` and `free`. */
  ghost predicate Released(g: Geometry, us: seq<byte>, free: nat, us': seq<byte>, free': nat, secs: seq<nat>) {
    && |us'| == |us| == (g.sectors + 7) / 8 && free' == free + |secs|
    && forall t: nat :: t < g.sectors ==> GetBit(us', t) == (t !in secs && GetBit(us, t))
  }

  lemma ReleaseOne(g: Geometry, us: seq<byte>, free: nat, us': seq<byte>, free': nat, us2: seq<byte>,
      free2: nat, secs: seq<nat>, n: nat)
    requires n < |secs| && Released(g, us, free, us', free', secs[..n])
    requires |us2| == |us'| && free2 == free' + 1
    requires forall t: nat :: t < g.sectors ==> GetBit(us2, t) == (t != secs[n] && GetBit(us', t))
    ensures Released(g, us, free, us2, free2, secs[..n + 1])
  {
    assert secs[..n + 1] == secs[..n] + [secs[n]];
  }

  /** `dir'` is `dir` with the listed entries erased. */
  ghost predicate ErasedIn(dir: seq<Entry>, dir': seq<Entry>, chain: seq<nat>) {
    && |dir'| == |dir|
    && forall i :: 0 <= i < |dir| ==> dir'[i] == if i in chain then ErasedEntry() else dir[i]
  }

  lemma EraseOne(dir: seq<Entry>, dir': seq<Entry>, chain: seq<nat>, c: nat)
    requires c < |chain| && chain[c] < |dir| && ErasedIn(dir, dir', chain[..c])
    ensures ErasedIn(dir, SetEntry(dir', chain[c], ErasedEntry()), chain[..c + 1])
  {
    assert chain[..c + 1] == chain[..c] + [chain[c]];
  }

  lemma NotYetErased(dir: seq<Entry>, dir': seq<Entry>, f: File, c: nat)
    requires ChainDistinct(f) && c < |f.chain| && f.chain[c] < |dir| && ErasedIn(dir, dir', f.chain[..c])
    ensures dir'[f.chain[c]] == dir[f.chain[c]]
  {
  }

  /** What deleting relies on: the file's sectors are booked, in range and distinct, its chain is distinct. */
  ghost predicate Deletable(g: Geometry, f: File, us: seq<byte>) {
    && |us| == (g.sectors + 7) / 8
    && (forall k :: 0 <= k < |f.secs| ==> f.secs[k] < g.sectors && GetBit(us, f.secs[k]))
    && (forall j, k :: 0 <= j < k < |f.secs| ==> f.secs[j] != f.secs[k])
    && ChainDistinct(f)
    && f.chain != [] && Base(|f.chain| - 1) <= |f.secs| <= Base(|f.chain|)
  }

  lemma StructureDeletable(g: Geometry, dir: seq<Entry>, L: Layout, us: seq<byte>, ue: seq<byte>, n: nat, h: nat)
    requires Structure(g, dir, L) && Bookkeeping(g, L, us, ue, n) && h in L.files
    ensures Deletable(g, L.files[h], us)
  {
    hide EntryOk, Deleted, GetBit, EntriesOwned;
    var f := L.files[h];
    OwnedChainDistinct(L, h);
    assert FileOk(g, dir, h, f);
    forall k | 0 <= k < |f.secs|
      ensures f.secs[k] in L.secOwner && L.secOwner[f.secs[k]] == Place(h, k)
    {
    }
  }

  // ----- the start-up scan -----

  /** Sector `s` is listed in a live entry at a slot the scan passes before slot `j` of entry `i`. */
  ghost predicate ListedBefore(dir: seq<Entry>, i: nat, j: nat, s: nat) {
    s != NONE as int && exists i', j' :: 0 <= i' < |dir| && ListedAt(dir[i'], j', s) && Earlier(i', j', i, j)
  }

  predicate Earlier(i': int, j': int, i: nat, j: nat) {
    i' < i || (i' == i && j' < j)
  }

  /** The bitmap and the counter describe exactly the sectors met so far. */
  ghost predicate Scanned(g: Geometry, dir: seq<Entry>, i: nat, j: nat, us: seq<byte>, free: nat, marked: set<nat>) {
    && |us| == (g.sectors + 7) / 8 && free + |marked| == g.sectors
    && (forall s: nat :: s < g.sectors ==> (GetBit(us, s) <==> s in marked))
    && (forall s :: s in marked ==> s < g.sectors)
    && (forall s: nat :: s in marked <==> ListedBefore(dir, i, j, s))
  }

  /** A sector is listed in one slot of one live entry at most. */
  lemma ListedOnce(g: Geometry, dir: seq<Entry>, L: Layout, i: nat, j: nat, i': nat, j': nat, s: nat)
    requires Structure(g, dir, L) && i < |dir| && i' < |dir| && s != NONE as int
    requires ListedAt(dir[i], j, s) && ListedAt(dir[i'], j', s)
    ensures i == i' && j == j'
  {
    SlotOwner(g, dir, L, i, j);
    SlotOwner(g, dir, L, i', j');
    var p, p' := L.entOwner[i], L.entOwner[i'];
    ChainEntryFacts(g, dir, L, p.file, p.index);
    ChainEntryFacts(g, dir, L, p'.file, p'.index);
    assert Base(p.index) + j == Base(p'.index) + j';
    assert Base(p.index) + j < Base(p.index + 1) && Base(p'.index) + j' < Base(p'.index + 1);
    BaseMonotone(p.index + 1, if p'.index > p.index then p'.index else p.index + 1);
    BaseMonotone(p'.index + 1, if p.index > p'.index then p.index else p'.index + 1);
  }

  lemma ScanStart(g: Geometry, dir: seq<Entry>, us: seq<byte>)
    requires |us| == (g.sectors + 7) / 8 && forall k :: 0 <= k < |us| ==> us[k] == 0
    ensures Scanned(g, dir, 0, 0, us, g.sectors, {})
  {
    forall s: nat | s < g.sectors
      ensures !GetBit(us, s)
    {
      ZeroHasNoBits(s % 8);
    }
    forall s: nat
      ensures !ListedBefore(dir, 0, 0, s)
    {
    }
  }

  /** The slot the scan stands at names no sector met before. */
  lemma ScanFresh(g: Geometry, dir: seq<Entry>, L: Layout, i: nat, j: nat)
    requires Structure(g, dir, L) && i < |dir| && !Deleted(dir[i]) && j < MaxSectors(dir[i]) && dir[i][j] != NONE
    ensures dir[i][j] < g.sectors && !ListedBefore(dir, i, j, dir[i][j])
  {
    var s: nat := dir[i][j];
    SlotOwner(g, dir, L, i, j);
    SectorInRange(g, dir, L, s);
    assert ListedAt(dir[i], j, s);
    if ListedBefore(dir, i, j, s) {
      var i', j' :| 0 <= i' < |dir| && ListedAt(dir[i'], j', s) && Earlier(i', j', i, j);
      ListedOnce(g, dir, L, i, j, i', j', s);
    }
  }

  lemma SectorInRange(g: Geometry, dir: seq<Entry>, L: Layout, s: nat)
    requires Structure(g, dir, L) && s in L.secOwner
    ensures s < g.sectors
  {
    assert FileOk(g, dir, L.secOwner[s].file, L.files[L.secOwner[s].file]);
  }

  lemma ScanMark(g: Geometry, dir: seq<Entry>, i: nat, j: nat, us: seq<byte>, free: nat, marked: set<nat>,
                 us': seq<byte>, free': nat, s: nat)
    requires Scanned(g, dir, i, j, us, free, marked) && s < g.sectors && s !in marked
    requires i < |dir| && ListedAt(dir[i], j, s)
    requires |us'| == |us| && free == free' + 1
    requires forall t: nat :: t < g.sectors ==> GetBit(us', t) == (t == s || GetBit(us, t))
    ensures Scanned(g, dir, i, j + 1, us', free', marked + {s})
  {
    hide GetBit, Deleted;
    forall t: nat
      ensures ListedBefore(dir, i, j + 1, t) <==> t == s || ListedBefore(dir, i, j, t)
    {
      if t == s {
        assert ListedAt(dir[i], j, s) && Earlier(i, j, i, j + 1);
      }
      if ListedBefore(dir, i, j, t) {
        var i', j' :| 0 <= i' < |dir| && ListedAt(dir[i'], j', t) && Earlier(i', j', i, j);
        assert Earlier(i', j', i, j + 1);
      }
    }
    assert |marked + {s}| == |marked| + 1;
  }

  /** Moving on over a slot or an entry that lists nothing more. */
  lemma ScanSkip(g: Geometry, dir: seq<Entry>, i: nat, j: nat, i2: nat, j2: nat, us: seq<byte>, free: nat,
      marked: set<nat>)
    requires Scanned(g, dir, i, j, us, free, marked)
    requires forall i', j', s: nat :: 0 <= i' < |dir| && s != NONE as int && ListedAt(dir[i'], j', s) ==>
      Earlier(i', j', i, j) == Earlier(i', j', i2, j2)
    ensures Scanned(g, dir, i2, j2, us, free, marked)
  {
    hide GetBit, Deleted, Earlier;
    forall t: nat
      ensures ListedBefore(dir, i2, j2, t) <==> ListedBefore(dir, i, j, t)
    {
    }
  }

  /** At the end of the scan exactly the owned sectors are marked. */
  lemma ScanEnd(g: Geometry, dir: seq<Entry>, L: Layout, us: seq<byte>, free: nat, marked: set<nat>)
    requires Structure(g, dir, L) && Scanned(g, dir, |dir|, 0, us, free, marked)
    ensures marked == L.secOwner.Keys
  {
    hide GetBit, EntryOk, FileOk, EntriesOwned, SectorsOwned, Structure;
    forall s: nat
      ensures s in marked <==> s in L.secOwner
    {
      if s in L.secOwner {
        SectorInRange(g, dir, L, s);
      }
      if s < g.sectors {
        ScanFindsOwned(g, dir, L, s);
        ListedMeansBefore(dir, s);
      }
    }
  }

  lemma ListedMeansBefore(dir: seq<Entry>, s: nat)
    ensures Listed(dir, s) <==> ListedBefore(dir, |dir|, 0, s)
  {
    if Listed(dir, s) {
      var i, j :| 0 <= i < |dir| && ListedAt(dir[i], j, s);
      assert Earlier(i, j, |dir|, 0);
    }
  }
}
