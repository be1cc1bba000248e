/**
 The whole state of a mounted EEPROM file system as one value, and each change the operations make
 to it: what it keeps, and what the user sees of it.
 */
module EepromStore {
  import opened Bits
  import opened Common
  import opened EepromLayout
  import opened EepromStructure

  /** The stored directory and sectors, who owns them, and the copies kept in memory. */
  datatype Snapshot = Snapshot(dir: seq<Entry>, data: seq<seq<byte>>, L: Layout, us: seq<byte>, ue: seq<byte>,
      free: nat)

  ghost predicate DataShaped(g: Geometry, data: seq<seq<byte>>) {
    |data| == g.sectors && forall s :: 0 <= s < |data| ==> |data[s]| == g.sectorSize
  }

  /** The stored directory is sound and the memory copies agree with it. */
  ghost predicate StoreOk(g: Geometry, S: Snapshot) {
    && DataShaped(g, S.data)
    && Structure(g, S.dir, S.L)
    && NamesUnique(NamesOf(S.dir, S.L))
    && SizesFit(g.sectorSize, SizesOf(S.dir, S.L), S.L)
    && Bookkeeping(g, S.L, S.us, S.ue, S.free)
  }

  ghost function ViewOf(S: Snapshot): View {
    View(NamesOf(S.dir, S.L), SizesOf(S.dir, S.L), ContentsOf(S.data, S.L))
  }

  /** The parts of `StoreOk`, for proofs that keep its definition out of sight. */
  lemma StoreFacts(g: Geometry, S: Snapshot)
    requires StoreOk(g, S)
    ensures Structure(g, S.dir, S.L) && Bookkeeping(g, S.L, S.us, S.ue, S.free) && |S.dir| == g.entries
    ensures forall i: nat :: i < g.entries && i in S.L.entOwner ==> i / 8 < |S.ue| && GetBit(S.ue, i)
  {
  }

  /** From `S` to `S'` file `h` got the free sector `s` as its last one. */
  ghost predicate GrowStep(g: Geometry, S: Snapshot, S': Snapshot, h: nat, s: nat) {
    && StoreOk(g, S') && S'.data == S.data
    && GrownBy(g, S.L, S'.L, h, s)
    && s < |S.data|
    && ViewGrown(ViewOf(S), ViewOf(S'), h, S.data[s])
  }

  /** What is left to show once the grown directory is known to be sound. */
  lemma FinishStep(g: Geometry, S: Snapshot, S': Snapshot, h: nat, s: nat)
    requires StoreOk(g, S) && Structure(g, S'.dir, S'.L) && S'.data == S.data
    requires GrownBy(g, S.L, S'.L, h, s) && s !in Held(S.L)
    requires |S'.dir| == |S.dir|
    requires forall k :: 0 <= k < |S.dir| && k in S.L.files ==> DescriptionOf(S'.dir[k]) == DescriptionOf(S.dir[k])
    requires Booked(g, S.us, S.free, S'.us, S'.free, s)
    requires |S'.ue| == |S.ue| && forall i: nat :: i < g.entries && i in S'.L.entOwner ==> GetBit(S'.ue, i)
    ensures GrowStep(g, S, S', h, s)
  {
    assert |S.data| == g.sectors && s < g.sectors;
    hide DataShaped, Structure, NamesUnique, SizesFit, NamesOf, SizesOf, ContentsOf, Bookkeeping, GetBit, GrownBy,
      ViewGrown, Booked;
    GrowResult(g, S.dir, S'.dir, S.data, S.L, S'.L, h, s);
    BookGrown(g, S.L, S'.L, S.us, S.ue, S.free, S'.us, S'.ue, S'.free, s);
  }

  /** Entering a free sector in the next slot of a file's last entry. */
  lemma EnterSlot(g: Geometry, S: Snapshot, S': Snapshot, h: nat, slot: nat, s: byte)
    requires StoreOk(g, S) && h in S.L.files && s < g.sectors && s as int !in Held(S.L)
    requires SlotFilled(S.dir, S'.dir, S.L.files[h], slot, s) && Booked(g, S.us, S.free, S'.us, S'.free, s)
    requires S'.L == Grown(S.L, h, s) && S'.data == S.data && S'.ue == S.ue
    ensures GrowStep(g, S, S', h, s)
  {
    hide StoreOk, Structure, Bookkeeping, GetBit, SlotFilled, Grown, GrownBy, Booked, GrowStep;
    StoreFacts(g, S);
    GrowInEntry(g, S.dir, S'.dir, S.L, h, slot, s);
    GrowKeepsDescriptions(g, S.dir, S'.dir, S.L, h, 0, slot, s);
    GrownByFacts(g, S.L, h, 0, s);
    FinishStep(g, S, S', h, s);
  }

  lemma EntryBits(g: Geometry, L: Layout, L': Layout, ue: seq<byte>, ue': seq<byte>, h: nat, e: nat, s: nat)
    requires h in L.files && L' == Extended(L, h, e, s) && BookedEntry(g, ue, ue', e)
    requires forall i: nat :: i < g.entries && i in L.entOwner ==> GetBit(ue, i)
    ensures |ue'| == |ue| && forall i: nat :: i < g.entries && i in L'.entOwner ==> GetBit(ue', i)
  {
  }

  /** Entering a free sector in a new entry linked behind a file's full last entry. */
  lemma EnterEntry(g: Geometry, S: Snapshot, S': Snapshot, h: nat, e: byte, s: byte)
    requires StoreOk(g, S) && h in S.L.files && s < g.sectors && s as int !in Held(S.L)
    requires e < g.entries && e as int !in S.L.entOwner
    requires EntryLinked(S.dir, S'.dir, S.L.files[h], e, s) && Booked(g, S.us, S.free, S'.us, S'.free, s)
    requires S'.L == Extended(S.L, h, e, s) && S'.data == S.data && BookedEntry(g, S.ue, S'.ue, e)
    ensures GrowStep(g, S, S', h, s)
  {
    hide StoreOk, Structure, Bookkeeping, GetBit, EntryLinked, Extended, GrownBy, Booked, BookedEntry, GrowStep;
    StoreFacts(g, S);
    EntryBits(g, S.L, S'.L, S.ue, S'.ue, h, e, s);
    GrowNewEntry(g, S.dir, S'.dir, S.L, h, e, s);
    GrowKeepsDescriptions(g, S.dir, S'.dir, S.L, h, e, 0, s);
    GrownByFacts(g, S.L, h, e, s);
    FinishStep(g, S, S', h, s);
  }

  /** A sector whose bit is clear is owned by nobody. */
  lemma SectorIsFree(g: Geometry, S: Snapshot, s: nat)
    requires StoreOk(g, S) && s < g.sectors && s / 8 < |S.us| && !GetBit(S.us, s)
    ensures s !in Held(S.L) && S.free > 0
  {
    hide NamesUnique, SizesFit;
    FreeSectorFacts(g, S.dir, S.L, S.us, S.ue, S.free, s);
  }

  lemma EntryIsFree(g: Geometry, S: Snapshot, i: nat)
    requires StoreOk(g, S) && i < g.entries && i / 8 < |S.ue| && !GetBit(S.ue, i)
    ensures i !in S.L.entOwner
  {
  }

  lemma NothingFree(g: Geometry, S: Snapshot)
    requires StoreOk(g, S) && forall s: nat :: s < g.sectors ==> s / 8 < |S.us| && GetBit(S.us, s)
    ensures S.free == 0
  {
    AllOwned(g, S.L, S.us, S.ue, S.free);
  }

  lemma GrowStepFacts(g: Geometry, S: Snapshot, S': Snapshot, h: nat, s: nat)
    requires GrowStep(g, S, S', h, s)
    ensures StoreOk(g, S')
  {
  }

  // ----- appending bytes -----

  /** From `S` to `S'` only file `h` changed: `bytes` now follow the first `n` bytes of its contents. */
  ghost predicate Appended(g: Geometry, S: Snapshot, S': Snapshot, h: nat, n: nat, bytes: seq<byte>) {
    && StoreOk(g, S')
    && Continued(S.L, S'.L, h)
    && ViewAppended(ViewOf(S), ViewOf(S'), h, n, bytes)
  }

  /** File `h` may have got more entries and sectors; otherwise the layouts are the same. */
  ghost predicate Continued(L: Layout, L': Layout, h: nat) {
    && h in L.files && h in L'.files && L'.files == L.files[h := L'.files[h]]
    && L.files[h].chain <= L'.files[h].chain && L.files[h].secs <= L'.files[h].secs
    && L'.lost == L.lost && L'.torn == L.torn
  }

  ghost predicate ViewAppended(v: View, v': View, h: nat, n: nat, bytes: seq<byte>) {
    && v'.names == v.names && v'.sizes == v.sizes
    && h in v.contents && h in v'.contents
    && v'.contents == v.contents[h := v'.contents[h]]
    && n <= |v.contents[h]| && n + |bytes| <= |v'.contents[h]|
    && v'.contents[h][..n + |bytes|] == v.contents[h][..n] + bytes
  }

  lemma AppendNothing(g: Geometry, S: Snapshot, h: nat, n: nat)
    requires StoreOk(g, S) && h in S.L.files && n <= Times(g.sectorSize, |S.L.files[h].secs|)
    ensures Appended(g, S, S, h, n, [])
  {
    hide Structure, NamesOf, SizesOf, Bookkeeping, NamesUnique, SizesFit;
    ViewDomains(g, S.dir, S.data, S.L);
    ContentsLength(g, S, h);
  }

  lemma ContentsLength(g: Geometry, S: Snapshot, h: nat)
    requires StoreOk(g, S) && h in S.L.files
    ensures h in ViewOf(S).contents && |ViewOf(S).contents[h]| == Times(g.sectorSize, |S.L.files[h].secs|)
  {
    hide Structure, Bookkeeping, NamesUnique, SizesFit;
    ViewDomains(g, S.dir, S.data, S.L);
    FlatLength(g.sectorSize, S.data, S.L.files[h].secs);
  }

  lemma DataFacts(g: Geometry, S: Snapshot, h: nat)
    requires StoreOk(g, S) && h in S.L.files
    ensures DataShaped(g, S.data)
    ensures forall k :: 0 <= k < |S.L.files[h].secs| ==> S.L.files[h].secs[k] < g.sectors
    ensures Within(S.L.files[h].secs, |S.data|)
  {
    assert FileOk(g, S.dir, h, S.L.files[h]);
  }

  lemma AppendMore(g: Geometry, S0: Snapshot, S1: Snapshot, S2: Snapshot, h: nat, n: nat, a: seq<byte>, b: seq<byte>)
    requires Appended(g, S0, S1, h, n, a) && Appended(g, S1, S2, h, n + |a|, b)
    ensures Appended(g, S0, S2, h, n, a + b)
  {
    hide StoreOk, ViewOf;
    var c0, c1, c2 := ViewOf(S0).contents[h], ViewOf(S1).contents[h], ViewOf(S2).contents[h];
    assert c2[..n + |a| + |b|] == c0[..n] + a + b == c0[..n] + (a + b);
  }

  /** A new sector by itself appends nothing to the part of the contents already in use. */
  lemma GrowAppendsNothing(g: Geometry, S: Snapshot, S': Snapshot, h: nat, s: nat, n: nat)
    requires StoreOk(g, S) && GrowStep(g, S, S', h, s) && n <= Times(g.sectorSize, |S.L.files[h].secs|)
    ensures Appended(g, S, S', h, n, [])
  {
    hide StoreOk, ViewOf;
    ContentsLength(g, S, h);
    ContentsLength(g, S', h);
    var c, c' := ViewOf(S).contents[h], ViewOf(S').contents[h];
    assert c'[..n] == c[..n];
  }

  /** `S'` is `S` after `chunk` was written into the last sector of file `h`, from offset `at` on. */
  ghost predicate ChunkStored(g: Geometry, S: Snapshot, S': Snapshot, h: nat, at: nat, chunk: seq<byte>) {
    && h in S.L.files && S.L.files[h].secs != []
    && var s := S.L.files[h].secs[|S.L.files[h].secs| - 1];
    && s < |S.data| && at + |chunk| <= |S.data[s]|
    && S' == S.(data := S.data[s := Splice(S.data[s], at, chunk)])
  }

  lemma ChunkAppends(g: Geometry, S: Snapshot, S': Snapshot, h: nat, at: nat, chunk: seq<byte>)
    requires StoreOk(g, S) && ChunkStored(g, S, S', h, at, chunk)
    ensures Appended(g, S, S', h, Times(g.sectorSize, |S.L.files[h].secs| - 1) + at, chunk)
  {
    hide Structure, NamesOf, SizesOf, ContentsOf, Bookkeeping, NamesUnique, SizesFit, Splice, Times, SectorsOwned, Flat;
    var secs := S.L.files[h].secs;
    LastSectorAlone(g, S.dir, S.L, h);
    ViewDomains(g, S.dir, S.data, S.L);
    ContentsInFiles(S.data, S.L, h);
    ChunkContents(g, S.data, S'.data, S.L, h, secs[|secs| - 1]);
    FlatWrite(g.sectorSize, S.data, secs, at, chunk, S'.data);
  }

  lemma ContentsInFiles(data: seq<seq<byte>>, L: Layout, h: nat)
    requires h in ContentsOf(data, L)
    ensures h in L.files && forall k :: 0 <= k < |L.files[h].secs| ==> L.files[h].secs[k] < |data|
  {
  }

  lemma ChunkContents(g: Geometry, data: seq<seq<byte>>, data': seq<seq<byte>>, L: Layout, h: nat, s: nat)
    requires SectorsOwned(L) && |data'| == |data|
    requires s in L.secOwner && L.secOwner[s].file == h && h in ContentsOf(data, L)
    requires forall t :: 0 <= t < |data| && t != s ==> data'[t] == data[t]
    ensures ContentsOf(data', L) == ContentsOf(data, L)[h := Flat(data', L.files[h].secs)]
    ensures ContentsOf(data, L)[h] == Flat(data, L.files[h].secs)
  {
    ContentsFrame(g, data, data', L, h, s);
  }

  lemma AppendedFacts(g: Geometry, S: Snapshot, S': Snapshot, h: nat, n: nat, bytes: seq<byte>)
    requires Appended(g, S, S', h, n, bytes)
    ensures StoreOk(g, S')
  {
  }

  // ----- what a write does at worst -----

  /** From `S` to `S'` only file `h` changed; it did not get shorter, but sectors of it may be lost. */
  ghost predicate Touched(g: Geometry, S: Snapshot, S': Snapshot, h: nat) {
    StoreOk(g, S') && Rewritten(S.L, S'.L, h) && OthersSeen(ViewOf(S), ViewOf(S'), h)
  }

  ghost predicate Rewritten(L: Layout, L': Layout, h: nat) {
    && h in L.files && h in L'.files && L'.files == L.files[h := L'.files[h]]
    && L.files[h].chain <= L'.files[h].chain && |L.files[h].secs| <= |L'.files[h].secs|
    && L.lost <= L'.lost && L'.torn == L.torn
  }

  ghost predicate OthersSeen(v: View, v': View, h: nat) {
    && v'.names == v.names && v'.sizes == v.sizes
    && forall k :: k != h ==> (k in v'.contents <==> k in v.contents) && (k in v.contents ==> v'.contents[k] == v.contents[k])
  }

  lemma TouchedMore(g: Geometry, A: Snapshot, B: Snapshot, C: Snapshot, h: nat)
    requires Touched(g, A, B, h) && Touched(g, B, C, h)
    ensures Touched(g, A, C, h)
  {
    hide StoreOk, ViewOf;
  }

  lemma TouchedNot(g: Geometry, S: Snapshot, h: nat)
    requires StoreOk(g, S) && h in S.L.files
    ensures Touched(g, S, S, h)
  {
    hide StoreOk, ViewOf;
    assert S.L.files == S.L.files[h := S.L.files[h]];
  }

  lemma AppendedTouches(g: Geometry, S: Snapshot, S': Snapshot, h: nat, n: nat, bytes: seq<byte>)
    requires Appended(g, S, S', h, n, bytes)
    ensures Touched(g, S, S', h)
  {
    hide StoreOk, ViewOf;
  }

  lemma GrowTouches(g: Geometry, S: Snapshot, S': Snapshot, h: nat, s: nat)
    requires GrowStep(g, S, S', h, s)
    ensures Touched(g, S, S', h)
  {
    hide StoreOk, ViewOf;
  }

  /** `S'` is `S` after `chunk` was written into some sector of file `h`, from offset `at` on. */
  ghost predicate PieceStored(g: Geometry, S: Snapshot, S': Snapshot, h: nat, s: nat, at: nat, chunk: seq<byte>) {
    && h in S.L.files && s in S.L.files[h].secs && s < |S.data| && at + |chunk| <= |S.data[s]|
    && S' == S.(data := S.data[s := Splice(S.data[s], at, chunk)])
  }

  lemma PieceTouches(g: Geometry, S: Snapshot, S': Snapshot, h: nat, s: nat, at: nat, chunk: seq<byte>)
    requires StoreOk(g, S) && PieceStored(g, S, S', h, s, at, chunk)
    ensures Touched(g, S, S', h)
  {
    hide Structure, NamesOf, SizesOf, ContentsOf, Bookkeeping, NamesUnique, SizesFit, Splice, SectorsOwned, Flat;
    SectorsAreOwned(g, S.dir, S.L);
    SectorMembers(S.L, h, s);
    ViewDomains(g, S.dir, S.data, S.L);
    ContentsInFiles(S.data, S.L, h);
    ChunkContents(g, S.data, S'.data, S.L, h, s);
    assert S.L.files == S.L.files[h := S.L.files[h]];
  }

  /** Sector `s`, which was free, takes the place of a sector of file `h`. */
  lemma SwapStep(g: Geometry, S: Snapshot, S': Snapshot, h: nat, slot: nat, s: byte)
    requires StoreOk(g, S) && h in S.L.files && s < g.sectors && s as int !in Held(S.L)
    requires SlotRefilled(S.dir, S'.dir, S.L.files[h], slot, s) && Booked(g, S.us, S.free, S'.us, S'.free, s)
    requires S'.L == Swapped(S.L, h, Base(|S.L.files[h].chain| - 1) + slot, s) && S'.data == S.data && S'.ue == S.ue
    ensures Touched(g, S, S', h) && |S'.L.files[h].secs| == |S.L.files[h].secs| && |S'.L.lost| == |S.L.lost| + 1
  {
    hide Structure, Bookkeeping, GetBit, SlotRefilled, Swapped, NamesOf, SizesOf, ContentsOf, NamesUnique, SizesFit,
      Booked, Held, Base;
    NotHeld(S.L, s);
    var k := RefilledAt(g, S.dir, S'.dir, S.L, h, slot, s);
    SwapKeeps(g, S.dir, S'.dir, S.L, h, slot, s);
    SwapKeepsDescriptions(g, S.dir, S'.dir, S.L, h, slot, s);
    SwappedParts(S.L, h, k, s);
    SwappedBooks(g, S.dir, S.L, h, k, s, S.us, S.ue, S.free, S'.us, S'.free);
    DescriptionsView(S.dir, S'.dir, S.L, S'.L);
    SwappedSizes(g.sectorSize, SizesOf(S.dir, S.L), S.L, S'.L, h);
    SwappedContents(S.data, S.L, S'.L, h);
  }

  lemma SwappedBooks(g: Geometry, dir: seq<Entry>, L: Layout, h: nat, k: nat, s: nat, us: seq<byte>,
      ue: seq<byte>, n: nat, us': seq<byte>, n': nat)
    requires Structure(g, dir, L) && h in L.files && k < |L.files[h].secs| && s !in Held(L) && s < g.sectors
    requires Bookkeeping(g, L, us, ue, n) && Booked(g, us, n, us', n', s)
    ensures Bookkeeping(g, Swapped(L, h, k, s), us', ue, n') && |Swapped(L, h, k, s).lost| == |L.lost| + 1
  {
    hide GetBit, Structure, SectorsOwned, EntriesOwned, Swapped, Bookkeeping, Held, Booked;
    SectorsAreOwned(g, dir, L);
    BooksFacts(g, L, us, ue, n);
    NotHeld(L, s);
    SwappedOwned(L, h, k, s);
    SwappedParts(L, h, k, s);
    SectorInRange(g, dir, L, L.files[h].secs[k]);
    SwappedHolds(L, Swapped(L, h, k, s), L.files[h].secs[k], s);
    BooksSwapped(g, L, Swapped(L, h, k, s), s, us, ue, n, us', n');
  }

  lemma NotHeld(L: Layout, s: nat)
    requires s !in Held(L)
    ensures s !in L.secOwner && s !in L.lost
  {
  }

  lemma SwappedHolds(L: Layout, L': Layout, was: nat, s: nat)
    requires was in L.secOwner && s !in Held(L) && L.lost !! L.secOwner.Keys
    requires L'.secOwner.Keys == L.secOwner.Keys - {was} + {s} && L'.lost == L.lost + {was}
    ensures Held(L') == Held(L) + {s} && |Held(L')| == |Held(L)| + 1 && |L'.lost| == |L.lost| + 1
      && L'.lost !! L'.secOwner.Keys
  {
    assert Held(L') == Held(L) + {s};
  }

  lemma BooksSwapped(g: Geometry, L: Layout, L': Layout, s: nat, us: seq<byte>, ue: seq<byte>, n: nat,
      us': seq<byte>, n': nat)
    requires Bookkeeping(g, L, us, ue, n) && Booked(g, us, n, us', n', s) && s < g.sectors
    requires Held(L') == Held(L) + {s} && |Held(L')| == |Held(L)| + 1 && L'.lost !! L'.secOwner.Keys
    requires L'.entOwner == L.entOwner && forall t :: t in L'.lost ==> t < g.sectors
    ensures Bookkeeping(g, L', us', ue, n')
  {
    hide GetBit, Held;
  }

  lemma SwappedSizes(z: nat, sizes: map<nat, nat>, L: Layout, L': Layout, h: nat)
    requires SizesFit(z, sizes, L) && h in L.files && h in L'.files && L'.files == L.files[h := L'.files[h]]
    requires |L'.files[h].secs| == |L.files[h].secs| && L'.torn == L.torn
    ensures SizesFit(z, sizes, L')
  {
  }

  lemma SwappedContents(data: seq<seq<byte>>, L: Layout, L': Layout, h: nat)
    requires h in L.files && h in L'.files && L'.files == L.files[h := L'.files[h]]
    ensures forall k :: k != h ==> (k in ContentsOf(data, L') <==> k in ContentsOf(data, L))
    ensures forall k :: k != h && k in ContentsOf(data, L) ==> ContentsOf(data, L')[k] == ContentsOf(data, L)[k]
  {
    hide Flat, Within;
  }

  // ----- creating, describing and removing files -----

  ghost predicate FileCreated(g: Geometry, S: Snapshot, S': Snapshot, h: nat, name: seq<byte>) {
    && StoreOk(g, S')
    && h !in S.L.files && S'.L.files == S.L.files[h := File([h], [])]
    && S'.L.lost == S.L.lost && S'.L.torn == S.L.torn - {h}
    && ViewCreated(ViewOf(S), ViewOf(S'), h, name)
  }

  ghost predicate ViewCreated(v: View, v': View, h: nat, name: seq<byte>) {
    && h !in v.names && h !in v.sizes && h !in v.contents
    && v' == View(v.names[h := name], v.sizes[h := 0], v.contents[h := []])
  }

  lemma CreateStep(g: Geometry, S: Snapshot, S': Snapshot, h: nat, name: seq<byte>)
    requires StoreOk(g, S) && h < g.entries && h !in S.L.entOwner && |name| == NAME_LENGTH && |S.dir| == g.entries
    requires forall k :: k in S.L.files && k < |S.dir| ==> Name(S.dir[k]) != name
    requires S'.dir == SetEntry(S.dir, h, FreshName(name)) && S'.data == S.data && S'.L == Created(S.L, h)
    requires S'.us == S.us && S'.free == S.free && BookedEntry(g, S.ue, S'.ue, h)
    ensures FileCreated(g, S, S', h, name)
  {
    hide Structure, Times, GetBit, FreshName, Name, NamesOf, SizesOf, ContentsOf, NamesUnique, SizesFit,
         Bookkeeping, BookedEntry;
    CreateKeeps(g, S.dir, S'.dir, S.L, h, name);
    ViewDomains(g, S.dir, S.data, S.L);
    CreateBooked(g, S.L, S.us, S.ue, S'.ue, S.free, h);
    CreatedView(S.dir, S'.dir, S.data, S.L, h, name);
    NamesAvoid(S.dir, S.L, h, name);
    UniqueWith(NamesOf(S.dir, S.L), h, name);
    FitWith(g.sectorSize, SizesOf(S.dir, S.L), S.L, S'.L, h, 0);
  }

  lemma NamesAvoid(dir: seq<Entry>, L: Layout, h: nat, name: seq<byte>)
    requires forall k :: k in L.files && k != h && k < |dir| ==> Name(dir[k]) != name
    ensures forall k :: k in NamesOf(dir, L) && k != h ==> NamesOf(dir, L)[k] != name
  {
  }

  lemma UniqueWith(names: map<nat, seq<byte>>, h: nat, name: seq<byte>)
    requires NamesUnique(names) && forall k :: k in names && k != h ==> names[k] != name
    ensures NamesUnique(names[h := name])
  {
  }

  lemma FitWith(z: nat, sizes: map<nat, nat>, L: Layout, L': Layout, h: nat, size: nat)
    requires SizesFit(z, sizes, L) && h in L'.files && L'.files == L.files[h := L'.files[h]]
    requires SizeFits(z, size, L', h) && forall k :: k != h ==> (k in L'.torn <==> k in L.torn)
    ensures SizesFit(z, sizes[h := size], L')
  {
  }

  lemma FreshDescribed(name: seq<byte>)
    requires |name| == NAME_LENGTH
    ensures Name(FreshName(name)) == name && Size(FreshName(name)) == 0
  {
    FreshFacts(name, 0);
  }

  lemma CreateBooked(g: Geometry, L: Layout, us: seq<byte>, ue: seq<byte>, ue': seq<byte>, free: nat, h: nat)
    requires Bookkeeping(g, L, us, ue, free) && BookedEntry(g, ue, ue', h)
    ensures Bookkeeping(g, Created(L, h), us, ue', free)
  {
  }

  lemma CreatedView(dir: seq<Entry>, dir': seq<Entry>, data: seq<seq<byte>>, L: Layout, h: nat, name: seq<byte>)
    requires h < |dir| && |name| == NAME_LENGTH && h !in L.files && dir' == SetEntry(dir, h, FreshName(name))
    ensures NamesOf(dir', Created(L, h)) == NamesOf(dir, L)[h := name]
    ensures SizesOf(dir', Created(L, h)) == SizesOf(dir, L)[h := 0]
    ensures ContentsOf(data, Created(L, h)) == ContentsOf(data, L)[h := []]
  {
    FreshDescribed(name);
  }

  /** From `S` to `S'` only the recorded name and size of file `h` may differ. */
  ghost predicate Redescribed(g: Geometry, S: Snapshot, S': Snapshot, h: nat, name: seq<byte>, size: nat) {
    && StoreOk(g, S') && TornOnly(S.L, S'.L, h)
    && h in ViewOf(S).names && h in ViewOf(S).sizes
    && ViewOf(S') == ViewOf(S).(names := ViewOf(S).names[h := name], sizes := ViewOf(S).sizes[h := size])
  }

  lemma DescribeStep(g: Geometry, S: Snapshot, S': Snapshot, h: nat, e: Entry)
    requires StoreOk(g, S) && h in S.L.files && |S.dir| == g.entries && h < |S.dir|
    requires SameLinks(S.dir[h], e) && SizeFits(g.sectorSize, Size(e), S'.L, h)
    requires forall k :: k in S.L.files && k != h && k < |S.dir| ==> Name(S.dir[k]) != Name(e)
    requires S' == S.(dir := SetEntry(S.dir, h, e), L := S'.L) && TornOnly(S.L, S'.L, h)
    ensures Redescribed(g, S, S', h, Name(e), Size(e))
  {
    hide Structure, Times, GetBit, Name, Size, NamesOf, SizesOf, ContentsOf, NamesUnique, SizesFit, Bookkeeping,
      SameLinks;
    DescribeKeeps(g, S.dir, S'.dir, S.L, h, e);
    TornMeansNothing(g, S'.dir, S'.data, S.L, S'.L, h);
    TornInBooks(g, S.L, S'.L, h, S.us, S.ue, S.free);
    ViewDomains(g, S.dir, S.data, S.L);
    DescribedView(S.dir, S'.dir, S.L, h, e);
    NamesAvoid(S.dir, S.L, h, Name(e));
    UniqueWith(NamesOf(S.dir, S.L), h, Name(e));
    assert S.L.files[h := S.L.files[h]] == S.L.files;
    FitWith(g.sectorSize, SizesOf(S.dir, S.L), S.L, S'.L, h, Size(e));
  }

  lemma TornMeansNothing(g: Geometry, dir: seq<Entry>, data: seq<seq<byte>>, L: Layout, L': Layout, h: nat)
    requires TornOnly(L, L', h)
    ensures Structure(g, dir, L) ==> Structure(g, dir, L')
    ensures NamesOf(dir, L') == NamesOf(dir, L) && SizesOf(dir, L') == SizesOf(dir, L)
      && ContentsOf(data, L') == ContentsOf(data, L)
  {
    hide FileOk, Name, Size, Flat;
  }

  lemma TornInBooks(g: Geometry, L: Layout, L': Layout, h: nat, us: seq<byte>, ue: seq<byte>, free: nat)
    requires TornOnly(L, L', h) && Bookkeeping(g, L, us, ue, free)
    ensures Bookkeeping(g, L', us, ue, free)
  {
    hide GetBit;
    assert Held(L') == Held(L);
  }

  lemma DescribedView(dir: seq<Entry>, dir': seq<Entry>, L: Layout, h: nat, e: Entry)
    requires h < |dir| && h in L.files && dir' == SetEntry(dir, h, e)
    ensures NamesOf(dir', L) == NamesOf(dir, L)[h := Name(e)]
    ensures SizesOf(dir', L) == SizesOf(dir, L)[h := Size(e)]
  {
  }

  /** From `S` to `S'` file `h` is gone, and exactly its sectors are free again. */
  ghost predicate FileRemoved(g: Geometry, S: Snapshot, S': Snapshot, h: nat) {
    && StoreOk(g, S')
    && h in S.L.files && S'.L == Removed(S.L, h)
    && S'.free == S.free + |S.L.files[h].secs|
    && ViewOf(S') == View(ViewOf(S).names - {h}, ViewOf(S).sizes - {h}, ViewOf(S).contents - {h})
  }

  lemma RemoveStep(g: Geometry, S: Snapshot, S': Snapshot, h: nat)
    requires StoreOk(g, S) && h in S.L.files
    requires ErasedIn(S.dir, S'.dir, S.L.files[h].chain) && Released(g, S.us, S.free, S'.us, S'.free, S.L.files[h].secs)
    requires S'.data == S.data && S'.ue == S.ue && S'.L == Removed(S.L, h)
    ensures FileRemoved(g, S, S', h)
  {
    hide Structure, Deleted, IsList, Times, GetBit, Name, Size, Flat, Bookkeeping, ErasedIn, Released, Removed,
         NamesOf, SizesOf, ContentsOf, SectorsOwned, EntriesOwned;
    RemoveKeeps(g, S.dir, S'.dir, S.L, h);
    StoreFacts(g, S);
    RemovedBooked(g, S, S', h);
    RemovedView(g, S, S', h);
  }

  lemma RemovedBooked(g: Geometry, S: Snapshot, S': Snapshot, h: nat)
    requires StoreOk(g, S) && h in S.L.files && S'.ue == S.ue
    requires Released(g, S.us, S.free, S'.us, S'.free, S.L.files[h].secs)
    ensures Bookkeeping(g, Removed(S.L, h), S'.us, S'.ue, S'.free)
    ensures S'.free == S.free + |S.L.files[h].secs|
  {
    hide StoreOk, Structure, Bookkeeping, Removed, Held;
    StoreFacts(g, S);
    SectorsAreOwned(g, S.dir, S.L);
    BooksFacts(g, S.L, S.us, S.ue, S.free);
    HeldRemoved(S.L, h);
    RemovedHolds(S.L, h);
    BooksRemoved(g, S, S', h);
  }

  lemma SectorsAreOwned(g: Geometry, dir: seq<Entry>, L: Layout)
    requires Structure(g, dir, L)
    ensures SectorsOwned(L) && EntriesOwned(L)
  {
  }

  lemma BooksFacts(g: Geometry, L: Layout, us: seq<byte>, ue: seq<byte>, free: nat)
    requires Bookkeeping(g, L, us, ue, free)
    ensures L.lost !! L.secOwner.Keys && free + |Held(L)| == g.sectors && forall s :: s in L.lost ==> s < g.sectors
  {
    hide GetBit;
  }

  lemma RemovedHolds(L: Layout, h: nat)
    requires SectorsOwned(L) && h in L.files && L.lost !! L.secOwner.Keys
    ensures forall t :: t in Held(Removed(L, h)) <==> t in Held(L) && t !in L.files[h].secs
    ensures forall i :: i in Removed(L, h).entOwner ==> i in L.entOwner
    ensures Removed(L, h).lost == L.lost && Removed(L, h).lost !! Removed(L, h).secOwner.Keys
  {
    hide SectorsOwned;
    forall t: nat
      ensures t in L.files[h].secs <==> t in L.secOwner && L.secOwner[t].file == h
    {
      SectorMembers(L, h, t);
    }
  }

  lemma BooksRemoved(g: Geometry, S: Snapshot, S': Snapshot, h: nat)
    requires Bookkeeping(g, S.L, S.us, S.ue, S.free) && h in S.L.files && S'.ue == S.ue
    requires Released(g, S.us, S.free, S'.us, S'.free, S.L.files[h].secs)
    requires |Held(S.L)| == |Held(Removed(S.L, h))| + |S.L.files[h].secs|
    requires forall t :: t in Held(Removed(S.L, h)) <==> t in Held(S.L) && t !in S.L.files[h].secs
    requires forall i :: i in Removed(S.L, h).entOwner ==> i in S.L.entOwner
    requires Removed(S.L, h).lost == S.L.lost && Removed(S.L, h).lost !! Removed(S.L, h).secOwner.Keys
    ensures Bookkeeping(g, Removed(S.L, h), S'.us, S'.ue, S'.free)
    ensures S'.free == S.free + |S.L.files[h].secs|
  {
    hide Removed, GetBit;
  }

  lemma SectorMembers(L: Layout, h: nat, t: nat)
    requires SectorsOwned(L) && h in L.files
    ensures t in L.files[h].secs <==> t in L.secOwner && L.secOwner[t].file == h
  {
    if t in L.files[h].secs {
      var k :| 0 <= k < |L.files[h].secs| && L.files[h].secs[k] == t;
      assert L.secOwner[L.files[h].secs[k]] == Place(h, k);
    }
  }

  lemma RemovedView(g: Geometry, S: Snapshot, S': Snapshot, h: nat)
    requires StoreOk(g, S) && h in S.L.files
    requires ErasedIn(S.dir, S'.dir, S.L.files[h].chain) && S'.data == S.data && S'.L == Removed(S.L, h)
    ensures ViewOf(S') == View(ViewOf(S).names - {h}, ViewOf(S).sizes - {h}, ViewOf(S).contents - {h})
    ensures NamesUnique(NamesOf(S'.dir, S'.L)) && SizesFit(g.sectorSize, SizesOf(S'.dir, S'.L), S'.L)
  {
    hide Structure, Bookkeeping, NamesOf, SizesOf, ContentsOf, NamesUnique, SizesFit, ErasedIn, Removed;
    StructureIndexed(g, S.dir, S.L);
    HeadsElsewhere(g, S.dir, S.L, h);
    RemovedMaps(S.dir, S'.dir, S.data, S.L, h);
    RemovedFits(g.sectorSize, NamesOf(S.dir, S.L), SizesOf(S.dir, S.L), S.L, h);
  }

  lemma RemovedMaps(dir: seq<Entry>, dir': seq<Entry>, data: seq<seq<byte>>, L: Layout, h: nat)
    requires h in L.files && ErasedIn(dir, dir', L.files[h].chain)
    requires forall k :: k in L.files && k != h ==> k !in L.files[h].chain
    ensures NamesOf(dir', Removed(L, h)) == NamesOf(dir, L) - {h}
    ensures SizesOf(dir', Removed(L, h)) == SizesOf(dir, L) - {h}
    ensures ContentsOf(data, Removed(L, h)) == ContentsOf(data, L) - {h}
  {
    hide Flat, Name, Size, ErasedIn, NamesOf, SizesOf, ContentsOf, Within;
    RemovedNames(dir, dir', L, h);
    RemovedContents(data, L, h);
  }

  lemma RemovedNames(dir: seq<Entry>, dir': seq<Entry>, L: Layout, h: nat)
    requires h in L.files && ErasedIn(dir, dir', L.files[h].chain)
    requires forall k :: k in L.files && k != h ==> k !in L.files[h].chain
    ensures NamesOf(dir', Removed(L, h)) == NamesOf(dir, L) - {h}
    ensures SizesOf(dir', Removed(L, h)) == SizesOf(dir, L) - {h}
  {
    hide Name, Size;
    forall k | k in L.files && k != h && k < |dir|
      ensures dir'[k] == dir[k]
    {
    }
  }

  lemma RemovedContents(data: seq<seq<byte>>, L: Layout, h: nat)
    ensures ContentsOf(data, Removed(L, h)) == ContentsOf(data, L) - {h}
  {
    hide Flat;
  }

  lemma RemovedFits(z: nat, names: map<nat, seq<byte>>, sizes: map<nat, nat>, L: Layout, h: nat)
    requires NamesUnique(names) && SizesFit(z, sizes, L)
    ensures NamesUnique(names - {h}) && SizesFit(z, sizes - {h}, Removed(L, h))
  {
  }

  /** No other file's name entry lies in the chain of `h`. */
  lemma HeadsElsewhere(g: Geometry, dir: seq<Entry>, L: Layout, h: nat)
    requires Structure(g, dir, L) && h in L.files
    ensures forall k :: k in L.files && k != h ==> k !in L.files[h].chain
  {
    forall k | k in L.files && k != h
      ensures k !in L.files[h].chain
    {
      assert FileOk(g, dir, k, L.files[k]) && L.entOwner[L.files[k].chain[0]] == Place(k, 0);
      ChainMembers(L, h, k);
    }
  }

  // ----- sixteen bits are enough -----

  /** A file never has more sectors than there are, so no file size reaches 65536. */
  lemma SizesStaySmall(g: Geometry, S: Snapshot, h: nat)
    requires StoreOk(g, S) && h in S.L.files
    ensures |S.L.files[h].secs| <= g.sectors
    ensures Times(g.sectorSize, |S.L.files[h].secs|) < 65536
  {
    hide StoreOk, Structure, Bookkeeping, Times;
    DataFacts(g, S, h);
    StoreFacts(g, S);
    SecsDistinct(g, S.dir, S.L, h);
    DistinctCount(S.L.files[h].secs);
    BelowCount(g.sectors, Elements(S.L.files[h].secs));
    TimesBound(g.sectorSize, |S.L.files[h].secs|);
  }

  /** A file's sectors and the lost ones together are no more than there are. */
  lemma HeldBound(g: Geometry, S: Snapshot, h: nat)
    requires StoreOk(g, S) && h in S.L.files
    ensures |S.L.files[h].secs| + |S.L.lost| <= g.sectors
  {
    hide StoreOk, Structure, Bookkeeping, Held, SectorsOwned, EntriesOwned;
    StoreFacts(g, S);
    SecsDistinct(g, S.dir, S.L, h);
    DistinctCount(S.L.files[h].secs);
    SectorsAreOwned(g, S.dir, S.L);
    BooksFacts(g, S.L, S.us, S.ue, S.free);
    OwnedOf(S.L, h);
    Inclusion(Elements(S.L.files[h].secs), S.L.secOwner.Keys);
    DisjointCount(S.L.secOwner.Keys, S.L.lost);
    HeldIs(S.L);
  }

  /** The sectors that a file gets more are as many as are free less. */
  lemma FreeMoves(g: Geometry, S: Snapshot, S': Snapshot, h: nat)
    requires StoreOk(g, S) && StoreOk(g, S') && Continued(S.L, S'.L, h)
    ensures S'.free + |S'.L.files[h].secs| == S.free + |S.L.files[h].secs|
  {
    hide StoreOk, Structure, Bookkeeping, SectorsOwned, EntriesOwned, OthersOwned;
    OwnedSplit(g, S, h);
    OwnedSplit(g, S', h);
    StoreFacts(g, S);
    StoreFacts(g, S');
    SectorsAreOwned(g, S.dir, S.L);
    SectorsAreOwned(g, S'.dir, S'.L);
    SameOthers(S.L, S'.L, h);
  }

  /** The sectors of all files but `h`. */
  ghost function OthersOwned(L: Layout, h: nat): set<nat> {
    set s | s in L.secOwner && L.secOwner[s].file != h
  }

  lemma SameOthers(L: Layout, L': Layout, h: nat)
    requires SectorsOwned(L) && SectorsOwned(L') && Continued(L, L', h)
    ensures OthersOwned(L, h) == OthersOwned(L', h)
  {
    forall s
      ensures s in OthersOwned(L, h) <==> s in OthersOwned(L', h)
    {
      if s in OthersOwned(L, h) {
        var p := L.secOwner[s];
        assert L'.files[p.file].secs[p.index] == s;
      }
      if s in OthersOwned(L', h) {
        var p := L'.secOwner[s];
        assert L.files[p.file].secs[p.index] == s;
      }
    }
  }

  lemma SplitKeys(L: Layout, h: nat)
    requires SectorsOwned(L) && h in L.files
    ensures OthersOwned(L, h) !! Elements(L.files[h].secs)
    ensures OthersOwned(L, h) + Elements(L.files[h].secs) == L.secOwner.Keys
  {
    hide SectorsOwned;
    forall s
      ensures s in OthersOwned(L, h) || s in Elements(L.files[h].secs) <==> s in L.secOwner
      ensures !(s in OthersOwned(L, h) && s in Elements(L.files[h].secs))
    {
      SectorMembers(L, h, s);
    }
  }

  lemma OwnedSplit(g: Geometry, S: Snapshot, h: nat)
    requires StoreOk(g, S) && h in S.L.files
    ensures S.free + |OthersOwned(S.L, h)| + |S.L.files[h].secs| + |S.L.lost| == g.sectors
  {
    hide StoreOk, Structure, Bookkeeping, Held, SectorsOwned, EntriesOwned;
    StoreFacts(g, S);
    SecsDistinct(g, S.dir, S.L, h);
    DistinctCount(S.L.files[h].secs);
    SectorsAreOwned(g, S.dir, S.L);
    BooksFacts(g, S.L, S.us, S.ue, S.free);
    SplitKeys(S.L, h);
    DisjointCount(OthersOwned(S.L, h), Elements(S.L.files[h].secs));
    DisjointCount(S.L.secOwner.Keys, S.L.lost);
    HeldIs(S.L);
  }

  lemma HeldIs(L: Layout)
    ensures Held(L) == L.secOwner.Keys + L.lost
  {
  }

  lemma OwnedOf(L: Layout, h: nat)
    requires SectorsOwned(L) && h in L.files
    ensures Elements(L.files[h].secs) <= L.secOwner.Keys
  {
    forall s | s in L.files[h].secs
      ensures s in L.secOwner
    {
      SectorMembers(L, h, s);
    }
  }

  lemma Inclusion(a: set<nat>, b: set<nat>)
    requires a <= b
    ensures |a| <= |b|
  {
    DisjointCount(a, b - a);
    assert a + (b - a) == b;
  }

  lemma {:induction false} TimesBound(z: nat, n: nat)
    requires z <= 255
    ensures Times(z, n) <= 255 * n
  {
    if n > 0 {
      TimesBound(z, n - 1);
    }
  }

  lemma SecsDistinct(g: Geometry, dir: seq<Entry>, L: Layout, h: nat)
    requires Structure(g, dir, L) && h in L.files
    ensures forall j, k :: 0 <= j < k < |L.files[h].secs| ==> L.files[h].secs[j] != L.files[h].secs[k]
  {
    var secs := L.files[h].secs;
    forall j, k | 0 <= j < k < |secs|
      ensures secs[j] != secs[k]
    {
      NoSharing(g, dir, L, h, j, h, k);
    }
  }
}
