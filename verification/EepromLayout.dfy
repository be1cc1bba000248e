/**
 The stored form of the EEPROM file system: a table of 32-byte directory entries followed by
 equally sized data sectors, all in one byte-addressed memory.
 */
module EepromLayout {
  import opened Bits
  import opened Common

  const ENTRY_SIZE := 32
  const NAME_SECTORS := 12
  const LIST_SECTORS := 30
  const NAME_LENGTH := 16
  /** Marks an unused sector slot and a missing link. */
  const NONE: byte := 255

  /** `entries` directory entries, then `sectors` sectors of `sectorSize` bytes. */
  datatype Shape = Shape(entries: nat, sectors: nat, sectorSize: nat, size: nat)

  /** What the program's static assertions demand of the configured sizes. */
  type Geometry = g: Shape | GeometryOk(g) witness Shape(1, 1, 1, 36)

  predicate GeometryOk(g: Shape) {
    && 0 < g.entries < 256 && 0 < g.sectors < 256 && 0 < g.sectorSize < 256
    && ENTRY_SIZE * g.entries + Times(g.sectorSize, g.sectors) <= g.size
    && g.size % 4 == 0
  }

  // ----- the 32 bytes of one entry, read as a name entry or as a list entry -----

  type Entry = e: seq<byte> | |e| == 32 witness ErasedEntry()

  /** An entry of 255s, as a deleted one is left. */
  function ErasedEntry(): (e: seq<byte>)
    ensures |e| == 32 && forall i :: 0 <= i < 32 ==> e[i] == 255
  {
    seq(32, i => 255)
  }

  predicate Deleted(e: Entry) { e[30] % 2 == 1 }
  predicate IsList(e: Entry) { e[30] / 2 % 2 == 1 }
  function MaxSectors(e: Entry): nat { if IsList(e) then LIST_SECTORS else NAME_SECTORS }
  function Next(e: Entry): byte { e[31] }
  function Name(e: Entry): seq<byte> { e[12..28] }
  function Size(e: Entry): nat { e[28] as int + 256 * e[29] as int }
  function DescriptionOf(e: Entry): (seq<byte>, nat) { (Name(e), Size(e)) }

  function WithSize(e: Entry, size: nat): Entry
    requires size < 65536
  {
    e[28 := size % 256][29 := size / 256]
  }

  function WithName(e: Entry, name: seq<byte>): Entry
    requires |name| == NAME_LENGTH
  {
    e[..12] + name + e[28..]
  }

  /** An entry with one byte stored over. */
  function SetByte(e: Entry, i: nat, v: byte): Entry
    requires i < ENTRY_SIZE
  {
    e[i := v]
  }

  /** A fresh name entry: no sectors, no link, size 0, no flags. */
  function FreshName(name: seq<byte>): (e: Entry)
    requires |name| == NAME_LENGTH
  {
    WithSize(WithName(ErasedEntry(), name), 0)[30 := 0]
  }

  /** A fresh list entry holding one sector. */
  function FreshList(sector: byte): Entry {
    SetByte(SetByte(ErasedEntry(), 30, 2), 0, sector)
  }

  lemma FreshFacts(name: seq<byte>, sector: byte)
    requires |name| == NAME_LENGTH
    ensures var e := FreshName(name);
      && !Deleted(e) && !IsList(e) && Next(e) == NONE && Name(e) == name && Size(e) == 0
      && forall i :: 0 <= i < NAME_SECTORS ==> e[i] == NONE
    ensures var e := FreshList(sector);
      && !Deleted(e) && IsList(e) && Next(e) == NONE && e[0] == sector
      && forall i :: 0 < i < LIST_SECTORS ==> e[i] == NONE
  {
    var e := FreshName(name);
    assert forall i :: 0 <= i < NAME_SECTORS ==> e[i] == ErasedEntry()[i];
  }

  lemma ErasedIsDeleted()
    ensures Deleted(ErasedEntry())
  {
  }

  // ----- block access to the memory -----

  type Memory = seq<byte>

  predicate MemoryOk(g: Geometry, mem: Memory) { |mem| == g.size }

  function Splice(s: seq<byte>, at: nat, block: seq<byte>): (r: seq<byte>)
    requires at + |block| <= |s|
    ensures |r| == |s|
    ensures forall k :: 0 <= k < |s| ==> r[k] == if at <= k < at + |block| then block[k - at] else s[k]
  {
    s[..at] + block + s[at + |block|..]
  }

  function EntryAddress(i: nat): nat { ENTRY_SIZE * i }

  function SectorAddress(g: Geometry, s: nat): nat {
    ENTRY_SIZE * g.entries + Times(g.sectorSize, s)
  }

  function EntryAt(g: Geometry, mem: Memory, i: nat): Entry
    requires MemoryOk(g, mem) && i < g.entries
  {
    mem[EntryAddress(i)..EntryAddress(i) + ENTRY_SIZE]
  }

  lemma SectorInside(g: Geometry, s: nat)
    requires s < g.sectors
    ensures SectorAddress(g, s) + g.sectorSize <= g.size
  {
    TimesGrow(g.sectorSize, s, g.sectors);
  }

  function SectorAt(g: Geometry, mem: Memory, s: nat): (r: seq<byte>)
    requires MemoryOk(g, mem) && s < g.sectors
    ensures |r| == g.sectorSize
  {
    SectorInside(g, s);
    mem[SectorAddress(g, s)..SectorAddress(g, s) + g.sectorSize]
  }

  /** The directory as a table of entries. */
  ghost function Dir(g: Geometry, mem: Memory): (d: seq<Entry>)
    requires MemoryOk(g, mem)
    ensures |d| == g.entries
  {
    seq(g.entries, i requires 0 <= i < g.entries => EntryAt(g, mem, i))
  }

  /** The data area as a table of sectors. */
  ghost function Data(g: Geometry, mem: Memory): (d: seq<seq<byte>>)
    requires MemoryOk(g, mem)
    ensures |d| == g.sectors
    ensures forall s :: 0 <= s < g.sectors ==> |d[s]| == g.sectorSize
  {
    seq(g.sectors, s requires 0 <= s < g.sectors => SectorAt(g, mem, s))
  }

  lemma DataAt(g: Geometry, mem: Memory, s: nat)
    requires MemoryOk(g, mem) && s < g.sectors
    ensures Data(g, mem)[s] == SectorAt(g, mem, s)
  {
  }

  /** The directory with entry `i` replaced. */
  ghost function SetEntry(dir: seq<Entry>, i: nat, e: Entry): seq<Entry>
    requires i < |dir|
  {
    dir[i := e]
  }

  /** Entry `i` alone is another: its size has changed, which stands in two bytes, the low one first. */
  ghost predicate SizeStored(dir: seq<Entry>, dir': seq<Entry>, i: nat, size: nat) {
    i < |dir| && size < 65536 && dir' == dir[i := dir[i][28 := size % 256][29 := size / 256]]
  }

  /** Entry `i` alone is another: its name has changed. */
  ghost predicate NameStored(dir: seq<Entry>, dir': seq<Entry>, i: nat, name: seq<byte>) {
    i < |dir| && |name| == 16 && dir' == dir[i := dir[i][..12] + name + dir[i][28..]]
  }

  /** Entry `i` alone is another: it has no sectors, the given name, size 0, no flags, and no link. */
  ghost predicate NameEntered(dir: seq<Entry>, dir': seq<Entry>, i: nat, name: seq<byte>) {
    i < |dir| && |name| == 16 && dir' == dir[i := seq(12, _ => 255) + name + [0, 0, 0, 255]]
  }

  lemma StoredEntries(dir: seq<Entry>, i: nat, name: seq<byte>, size: nat)
    requires i < |dir| && |name| == NAME_LENGTH && size < 65536
    ensures SizeStored(dir, SetEntry(dir, i, WithSize(dir[i], size)), i, size)
    ensures NameStored(dir, SetEntry(dir, i, WithName(dir[i], name)), i, name)
    ensures NameEntered(dir, SetEntry(dir, i, FreshName(name)), i, name)
  {
    assert FreshName(name) == seq(12, _ => 255) + name + [0, 0, 0, 255];
  }

  /** Writing an entry's bytes replaces that entry and touches neither another entry nor any sector. */
  lemma EntryWrite(g: Geometry, mem: Memory, i: nat, e: Entry)
    requires MemoryOk(g, mem) && i < g.entries
    ensures Dir(g, Splice(mem, EntryAddress(i), e)) == SetEntry(Dir(g, mem), i, e)
    ensures Data(g, Splice(mem, EntryAddress(i), e)) == Data(g, mem)
  {
    var mem' := Splice(mem, EntryAddress(i), e);
    forall j | 0 <= j < g.entries
      ensures EntryAt(g, mem', j) == if j == i then e else EntryAt(g, mem, j)
    {
    }
    forall s | 0 <= s < g.sectors
      ensures SectorAt(g, mem', s) == SectorAt(g, mem, s)
    {
      SectorInside(g, s);
    }
  }

  /** Writing inside a sector changes that part of that sector only. */
  lemma SectorWrite(g: Geometry, mem: Memory, s: nat, at: nat, block: seq<byte>)
    requires MemoryOk(g, mem) && s < g.sectors && at + |block| <= g.sectorSize
    ensures SectorAddress(g, s) + at + |block| <= g.size
    ensures var mem' := Splice(mem, SectorAddress(g, s) + at, block);
      && Dir(g, mem') == Dir(g, mem)
      && Data(g, mem') == Data(g, mem)[s := Splice(Data(g, mem)[s], at, block)]
  {
    SectorInside(g, s);
    var mem' := Splice(mem, SectorAddress(g, s) + at, block);
    forall t | 0 <= t < g.sectors
      ensures SectorAt(g, mem', t) == if t == s then Splice(SectorAt(g, mem, s), at, block) else SectorAt(g, mem, t)
    {
      SectorInside(g, t);
      SectorsApart(g, s, t);
    }
    forall j | 0 <= j < g.entries
      ensures EntryAt(g, mem', j) == EntryAt(g, mem, j)
    {
    }
  }

  lemma SectorsApart(g: Geometry, s: nat, t: nat)
    ensures s < t ==> SectorAddress(g, s) + g.sectorSize <= SectorAddress(g, t)
    ensures t < s ==> SectorAddress(g, t) + g.sectorSize <= SectorAddress(g, s)
  {
    if s < t {
      TimesGrow(g.sectorSize, s, t);
    } else if t < s {
      TimesGrow(g.sectorSize, t, s);
    }
  }

  // ----- the bytes held by a list of sectors -----

  /** The contents of the listed sectors, one after the other. */
  ghost function Flat(data: seq<seq<byte>>, secs: seq<nat>): seq<byte>
    requires forall k :: 0 <= k < |secs| ==> secs[k] < |data|
  {
    if secs == [] then []
    else Flat(data, secs[..|secs| - 1]) + data[secs[|secs| - 1]]
  }

  lemma {:induction false} FlatLength(z: nat, data: seq<seq<byte>>, secs: seq<nat>)
    requires forall k :: 0 <= k < |secs| ==> secs[k] < |data|
    requires forall s :: 0 <= s < |data| ==> |data[s]| == z
    ensures |Flat(data, secs)| == Times(z, |secs|)
  {
    if secs != [] {
      FlatLength(z, data, secs[..|secs| - 1]);
      assert Times(z, |secs|) == Times(z, |secs| - 1) + z;
    }
  }

  lemma {:induction false} FlatFrame(data: seq<seq<byte>>, data': seq<seq<byte>>, secs: seq<nat>)
    requires |data| == |data'|
    requires forall k :: 0 <= k < |secs| ==> secs[k] < |data| && data[secs[k]] == data'[secs[k]]
    ensures Flat(data, secs) == Flat(data', secs)
  {
    if secs != [] {
      FlatFrame(data, data', secs[..|secs| - 1]);
    }
  }

  /** Sector number `k` of a list supplies the bytes from `k` times `z` on. */
  lemma {:induction false} FlatAt(z: nat, data: seq<seq<byte>>, secs: seq<nat>, k: nat)
    requires forall k :: 0 <= k < |secs| ==> secs[k] < |data|
    requires forall s :: 0 <= s < |data| ==> |data[s]| == z
    requires k < |secs|
    ensures Times(z, k) + z <= |Flat(data, secs)|
    ensures Flat(data, secs)[Times(z, k)..Times(z, k) + z] == data[secs[k]]
  {
    FlatLength(z, data, secs);
    FlatLength(z, data, secs[..|secs| - 1]);
    var init := Flat(data, secs[..|secs| - 1]);
    if k == |secs| - 1 {
      assert Times(z, |secs|) == Times(z, k) + z;
    } else {
      FlatAt(z, data, secs[..|secs| - 1], k);
      assert Flat(data, secs)[Times(z, k)..Times(z, k) + z] == init[Times(z, k)..Times(z, k) + z];
    }
  }

  /** Appending a sector appends its bytes. */
  lemma FlatAppend(data: seq<seq<byte>>, secs: seq<nat>, s: nat)
    requires forall k :: 0 <= k < |secs| ==> secs[k] < |data|
    requires s < |data|
    ensures Flat(data, secs + [s]) == Flat(data, secs) + data[s]
  {
    assert (secs + [s])[..|secs|] == secs;
  }

  /** Writing `block` right behind the first `n` bytes, inside the last sector, extends them by `block`. */
  lemma FlatWrite(z: nat, data: seq<seq<byte>>, secs: seq<nat>, at: nat, block: seq<byte>, data': seq<seq<byte>>)
    requires secs != []
    requires forall k :: 0 <= k < |secs| ==> secs[k] < |data|
    requires forall s :: 0 <= s < |data| ==> |data[s]| == z
    requires forall k :: 0 <= k < |secs| - 1 ==> secs[k] != secs[|secs| - 1]
    requires at + |block| <= z
    requires data' == data[secs[|secs| - 1] := Splice(data[secs[|secs| - 1]], at, block)]
    ensures var n := Times(z, |secs| - 1) + at;
      && n + |block| <= |Flat(data, secs)| == |Flat(data', secs)|
      && Flat(data', secs)[..n + |block|] == Flat(data, secs)[..n] + block
  {
    var last := secs[|secs| - 1];
    var init := secs[..|secs| - 1];
    FlatLength(z, data, init);
    FlatFrame(data, data', init);
    SplicePrefix(Flat(data, init), data[last], at, block);
  }

  lemma SplicePrefix(a: seq<byte>, b: seq<byte>, at: nat, block: seq<byte>)
    requires at + |block| <= |b|
    ensures (a + Splice(b, at, block))[..|a| + at + |block|] == (a + b)[..|a| + at] + block
  {
  }
}
