/** Cluster chains: reading and setting entries through the window, taking, linking, freeing and counting clusters. */
module FatChains {
  import opened Bits
  import opened FatWindow
  import opened FatTable

  /** The numbers of a mounted volume go together. */
  ghost predicate FatOk(g: Geometry) {
    && 2 <= g.maxClust <= 0x0FFF_FFFF && g.fatType == TypeFor(g.maxClust)
    && LastByte(g.fatType, g.maxClust - 1) < 512 * g.sectsFat
  }

  /** The bytes of the table, sector after sector. */
  ghost function FatBytes(view: seq<Disk>, g: Geometry): (r: seq<byte>)
    requires GeometryOk(view, g)
    ensures |r| == 512 * g.sectsFat
  {
    FatStartsGrow(g, 1, g.nFats);
    seq(512 * g.sectsFat, i requires 0 <= i < 512 * g.sectsFat => view[g.drive][g.fatbase + i / 512][i % 512])
  }

  lemma EntryInside(g: Geometry, c: nat)
    requires FatOk(g) && c < g.maxClust
    ensures LastByte(g.fatType, c) < 512 * g.sectsFat
  {
  }

  /** All entries of the table; the first two are not clusters. */
  ghost function Table(view: seq<Disk>, g: Geometry): (t: seq<nat>)
    requires GeometryOk(view, g) && FatOk(g)
    ensures |t| == g.maxClust
  {
    seq(g.maxClust, c requires 0 <= c < g.maxClust => EntryAt(view, g, c))
  }

  ghost function EntryAt(view: seq<Disk>, g: Geometry, c: nat): (r: nat)
    requires GeometryOk(view, g) && FatOk(g) && c < g.maxClust
    ensures r < Width(g.fatType)
  {
    EntryInside(g, c);
    GetEntry(g.fatType, FatBytes(view, g), c)
  }

  /** Only sectors of the copies of this table differ. */
  ghost predicate TableOnly(view: seq<Disk>, view': seq<Disk>, g: Geometry) {
    && |view'| == |view|
    && forall d: nat, a: nat {:trigger InTable(g, d, a)} :: d < |view| && !InTable(g, d, a) ==>
      |view'[d]| == |view[d]| && (a < |view[d]| ==> view'[d][a] == view[d][a])
  }

  ghost predicate InTable(g: Geometry, d: nat, a: nat) {
    d == g.drive && g.fatbase <= a < FatStart(g, g.nFats)
  }

  lemma TableOnlySame(view: seq<Disk>, g: Geometry)
    ensures TableOnly(view, view, g)
  {
  }

  lemma TableOnlyTransitive(a: seq<Disk>, b: seq<Disk>, c: seq<Disk>, g: Geometry)
    requires TableOnly(a, b, g) && TableOnly(b, c, g)
    ensures TableOnly(a, c, g)
  {
  }

  lemma TableSectorOnly(view: seq<Disk>, g: Geometry, s: nat, data: Sector)
    requires GeometryOk(view, g) && InFirstFat(g, s)
    ensures TableOnly(view, Written(view, g, s, data), g)
  {
    hide Hit, Written;
    FatStartsGrow(g, 1, g.nFats);
    forall d: nat, a: nat | d < |view| && !InTable(g, d, a) && a < |view[d]|
      ensures Written(view, g, s, data)[d][a] == view[d][a]
    {
      if d == g.drive {
        WrittenAt(view, g, s, data, a);
      } else {
        WrittenDrive(view, g, s, data, d);
      }
    }
  }

  lemma WrittenDrive(view: seq<Disk>, g: Geometry, s: nat, data: Sector, d: nat)
    requires g.drive < |view| && d < |view| && d != g.drive
    ensures Written(view, g, s, data)[d] == view[d]
  {
  }

  /** A stretch of a table sector is a stretch of the table. */
  lemma StoreInTable(view: seq<Disk>, g: Geometry, i: nat, bytes: seq<byte>)
    requires GeometryOk(view, g) && i < 512 * g.sectsFat && i % 512 + |bytes| <= 512
    requires g.fatbase + i / 512 < |view[g.drive]|
    ensures var s := g.fatbase + i / 512;
      var view' := Written(view, g, s, Patch(view[g.drive][s], i % 512, bytes));
      && InFirstFat(g, s) && GeometryOk(view', g) && i + |bytes| <= 512 * g.sectsFat
      && FatBytes(view', g) == FatBytes(view, g)[..i] + bytes + FatBytes(view, g)[i + |bytes|..]
  {
    hide Hit, Written;
    var s := g.fatbase + i / 512;
    var data := Patch(view[g.drive][s], i % 512, bytes);
    var view' := Written(view, g, s, data);
    var F, F' := FatBytes(view, g), FatBytes(view', g);
    FatStartsGrow(g, 1, g.nFats);
    forall j | 0 <= j < 512 * g.sectsFat
      ensures F'[j] == if i <= j < i + |bytes| then bytes[j - i] else F[j]
    {
      TableByte(view, g, s, data, j);
      if j / 512 == i / 512 {
        assert data[j % 512] == if i % 512 <= j % 512 < i % 512 + |bytes| then bytes[j % 512 - i % 512] else view[g.drive][s][j % 512];
      }
    }
    assert F' == F[..i] + bytes + F[i + |bytes|..];
  }

  lemma TableByte(view: seq<Disk>, g: Geometry, s: nat, data: Sector, j: nat)
    requires GeometryOk(view, g) && InFirstFat(g, s) && j < 512 * g.sectsFat
    ensures GeometryOk(Written(view, g, s, data), g) && g.fatbase + j / 512 < |view[g.drive]|
    ensures FatBytes(Written(view, g, s, data), g)[j] == if g.fatbase + j / 512 == s then data[j % 512] else FatBytes(view, g)[j]
  {
    hide Hit, Written;
    FatStartsGrow(g, 1, g.nFats);
    var a := g.fatbase + j / 512;
    WrittenAt(view, g, s, data, a);
    HitCopies(g, s, 0, j / 512);
  }

  // ----- where an entry lies -----

  /** The first byte of entry `c`. */
  function FirstByte(kind: FatType, c: nat): nat {
    match kind
    case Fat12 => c + c / 2
    case Fat16 => 2 * c
    case Fat32 => 4 * c
  }

  /** The sums with which the program finds sector and offset, in 16 bits where it cuts, name the place of the entry. */
  lemma Place16(c: nat)
    ensures c / 256 == 2 * c / 512 && ((c % 0x1_0000) * 2) % 512 == 2 * c % 512 <= 510
  {
    var q, r := c / 0x1_0000, c % 0x1_0000;
    WholeSectors(2 * r, 256 * q);
    assert 2 * c == 2 * r + 512 * (256 * q);
  }

  lemma Place32(c: nat)
    ensures c / 128 == 4 * c / 512 && ((c % 0x1_0000) * 4) % 512 == 4 * c % 512 <= 508
  {
    var q, r := c / 0x1_0000, c % 0x1_0000;
    WholeSectors(4 * r, 512 * q);
    assert 4 * c == 4 * r + 512 * (512 * q);
  }

  lemma WholeSectors(x: nat, k: nat)
    ensures (x + 512 * k) % 512 == x % 512
  {
  }

  lemma Place12(c: nat)
    requires c < 0x1000
    ensures (c % 0x1_0000) * 3 / 2 == c + c / 2
  {
  }

  lemma TableSectors(g: Geometry, i: nat)
    requires i < 512 * g.sectsFat && 0 < g.nFats && 0 < g.fatbase && FatStart(g, g.nFats) <= g.database <= g.end
      && g.start < g.fatbase
    ensures InFirstFat(g, g.fatbase + i / 512) && InVolume(g, g.fatbase + i / 512) && Writable(g, g.fatbase + i / 512)
  {
    FatStartsGrow(g, 1, g.nFats);
  }

  class FatFs {
    const w: Window
    const v: nat
    /** Where the search for a free cluster starts, or 0 for no hint. */
    var lastClust: nat
    /** The number of free clusters, or UNKNOWN. */
    var freeClust: dword
    /** The counts on the disk are out of date. */
    var fsiFlag: bool

    constructor (w: Window, v: nat, lastClust: nat, freeClust: dword)
      requires w.Valid() && v < |w.vols| && FatOk(w.vols[v])
      ensures this.w == w && this.v == v && Valid() && this.lastClust == lastClust && this.freeClust == freeClust
    {
      this.w, this.v, this.lastClust, this.freeClust, fsiFlag := w, v, lastClust, freeClust, false;
    }

    ghost predicate Valid()
      reads w
    {
      w.Valid() && v < |w.vols| && FatOk(w.vols[v])
    }

    function G(): Geometry
      requires v < |w.vols|
    {
      w.vols[v]
    }

    ghost function T(): (t: seq<nat>)
      requires Valid()
      reads w
      ensures |t| == G().maxClust
    {
      Table(w.V(), G())
    }

    ghost function Bytes(): (r: seq<byte>)
      requires Valid()
      reads w
      ensures |r| == 512 * G().sectsFat
    {
      FatBytes(w.V(), G())
    }

    /** Moves the window to the sector with byte `i` of the table; an outdated one holds no such sector. */
    method MoveTo(i: nat)
      requires Valid() && i < 512 * G().sectsFat
      modifies w
      ensures Valid() && w.V() == old(w.V()) && AtByte(i)
    {
      hide Written, CopiesEqual, View;
      VolumeOk();
      TableSectors(G(), i);
      FatStartsGrow(G(), 1, G().nFats);
      w.MoveWindow(v, G().fatbase + i / 512);
      HeldSector(w.disks, w.vols, w.buf);
    }

    lemma VolumeOk()
      requires Valid()
      ensures GeometryOk(w.V(), G()) && G().fatbase > 0
    {
    }

    /** The window holds the sector with byte `i` of the table. */
    ghost predicate AtByte(i: nat)
      requires Valid()
      reads w
    {
      && i < 512 * G().sectsFat && w.Fresh() && w.Holds(v, G().fatbase + i / 512) && Writable(G(), w.buf.sect)
      && w.buf.sect < |w.V()[G().drive]|
      && w.buf.data == w.V()[G().drive][G().fatbase + i / 512]
      && forall j: nat :: j < 512 * G().sectsFat && j / 512 == i / 512 ==> Bytes()[j] == w.buf.data[j % 512]
    }

    /** The window holds a sector of the table. */
    ghost predicate OnTable()
      requires v < |w.vols|
      reads w
    {
      w.Fresh() && w.buf.fs == v && InFirstFat(G(), w.buf.sect)
    }

    /** Changes a stretch of the table inside the window. */
    method StoreAt(i: nat, bytes: seq<byte>)
      requires Valid() && AtByte(i) && i % 512 + |bytes| <= 512
      modifies w
      ensures Valid() && OnTable() && TableOnly(old(w.V()), w.V(), G())
      ensures i + |bytes| <= 512 * G().sectsFat && Bytes() == old(Bytes())[..i] + bytes + old(Bytes())[i + |bytes|..]
    {
      hide Written, CopiesEqual, View, FatBytes, TableOnly;
      StoreInTable(w.V(), G(), i, bytes);
      TableSectorOnly(w.V(), G(), G().fatbase + i / 512, Patch(w.buf.data, i % 512, bytes));
      w.Store(i % 512, bytes);
    }

    /** The entry of a cluster, or 1 if there is no such cluster. */
    method GetCluster(clust: nat) returns (r: nat)
      requires Valid()
      modifies w
      ensures Valid() && w.V() == old(w.V())
      ensures r == if 2 <= clust < G().maxClust then T()[clust] else 1
      ensures (2 <= clust < G().maxClust ==> OnTable()) && (old(w.Fresh()) ==> w.Fresh())
    {
      hide Table, FatBytes, View, AtByte, GetEntry;
      var g := G();
      r := 1;
      if 2 <= clust < g.maxClust {
        TableEntry(w.V(), g, clust);
        match g.fatType {
          case Fat12 => r := GetCluster12(clust);
          case Fat16 => r := GetCluster16(clust);
          case Fat32 => r := GetCluster32(clust);
        }
      }
    }

    /** A 12-bit entry, whose two bytes may lie in two sectors. */
    method GetCluster12(clust: nat) returns (r: nat)
      requires Valid() && G().fatType == Fat12 && clust < G().maxClust
      modifies w
      ensures Valid() && OnTable() && w.V() == old(w.V())
      ensures LastByte(Fat12, clust) < |Bytes()| && r == GetEntry(Fat12, Bytes(), clust)
    {
      hide Table, FatBytes, View, CopiesEqual;
      EntryInside(G(), clust);
      Place12(clust);
      var bc := (clust % 0x1_0000) * 3 / 2;
      MoveTo(bc);
      var wc: nat := w.buf.data[bc % 512];
      bc := bc + 1;
      MoveTo(bc);
      var hi: nat := w.buf.data[bc % 512];
      WordParts(hi, wc);
      wc := wc + 256 * hi;
      r := if clust % 2 == 1 then wc / 16 else wc % 0x1000;
    }

    method GetCluster16(clust: nat) returns (r: nat)
      requires Valid() && G().fatType == Fat16 && clust < G().maxClust
      modifies w
      ensures Valid() && OnTable() && w.V() == old(w.V())
      ensures LastByte(Fat16, clust) < |Bytes()| && r == GetEntry(Fat16, Bytes(), clust)
    {
      hide Table, FatBytes, View, CopiesEqual;
      EntryInside(G(), clust);
      Place16(clust);
      MoveTo(2 * clust);
      r := LoadWord(w.buf.data, ((clust % 0x1_0000) * 2) % 512);
      SameSector(2 * clust, 1);
      assert Bytes()[2 * clust + 1] == w.buf.data[2 * clust % 512 + 1];
    }

    method GetCluster32(clust: nat) returns (r: nat)
      requires Valid() && G().fatType == Fat32 && clust < G().maxClust
      modifies w
      ensures Valid() && OnTable() && w.V() == old(w.V())
      ensures LastByte(Fat32, clust) < |Bytes()| && r == GetEntry(Fat32, Bytes(), clust)
    {
      hide Table, FatBytes, View, CopiesEqual;
      EntryInside(G(), clust);
      Place32(clust);
      MoveTo(4 * clust);
      r := LoadDword(w.buf.data, ((clust % 0x1_0000) * 4) % 512) % 0x1000_0000;
      SameSector(4 * clust, 1);
      SameSector(4 * clust, 2);
      SameSector(4 * clust, 3);
      ghost var i := 4 * clust;
      assert Bytes()[i + 1] == w.buf.data[i % 512 + 1] && Bytes()[i + 2] == w.buf.data[i % 512 + 2]
        && Bytes()[i + 3] == w.buf.data[i % 512 + 3];
    }

    /** Sets the entry of a cluster. */
    method PutCluster(clust: nat, val: nat)
      requires Valid() && clust < G().maxClust
      modifies w
      ensures Valid() && OnTable() && TableOnly(old(w.V()), w.V(), G())
      ensures T() == old(T())[clust := val % Width(G().fatType)]
    {
      hide Table, FatBytes, View, AtByte, PutEntry, TableOnly;
      var g := G();
      TableEntry(w.V(), g, clust);
      match g.fatType {
        case Fat12 => PutCluster12(clust, val);
        case Fat16 => PutCluster16(clust, val);
        case Fat32 => PutCluster32(clust, val);
      }
      PutTable(old(w.V()), w.V(), g, clust, val);
    }

    method PutCluster12(clust: nat, val: nat)
      requires Valid() && G().fatType == Fat12 && clust < G().maxClust && LastByte(Fat12, clust) < |Bytes()|
      modifies w
      ensures Valid() && OnTable() && TableOnly(old(w.V()), w.V(), G())
      ensures Bytes() == PutEntry(Fat12, old(Bytes()), clust, val)
    {
      hide Table, FatBytes, View, CopiesEqual, TableOnly, Low12, High12;
      ghost var F, view := Bytes(), w.V();
      Place12(clust);
      var bc := (clust % 0x1_0000) * 3 / 2;
      MoveTo(bc);
      StoreAt(bc, [Low12(clust, w.buf.data[bc % 512], val)]);
      OneByte(F, bc, Low12(clust, F[bc], val));
      ghost var mid := w.V();
      bc := bc + 1;
      MoveTo(bc);
      StoreAt(bc, [High12(clust, w.buf.data[bc % 512], val)]);
      OneByte(F[bc - 1 := Low12(clust, F[bc - 1], val)], bc, High12(clust, F[bc], val));
      TableOnlyTransitive(view, mid, w.V(), G());
    }

    method PutCluster16(clust: nat, val: nat)
      requires Valid() && G().fatType == Fat16 && clust < G().maxClust && LastByte(Fat16, clust) < |Bytes()|
      modifies w
      ensures Valid() && OnTable() && TableOnly(old(w.V()), w.V(), G())
      ensures Bytes() == PutEntry(Fat16, old(Bytes()), clust, val)
    {
      hide Table, FatBytes, View, CopiesEqual, TableOnly, ByteOf;
      ghost var F := Bytes();
      Place16(clust);
      MoveTo(2 * clust);
      StoreAt(2 * clust, [ByteOf(val, 0), ByteOf(val, 1)]);
      TwoMore(F, 2 * clust, ByteOf(val, 0), ByteOf(val, 1));
    }

    method PutCluster32(clust: nat, val: nat)
      requires Valid() && G().fatType == Fat32 && clust < G().maxClust && LastByte(Fat32, clust) < |Bytes()|
      modifies w
      ensures Valid() && OnTable() && TableOnly(old(w.V()), w.V(), G())
      ensures Bytes() == PutEntry(Fat32, old(Bytes()), clust, val)
    {
      hide Table, FatBytes, View, CopiesEqual, TableOnly, ByteOf;
      ghost var F := Bytes();
      Place32(clust);
      MoveTo(4 * clust);
      StoreAt(4 * clust, [ByteOf(val, 0), ByteOf(val, 1), ByteOf(val, 2), ByteOf(val, 3)]);
      FourMore(F, 4 * clust, ByteOf(val, 0), ByteOf(val, 1), ByteOf(val, 2), ByteOf(val, 3));
    }
  }

  lemma OneByte(F: seq<byte>, i: nat, x: byte)
    requires i < |F|
    ensures F[..i] + [x] + F[i + 1..] == F[i := x]
  {
  }

  lemma TwoMore(F: seq<byte>, i: nat, a: byte, b: byte)
    requires i + 1 < |F|
    ensures F[..i] + [a, b] + F[i + 2..] == F[i := a][i + 1 := b]
  {
  }

  lemma FourMore(F: seq<byte>, i: nat, a: byte, b: byte, c: byte, d: byte)
    requires i + 3 < |F|
    ensures F[..i] + [a, b, c, d] + F[i + 4..] == F[i := a][i + 1 := b][i + 2 := c][i + 3 := d]
  {
  }

  /** Setting an entry in the bytes sets it in the table, cut to its width, and changes no other. */
  lemma PutTable(view: seq<Disk>, view': seq<Disk>, g: Geometry, clust: nat, val: nat)
    requires GeometryOk(view, g) && GeometryOk(view', g) && FatOk(g) && clust < g.maxClust
    requires LastByte(g.fatType, clust) < |FatBytes(view, g)|
    requires FatBytes(view', g) == PutEntry(g.fatType, FatBytes(view, g), clust, val)
    ensures Table(view', g) == Table(view, g)[clust := val % Width(g.fatType)]
  {
    hide FatBytes, PutEntry, GetEntry, LastByte;
    forall c: nat | c < g.maxClust
      ensures Table(view', g)[c] == if c == clust then val % Width(g.fatType) else Table(view, g)[c]
    {
      EntryInside(g, c);
      if c == clust {
        GetPut(g.fatType, FatBytes(view, g), clust, val);
      } else {
        GetPutOther(g.fatType, FatBytes(view, g), clust, val, c);
      }
    }
  }

  lemma SameSector(i: nat, k: nat)
    requires i % 512 + k < 512
    ensures (i + k) / 512 == i / 512 && (i + k) % 512 == i % 512 + k
  {
  }

  lemma TableEntry(view: seq<Disk>, g: Geometry, c: nat)
    requires GeometryOk(view, g) && FatOk(g) && c < g.maxClust
    ensures LastByte(g.fatType, c) < |FatBytes(view, g)|
      && Table(view, g)[c] == GetEntry(g.fatType, FatBytes(view, g), c)
  {
  }

  lemma WordParts(hi: nat, wc: nat)
    requires wc < 256
    ensures (wc + 256 * hi) / 16 == wc / 16 + 16 * hi && (wc + 256 * hi) % 0x1000 == wc + 256 * (hi % 16)
  {
  }
}