/** Counting the free clusters of a volume, and writing the counts back. */
module FatCount {
  import opened Bits
  import opened Common
  import opened FatWindow
  import opened FatTable
  import opened FatChains
  import opened FatAlloc
  import opened FatLayout

  /** Entry `i` with all its bits, as the scan over whole sectors sees it. */
  function RawEntry(kind: FatType, F: seq<byte>, i: nat): nat
    requires kind != Fat12 && LastByte(kind, i) < |F|
  {
    if kind == Fat16 then LoadWord(F, 2 * i) else LoadDword(F, 4 * i)
  }

  /** The first `k` entries are there to be counted. */
  predicate Countable(kind: FatType, F: seq<byte>, k: nat) {
    kind != Fat12 && (k > 0 ==> LastByte(kind, k - 1) < |F|)
  }

  /** The number of zero entries among the first `n`, the two reserved ones included. */
  function RawZeros(kind: FatType, F: seq<byte>, n: nat): (k: nat)
    requires Countable(kind, F, n)
    ensures k <= n
  {
    if n == 0 then 0 else RawZeros(kind, F, n - 1) + (if RawEntry(kind, F, n - 1) == 0 then 1 else 0)
  }

  /** How many of the first `n` entries are free clusters that the scan misses: 32-bit entries zero in their low 28 bits only. */
  function Masked(kind: FatType, F: seq<byte>, n: nat): (k: nat)
    requires Countable(kind, F, n)
    ensures k <= n && (kind == Fat16 ==> k == 0)
  {
    if n <= 2 then 0
    else Masked(kind, F, n - 1) + (if RawEntry(kind, F, n - 1) != 0 && GetEntry(kind, F, n - 1) == 0 then 1 else 0)
  }

  /** How many of the first `n` entries the scan counts though they are no clusters: the first two, if zero. */
  function ZeroReserved(kind: FatType, F: seq<byte>, n: nat): (k: nat)
    requires Countable(kind, F, n)
  {
    (if n > 0 && RawEntry(kind, F, 0) == 0 then 1 else 0) + (if n > 1 && RawEntry(kind, F, 1) == 0 then 1 else 0)
  }

  /** What the scan counts and misses, and what there is. */
  lemma {:induction false} RawAccount(view: seq<Disk>, g: Geometry, n: nat)
    requires GeometryOk(view, g) && FatOk(g) && g.fatType != Fat12 && n <= g.maxClust
    requires Countable(g.fatType, FatBytes(view, g), n)
    ensures RawZeros(g.fatType, FatBytes(view, g), n) + Masked(g.fatType, FatBytes(view, g), n)
      == Zeros(Table(view, g), n) + ZeroReserved(g.fatType, FatBytes(view, g), n)
  {
    hide FatBytes, RawEntry, GetEntry;
    if n > 0 {
      EntryInside(g, n - 1);
      CountableBefore(g.fatType, FatBytes(view, g), n);
      RawAccount(view, g, n - 1);
      TableEntry(view, g, n - 1);
      RawZeroIsZero(g.fatType, FatBytes(view, g), n - 1);
    }
  }

  lemma CountableBefore(kind: FatType, F: seq<byte>, n: nat)
    requires Countable(kind, F, n) && n > 0
    ensures Countable(kind, F, n - 1)
  {
  }

  lemma RawZeroIsZero(kind: FatType, F: seq<byte>, i: nat)
    requires kind != Fat12 && LastByte(kind, i) < |F|
    ensures RawEntry(kind, F, i) == 0 ==> GetEntry(kind, F, i) == 0
  {
  }

  /** The scan counts the free clusters if and only if it misses as many as it counts in excess. */
  lemma RawIsZeros(view: seq<Disk>, g: Geometry)
    requires GeometryOk(view, g) && FatOk(g) && g.fatType != Fat12
      && Countable(g.fatType, FatBytes(view, g), g.maxClust)
    ensures Scanned(view, g) == Zeros(Table(view, g), g.maxClust)
      <==> Masked(g.fatType, FatBytes(view, g), g.maxClust) == ZeroReserved(g.fatType, FatBytes(view, g), g.maxClust)
  {
    hide FatBytes, RawEntry, GetEntry, Table, Masked, ZeroReserved;
    RawAccount(view, g, g.maxClust);
  }

  /** A mounted volume with 4094 clusters of one sector and a table of zeros. */
  function BlankVolume(): (r: (seq<Disk>, Geometry)) {
    var zero: Sector := seq(512, _ => 0);
    ([seq(4111, _ => zero)], Geometry(0, 0, 4111, 1, 16, 1, 17, 17, 1, 0x1000, Fat16, 0))
  }

  /** On it the scan counts 4096 free clusters, two more than there are. */
  lemma BlankMiscounts()
    ensures var (view, g) := BlankVolume();
      && GeometryOk(view, g) && ClustersOk(g) && g.fatType == Fat16
      && Scanned(view, g) == 4096 && Zeros(Table(view, g), g.maxClust) == 4094
  {
    var (view, g) := BlankVolume();
    assert FatStart(g, 1) == FatStart(g, 0) + 16;
    BlankBytes();
    SectorsInOrder(g, 0x1000);
    AllZero(FatBytes(view, g), g.maxClust);
    RawAccount(view, g, g.maxClust);
  }

  lemma BlankBytes()
    ensures var (view, g) := BlankVolume();
      GeometryOk(view, g) && FatOk(g) && forall i :: 0 <= i < |FatBytes(view, g)| ==> FatBytes(view, g)[i] == 0
  {
    var (view, g) := BlankVolume();
    assert FatStart(g, 1) == FatStart(g, 0) + 16;
  }

  lemma {:induction false} AllZero(F: seq<byte>, n: nat)
    requires Countable(Fat16, F, n) && forall i :: 0 <= i < |F| ==> F[i] == 0
    ensures RawZeros(Fat16, F, n) == n
  {
    if n > 0 {
      AllZero(F, n - 1);
    }
  }

  /** What the scan finds, before any limit. */
  ghost function Scanned(view: seq<Disk>, g: Geometry): nat
    requires GeometryOk(view, g) && FatOk(g)
  {
    if g.fatType == Fat12 then Zeros(Table(view, g), g.maxClust)
    else
      EntryInside(g, g.maxClust - 1);
      RawZeros(g.fatType, FatBytes(view, g), g.maxClust)
  }

  /**
   The number of free clusters: the stored one if it is possible, else counted. Counting stops at
   `limit`, if that is not 0 and entries have more than 12 bits; only a count below the limit is stored.
   */
  method GetFree(fs: FatFs, limit: nat) returns (n: nat)
    requires fs.Valid()
    modifies fs, fs.w
    ensures fs.Valid() && fs.w.V() == old(fs.w.V()) && fs.lastClust == old(fs.lastClust)
    ensures old(fs.freeClust) as int <= fs.G().maxClust - 2 ==> n == old(fs.freeClust) && fs.freeClust == old(fs.freeClust)
    ensures old(fs.freeClust) as int > fs.G().maxClust - 2 ==>
      && ScanResult(fs.w.V(), fs.G(), limit, n)
      && fs.freeClust == if n < limit then n else old(fs.freeClust)
    ensures fs.fsiFlag <==>
      old(fs.fsiFlag) || (old(fs.freeClust) as int > fs.G().maxClust - 2 && n < limit && fs.G().fatType == Fat32)
  {
    hide Table, FatBytes, Zeros;
    fs.VolumeOk();
    if fs.freeClust <= fs.G().maxClust - 2 {
      return fs.freeClust;
    }
    if fs.G().fatType == Fat12 {
      n := Count12(fs);
    } else {
      n := CountRaw(fs, limit);
    }
    if n < limit {
      fs.freeClust := n;
      if fs.G().fatType == Fat32 {
        fs.fsiFlag := true;
      }
    }
  }

  ghost predicate ScanResult(view: seq<Disk>, g: Geometry, limit: nat, n: nat) {
    && GeometryOk(view, g) && FatOk(g) && n <= g.maxClust
    && n == if g.fatType == Fat12 || limit == 0 then Scanned(view, g) else Least(Scanned(view, g), limit)
  }

  /** Counts 12-bit entries one by one. */
  method Count12(fs: FatFs) returns (n: nat)
    requires fs.Valid() && fs.G().fatType == Fat12
    modifies fs.w
    ensures fs.Valid() && fs.w.V() == old(fs.w.V()) && n == Zeros(fs.T(), fs.G().maxClust)
  {
    hide Table, View, BufOk, FatBytes, Zeros;
    fs.VolumeOk();
    ghost var t := fs.T();
    NoneYet(t);
    n := 0;
    var clust := 2;
    while true
      invariant fs.Valid() && fs.w.V() == old(fs.w.V())
      invariant 2 <= clust <= fs.G().maxClust && (clust < fs.G().maxClust || clust == 2) && n == Zeros(t, clust)
      decreases fs.G().maxClust - clust
    {
      if clust < fs.G().maxClust {
        TableEntry(fs.w.V(), fs.G(), clust);
        OneMore(t, clust);
      }
      var e := fs.GetCluster(clust);
      if e % 0x1_0000 == 0 {
        n := n + 1;
      }
      clust := clust + 1;
      if clust >= fs.G().maxClust {
        break;
      }
    }
  }

  /**
   Counts entries of 16 or 32 bits sector by sector. A byte counts through each sector and comes back to
   zero at its end, 256 words or 128 double words later.
   */
  method CountRaw(fs: FatFs, limit: nat) returns (n: nat)
    requires fs.Valid() && fs.G().fatType != Fat12
    modifies fs.w
    ensures fs.Valid() && fs.w.V() == old(fs.w.V())
    ensures n == if limit == 0 then Scanned(fs.w.V(), fs.G()) else Least(Scanned(fs.w.V(), fs.G()), limit)
  {
    hide Table, FatBytes, RawEntry, RawZeros, View, BufOk, FirstByte, ZeroAt, Scanned, LastByte, EntrySize, Tick,
      Sectors, Offset, Countable;
    fs.VolumeOk();
    ghost var F, kind, k: nat := fs.Bytes(), fs.G().fatType, 0;
    EntryInside(fs.G(), fs.G().maxClust - 1);
    NoneCounted(kind, F);
    FirstInside(kind, 0);
    ScannedIs(fs.w.V(), fs.G());
    var clust, sect, f, p := fs.G().maxClust, fs.G().fatbase, 0, 0;
    n := 0;
    while true
      invariant fs.Valid() && fs.w.V() == old(fs.w.V())
      invariant 0 < clust <= fs.G().maxClust && k == fs.G().maxClust - clust
      invariant f == Tick(kind, k) && sect == fs.G().fatbase + Sectors(kind, k)
      invariant f != 0 ==> fs.AtByte(FirstByte(kind, k)) && p == Offset(kind, k)
      invariant limit != 0 ==> n <= limit
      invariant LastByte(kind, fs.G().maxClust - 1) < |F| && Countable(kind, F, k) && n == RawZeros(kind, F, k)
      decreases clust
    {
      if limit != 0 && n >= limit {
        RawMore(kind, F, k, fs.G().maxClust);
        n := limit;
        break;
      }
      StepFacts(kind, k);
      EntryInside(fs.G(), k);
      FirstInside(kind, k);
      if f == 0 {
        fs.MoveTo(512 * (sect - fs.G().fatbase));
        sect, p := sect + 1, 0;
      }
      RawInWindow(fs, F, k, p);
      if ZeroAt(fs.G().fatType, fs.w.buf.data, p) {
        n := n + 1;
      }
      p, f := p + EntrySize(fs.G().fatType), (f + EntrySize(fs.G().fatType) / 2) % 256;
      RawStep(kind, F, k);
      StepFacts(kind, k + 1);
      if clust > 1 && f != 0 {
        NextInWindow(fs, k);
      }
      k, clust := k + 1, clust - 1;
      if clust == 0 {
        break;
      }
    }
  }

  lemma ScannedIs(view: seq<Disk>, g: Geometry)
    requires GeometryOk(view, g) && FatOk(g) && g.fatType != Fat12
      && LastByte(g.fatType, g.maxClust - 1) < |FatBytes(view, g)|
    ensures Scanned(view, g) == RawZeros(g.fatType, FatBytes(view, g), g.maxClust)
  {
  }

  lemma NoneYet(t: seq<nat>)
    requires |t| >= 2
    ensures Zeros(t, 2) == 0
  {
  }

  lemma OneMore(t: seq<nat>, c: nat)
    requires 2 <= c < |t|
    ensures Zeros(t, c + 1) == Zeros(t, c) + (if t[c] == 0 then 1 else 0)
  {
  }

  lemma NoneCounted(kind: FatType, F: seq<byte>)
    requires kind != Fat12
    ensures RawZeros(kind, F, 0) == 0 && Countable(kind, F, 0)
    ensures Tick(kind, 0) == 0 && Sectors(kind, 0) == 0
  {
  }

  lemma {:induction false} RawMore(kind: FatType, F: seq<byte>, k: nat, n: nat)
    requires kind != Fat12 && k <= n && 0 < n && LastByte(kind, n - 1) < |F|
    ensures Countable(kind, F, k) && RawZeros(kind, F, k) <= RawZeros(kind, F, n)
  {
    hide RawEntry;
    if k < n && n > 1 {
      RawMore(kind, F, k, n - 1);
    }
  }

  lemma RawStep(kind: FatType, F: seq<byte>, k: nat)
    requires kind != Fat12 && LastByte(kind, k) < |F|
    ensures Countable(kind, F, k) && Countable(kind, F, k + 1)
    ensures RawZeros(kind, F, k + 1) == RawZeros(kind, F, k) + (if RawEntry(kind, F, k) == 0 then 1 else 0)
  {
    hide RawEntry;
  }

  /** The counter inside a sector, the sectors begun, and the offset in the sector, after `k` entries. */
  function Tick(kind: FatType, k: nat): nat { FirstByte(kind, k) / 2 % 256 }

  function Sectors(kind: FatType, k: nat): nat { (FirstByte(kind, k) + 511) / 512 }

  function Offset(kind: FatType, k: nat): nat { FirstByte(kind, k) % 512 }

  /** The byte counter is zero exactly at the start of a sector, and moves on with the offset. */
  lemma StepFacts(kind: FatType, k: nat)
    requires kind != Fat12
    ensures Tick(kind, k) == 0 <==> Offset(kind, k) == 0
    ensures Offset(kind, k) == 0 ==> 512 * Sectors(kind, k) == FirstByte(kind, k)
    ensures Offset(kind, k) + EntrySize(kind) <= 512
    ensures Tick(kind, k + 1) == (Tick(kind, k) + EntrySize(kind) / 2) % 256
    ensures Sectors(kind, k + 1) == if Offset(kind, k) == 0 then Sectors(kind, k) + 1 else Sectors(kind, k)
    ensures Tick(kind, k + 1) == 0 <==> Offset(kind, k + 1) == 0
    ensures Offset(kind, k + 1) != 0 ==> Offset(kind, k + 1) == Offset(kind, k) + EntrySize(kind)
    ensures Offset(kind, k + 1) != 0 ==> FirstByte(kind, k + 1) / 512 == FirstByte(kind, k) / 512
  {
    hide Tick, Sectors, Offset, FirstByte, EntrySize;
    if kind == Fat16 {
      Step16(k);
    } else {
      Step32(k);
    }
  }

  lemma Step16(k: nat)
    ensures Tick(Fat16, k) == 0 <==> Offset(Fat16, k) == 0
    ensures Offset(Fat16, k) == 0 ==> 512 * Sectors(Fat16, k) == FirstByte(Fat16, k)
    ensures Offset(Fat16, k) + EntrySize(Fat16) <= 512
    ensures Tick(Fat16, k + 1) == (Tick(Fat16, k) + EntrySize(Fat16) / 2) % 256
    ensures Sectors(Fat16, k + 1) == if Offset(Fat16, k) == 0 then Sectors(Fat16, k) + 1 else Sectors(Fat16, k)
    ensures Tick(Fat16, k + 1) == 0 <==> Offset(Fat16, k + 1) == 0
    ensures Offset(Fat16, k + 1) != 0 ==> Offset(Fat16, k + 1) == Offset(Fat16, k) + EntrySize(Fat16)
    ensures Offset(Fat16, k + 1) != 0 ==> FirstByte(Fat16, k + 1) / 512 == FirstByte(Fat16, k) / 512
  {
    Words(k / 256, k % 256);
  }

  lemma Step32(k: nat)
    ensures Tick(Fat32, k) == 0 <==> Offset(Fat32, k) == 0
    ensures Offset(Fat32, k) == 0 ==> 512 * Sectors(Fat32, k) == FirstByte(Fat32, k)
    ensures Offset(Fat32, k) + EntrySize(Fat32) <= 512
    ensures Tick(Fat32, k + 1) == (Tick(Fat32, k) + EntrySize(Fat32) / 2) % 256
    ensures Sectors(Fat32, k + 1) == if Offset(Fat32, k) == 0 then Sectors(Fat32, k) + 1 else Sectors(Fat32, k)
    ensures Tick(Fat32, k + 1) == 0 <==> Offset(Fat32, k + 1) == 0
    ensures Offset(Fat32, k + 1) != 0 ==> Offset(Fat32, k + 1) == Offset(Fat32, k) + EntrySize(Fat32)
    ensures Offset(Fat32, k + 1) != 0 ==> FirstByte(Fat32, k + 1) / 512 == FirstByte(Fat32, k) / 512
  {
    Dwords(k / 128, k % 128);
  }

  lemma FirstInside(kind: FatType, k: nat)
    ensures FirstByte(kind, k) <= LastByte(kind, k) && FirstByte(kind, 0) == 0
  {
  }

  lemma Words(q: nat, b: nat)
    requires b < 256
    ensures var i := 2 * (256 * q + b);
      && i / 512 == q && i % 512 == 2 * b && i / 2 % 256 == b && (i + 511) / 512 == q + (if b == 0 then 0 else 1)
      && (i + 2) / 512 == q + (if b == 255 then 1 else 0) && (i + 2) % 512 == (if b == 255 then 0 else 2 * b + 2)
      && (i + 2) / 2 % 256 == (b + 1) % 256 && (i + 2 + 511) / 512 == q + 1
  {
    var i := 2 * (256 * q + b);
    assert i == 512 * q + 2 * b && i / 2 == 256 * q + b && (i + 2) / 2 == 256 * q + (b + 1);
    Wraps(512, q, 2 * b);
    Wraps(512, q, 2 * b + 511);
    Wraps(512, q, 2 * b + 2);
    Wraps(512, q, 2 * b + 513);
    Wraps(256, q, b);
    Wraps(256, q, b + 1);
  }

  lemma Dwords(q: nat, b: nat)
    requires b < 128
    ensures var i := 4 * (128 * q + b);
      && i / 512 == q && i % 512 == 4 * b && i / 2 % 256 == 2 * b && (i + 511) / 512 == q + (if b == 0 then 0 else 1)
      && (i + 4) / 512 == q + (if b == 127 then 1 else 0) && (i + 4) % 512 == (if b == 127 then 0 else 4 * b + 4)
      && (i + 4) / 2 % 256 == (2 * b + 2) % 256 && (i + 4 + 511) / 512 == q + 1
  {
    var i := 4 * (128 * q + b);
    assert i == 512 * q + 4 * b && i / 2 == 256 * q + 2 * b && (i + 4) / 2 == 256 * q + (2 * b + 2);
    Wraps(512, q, 4 * b);
    Wraps(512, q, 4 * b + 511);
    Wraps(512, q, 4 * b + 4);
    Wraps(512, q, 4 * b + 515);
    Wraps(256, q, 2 * b);
    Wraps(256, q, 2 * b + 2);
  }

  lemma Wraps(m: nat, q: nat, x: nat)
    requires m == 256 || m == 512
    ensures (m * q + x) % m == x % m && (m * q + x) / m == q + x / m
  {
  }

  function EntrySize(kind: FatType): nat { if kind == Fat16 then 2 else 4 }

  predicate ZeroAt(kind: FatType, data: Sector, p: nat)
    requires p + EntrySize(kind) <= 512
  {
    if kind == Fat16 then LoadWord(data, p) == 0 else LoadDword(data, p) == 0
  }

  /** What the window holds of an entry is the entry. */
  lemma RawInWindow(fs: FatFs, F: seq<byte>, k: nat, p: nat)
    requires fs.Valid() && fs.G().fatType != Fat12 && k < fs.G().maxClust && F == fs.Bytes()
    requires LastByte(fs.G().fatType, k) < |F| && FirstByte(fs.G().fatType, k) < |F|
    requires fs.AtByte(FirstByte(fs.G().fatType, k)) && p == Offset(fs.G().fatType, k)
    ensures p + EntrySize(fs.G().fatType) <= 512
    ensures RawEntry(fs.G().fatType, F, k) == 0 <==> ZeroAt(fs.G().fatType, fs.w.buf.data, p)
  {
    hide View, CopiesEqual, FatBytes;
    var i := FirstByte(fs.G().fatType, k);
    StepFacts(fs.G().fatType, k);
    SameSector(i, 1);
    assert F[i + 1] == fs.w.buf.data[p + 1];
    if fs.G().fatType == Fat32 {
      SameSector(i, 2);
      SameSector(i, 3);
      assert F[i + 2] == fs.w.buf.data[p + 2] && F[i + 3] == fs.w.buf.data[p + 3];
    }
  }

  /** Unless the sector is at its end, the window also holds the next entry. */
  lemma NextInWindow(fs: FatFs, k: nat)
    requires fs.Valid() && fs.G().fatType != Fat12 && k + 1 < fs.G().maxClust
    requires fs.AtByte(FirstByte(fs.G().fatType, k)) && Offset(fs.G().fatType, k + 1) != 0
    ensures fs.AtByte(FirstByte(fs.G().fatType, k + 1))
  {
    hide View, CopiesEqual, FatBytes;
    StepFacts(fs.G().fatType, k);
    EntryInside(fs.G(), k + 1);
  }

  // ----- writing the counts back -----

  const LEAD_SIGNATURE := 0x41615252
  const STRUCTURE_SIGNATURE := 0x61417272
  const BOOT_SIGNATURE := 0xAA55

  function DwordBytes(x: nat): (r: seq<byte>)
    ensures |r| == 4
  { [ByteOf(x, 0), ByteOf(x, 1), ByteOf(x, 2), ByteOf(x, 3)] }

  function WordBytes(x: nat): (r: seq<byte>)
    ensures |r| == 2
  { [ByteOf(x, 0), ByteOf(x, 1)] }

  /** The information sector with the number of free clusters and the last one taken. */
  function InfoSector(freeClust: nat, lastClust: nat): Sector {
    var s0: Sector := seq(512, _ => 0);
    var s1 := Patch(s0, 510, WordBytes(BOOT_SIGNATURE));
    var s2 := Patch(s1, 0, DwordBytes(LEAD_SIGNATURE));
    var s3 := Patch(s2, 484, DwordBytes(STRUCTURE_SIGNATURE));
    var s4 := Patch(s3, 488, DwordBytes(freeClust));
    Patch(s4, 492, DwordBytes(lastClust))
  }

  /** What mounting takes from an information sector, if it has the three signatures. */
  function ReadInfo(data: Sector): (r: (bool, nat, nat)) {
    if LoadWord(data, 510) == BOOT_SIGNATURE && LoadDword(data, 0) == LEAD_SIGNATURE && LoadDword(data, 484) == STRUCTURE_SIGNATURE
    then (true, LoadDword(data, 488), LoadDword(data, 492))
    else (false, UNKNOWN, 0)
  }

  /** Mounting finds the counts that were written. */
  lemma InfoRoundTrip(freeClust: dword, lastClust: dword)
    ensures ReadInfo(InfoSector(freeClust, lastClust)) == (true, freeClust, lastClust)
  {
    hide ByteOf, Patch, DwordBytes, WordBytes;
    var s0: Sector := seq(512, _ => 0);
    var s1 := Put(s0, 510, WordBytes(BOOT_SIGNATURE));
    var s2 := Put(s1, 0, DwordBytes(LEAD_SIGNATURE));
    var s3 := Put(s2, 484, DwordBytes(STRUCTURE_SIGNATURE));
    var s4 := Put(s3, 488, DwordBytes(freeClust));
    var s := Put(s4, 492, DwordBytes(lastClust));
    assert s == InfoSector(freeClust, lastClust);
    assert s[510..512] == s1[510..512] && s[0..4] == s2[0..4] && s[484..488] == s3[484..488]
      && s[488..492] == s4[488..492];
    DwordBack(LEAD_SIGNATURE);
    DwordBack(STRUCTURE_SIGNATURE);
    DwordBack(freeClust);
    DwordBack(lastClust);
    WordBack(BOOT_SIGNATURE);
    LoadSlice(s, 0);
    LoadSlice(s, 484);
    LoadSlice(s, 488);
    LoadSlice(s, 492);
    assert LoadWord(s, 510) == LoadWord(s[510..512], 0);
  }

  /** Four bytes of a sector as a number, the lowest first. */
  function NumberAt(s: Sector, i: nat): nat
    requires i + 4 <= 512
  {
    s[i] as nat + 0x100 * s[i + 1] as nat + 0x1_0000 * s[i + 2] as nat + 0x100_0000 * s[i + 3] as nat
  }

  /** The information sector byte by byte: three signatures, and the numbers at 488 and 492. */
  lemma InfoBytes(freeClust: dword, lastClust: dword)
    ensures var s := InfoSector(freeClust, lastClust);
      && s[0..4] == [0x52, 0x52, 0x61, 0x41] && s[484..488] == [0x72, 0x72, 0x41, 0x61] && s[510..512] == [0x55, 0xaa]
      && NumberAt(s, 488) == freeClust && NumberAt(s, 492) == lastClust
      && forall i :: 4 <= i < 484 || 496 <= i < 510 ==> s[i] == 0
  {
    hide DwordBytes, WordBytes;
    var s0: Sector := seq(512, _ => 0);
    var s1 := Put(s0, 510, WordBytes(BOOT_SIGNATURE));
    var s2 := Put(s1, 0, DwordBytes(LEAD_SIGNATURE));
    var s3 := Put(s2, 484, DwordBytes(STRUCTURE_SIGNATURE));
    var s4 := Put(s3, 488, DwordBytes(freeClust));
    var s := Put(s4, 492, DwordBytes(lastClust));
    assert s == InfoSector(freeClust, lastClust);
    SignatureBytes();
    assert s[0..4] == s2[0..4] && s[484..488] == s3[484..488] && s[510..512] == s1[510..512];
    assert s[488..492] == s4[488..492] == DwordBytes(freeClust) && s[492..496] == DwordBytes(lastClust);
    NumberStored(s, 488, freeClust);
    NumberStored(s, 492, lastClust);
    assert s[4..484] == s0[4..484] && s[496..510] == s0[496..510];
    assert forall i :: 4 <= i < 484 ==> s[i] == s[4..484][i - 4];
    assert forall i :: 496 <= i < 510 ==> s[i] == s[496..510][i - 496];
  }

  /** Mounting takes the numbers at 488 and 492 if the three signatures are there, and else the count is not known. */
  lemma InfoTaken(s: Sector)
    ensures ReadInfo(s) ==
            if s[0..4] == [0x52, 0x52, 0x61, 0x41] && s[484..488] == [0x72, 0x72, 0x41, 0x61] && s[510..512] == [0x55, 0xaa]
            then (true, NumberAt(s, 488), NumberAt(s, 492))
            else (false, 0xffff_ffff, 0)
  {
    SignatureAt(s[0..4], LEAD_SIGNATURE);
    SignatureAt(s[484..488], STRUCTURE_SIGNATURE);
    SignatureBytes();
    LoadSlice(s, 0);
    LoadSlice(s, 484);
    assert s[510..512] == [0x55, 0xaa] <==> s[510] == 0x55 && s[511] == 0xaa;
  }

  /** Four bytes make a number exactly if they are the bytes of that number. */
  lemma SignatureAt(b: seq<byte>, x: dword)
    requires |b| == 4
    ensures LoadDword(b, 0) == x <==> b == DwordBytes(x)
  {
    hide DwordBytes;
    DwordBack(x);
    var c := DwordBytes(x);
    if LoadDword(b, 0) == x {
      SameDigits(b[0], b[1] as nat + 256 * (b[2] as nat + 256 * b[3] as nat), c[0], c[1] as nat + 256 * (c[2] as nat + 256 * c[3] as nat));
      SameDigits(b[1], b[2] as nat + 256 * b[3] as nat, c[1], c[2] as nat + 256 * c[3] as nat);
      SameDigits(b[2], b[3] as nat, c[2], c[3] as nat);
      assert b == c;
    }
  }

  lemma SameDigits(b: byte, x: nat, c: byte, y: nat)
    requires b as nat + 256 * x == c as nat + 256 * y
    ensures b == c && x == y
  {
  }

  lemma SignatureBytes()
    ensures WordBytes(BOOT_SIGNATURE) == [0x55, 0xaa] && DwordBytes(LEAD_SIGNATURE) == [0x52, 0x52, 0x61, 0x41]
    ensures DwordBytes(STRUCTURE_SIGNATURE) == [0x72, 0x72, 0x41, 0x61]
  {
  }

  lemma NumberStored(s: Sector, i: nat, x: dword)
    requires i + 4 <= 512 && s[i..i + 4] == DwordBytes(x)
    ensures NumberAt(s, i) == x
  {
    hide DwordBytes;
    var b := DwordBytes(x);
    assert s[i] == b[0] && s[i + 1] == b[1] && s[i + 2] == b[2] && s[i + 3] == b[3];
    DwordBack(x);
  }

  /** Stored bytes are found where they were put, and everything else is as before. */
  lemma Put(data: Sector, ofs: nat, bytes: seq<byte>) returns (r: Sector)
    requires ofs + |bytes| <= 512
    ensures r == Patch(data, ofs, bytes)
    ensures r[ofs..ofs + |bytes|] == bytes
    ensures forall lo, hi :: 0 <= lo <= hi <= 512 && (hi <= ofs || ofs + |bytes| <= lo) ==> r[lo..hi] == data[lo..hi]
  {
    r := Patch(data, ofs, bytes);
  }

  lemma LoadSlice(s: Sector, i: nat)
    requires i + 4 <= 512
    ensures LoadDword(s, i) == LoadDword(s[i..i + 4], 0)
  {
  }

  lemma DwordBack(x: dword)
    ensures LoadDword(DwordBytes(x), 0) == x
  {
    hide ByteOf;
    FourBytes(x);
    WholeDword(x);
  }

  lemma WholeDword(x: dword)
    ensures x % 0x1_0000_0000 == x
  {
  }

  lemma WordBack(x: nat)
    requires x < 0x1_0000
    ensures LoadWord(WordBytes(x), 0) == x
  {
    TwoBytes(x);
  }

  /** The disks with what the window holds in its sector. */
  ghost function BackFromWindow(w: Window): seq<Disk>
    requires w.Valid() && w.buf.sect != 0 && w.buf.fs < |w.vols| && Writable(w.vols[w.buf.fs], w.buf.sect)
    reads w
  {
    VolumeHere(w.V(), w.vols, w.buf.fs);
    Written(w.V(), w.vols[w.buf.fs], w.buf.sect, w.buf.data)
  }

  /**
   Writes everything back: the window, which must hold a sector that may be changed, and on a volume with
   32-bit entries the counts if they changed. The window is written whether it was changed or not; if it was outdated,
   its old bytes come back.
   */
  method Sync(fs: FatFs)
    requires fs.Valid() && fs.w.buf.sect != 0 && fs.w.buf.fs < |fs.w.vols|
      && Writable(fs.w.vols[fs.w.buf.fs], fs.w.buf.sect)
    modifies fs, fs.w
    ensures fs.Valid() && fs.w.Fresh() && fs.w.disks == fs.w.V() && !fs.w.buf.dirty
    ensures fs.freeClust == old(fs.freeClust) && fs.lastClust == old(fs.lastClust)
    ensures var g, view := fs.G(), old(BackFromWindow(fs.w));
      if g.fatType == Fat32 && old(fs.fsiFlag) then
        && !fs.fsiFlag && g.drive < |view| && g.fsiSector < |view[g.drive]|
        && fs.w.V() == view[g.drive := WithSector(view[g.drive], g.fsiSector, InfoSector(fs.freeClust, fs.lastClust))]
      else fs.w.V() == view && fs.fsiFlag == old(fs.fsiFlag)
    ensures old(fs.w.Fresh()) ==> old(BackFromWindow(fs.w)) == old(fs.w.V())
  {
    hide View, BufOk, InfoSector, Apparent, Orderly, Written;
    fs.VolumeOk();
    fs.w.Touch();
    fs.w.MoveWindow(fs.v, 0);
    if fs.G().fatType == Fat32 && fs.fsiFlag {
      fs.w.WriteReserved(fs.v, fs.G().fsiSector, InfoSector(fs.freeClust, fs.lastClust));
      fs.fsiFlag := false;
    }
  }

  /**
   On a volume with 32-bit entries whose number of free clusters is known, a cluster taken is missing from the number
   in the information sector once everything is written back, and is the one to search on from.
   */
  method TakeThenSync(fs: FatFs, clust: nat) returns (r: nat)
    requires fs.Valid() && fs.G().fatType == Fat32 && fs.freeClust != 0xFFFF_FFFF
    modifies fs, fs.w
    ensures fs.Valid()
    ensures TakesOne(old(fs.T()), clust, r) ==>
      && fs.w.disks == fs.w.V() && InfoThere(fs) && !fs.fsiFlag
      && NumberAt(InfoOf(fs), 488) == (if old(fs.freeClust) == 0 then 0xFFFF_FFFF else old(fs.freeClust) - 1)
      && NumberAt(InfoOf(fs), 492) == r
      && ReadInfo(InfoOf(fs)) == (true, if old(fs.freeClust) == 0 then 0xFFFF_FFFF else old(fs.freeClust) - 1, r)
  {
    hide View, BufOk, Orderly, Apparent, Written, InfoSector, Stretched, Table, TableOnly, CountRight, NumberAt, ReadInfo;
    ghost var t := fs.T();
    r := CreateChain(fs, clust);
    if r >= 2 {
      fs.VolumeOk();
      FatStartsGrow(fs.G(), 0, fs.G().nFats);
      TakenSmall(t, fs.T(), clust, r, old(fs.lastClust));
      Sync(fs);
      if TakesOne(t, clust, r) {
        InfoBytes(fs.freeClust, fs.lastClust);
        InfoRoundTrip(fs.freeClust, fs.lastClust);
      }
    }
  }

  ghost predicate InfoThere(fs: FatFs)
    reads fs.w
  {
    fs.Valid() && fs.G().drive < |fs.w.V()| && fs.G().fsiSector < |fs.w.V()[fs.G().drive]|
  }

  ghost function InfoOf(fs: FatFs): Sector
    requires InfoThere(fs)
    reads fs.w
  {
    fs.w.V()[fs.G().drive][fs.G().fsiSector]
  }

  lemma TakenSmall(t: seq<nat>, t': seq<nat>, clust: nat, r: nat, lastClust: nat)
    requires Stretched(t, t', clust, r, lastClust) && r >= 2
    ensures r < |t|
  {
  }
}
