/**
 Formatting an image: whatever it held before, afterwards it has an empty directory, and its map marks as
 free everything but the sectors reserved for map and directory.
 */
module DxxFormat {
  import opened Bits
  import opened Common
  import opened DxxGeometry
  import opened DxxBam
  import opened DxxCache
  import opened DxxDrive
  import opened DxxAlloc
  import opened DxxState
  import opened DxxLayout
  import opened DxxVolume
  import opened DxxFiles

  // ----- what changes and what does not -----

  /** The bytes of map sectors that are neither bits nor counters. */
  predicate Header(f: Disk, t: nat, s: nat, pos: nat) {
    match f
    case D41 => pos < 4 || pos >= 0x90
    case D71 => t == 18 && (pos < 4 || 0x90 <= pos < 0xdd)
    case D81 => pos < 16
    case Dnp(_) => false
  }

  lemma HeaderApart(f: Disk, t: nat, s: nat, pos: nat, t': nat, s': nat)
    requires IsBam(f, t, s) && Header(f, t, s, pos) && ValidSector(f, t', s')
    ensures var b, c := BamOf(f, t', Bitfield), BamOf(f, t', FreeCount);
      (b.track, b.sector, b.pos + s' / 8) != (t, s, pos) && (c.track, c.sector, c.pos) != (t, s, pos)
  {
  }

  ghost predicate PlainSame(f: Disk, img: Image, img': Image) {
    && ImageOk(f, img) && ImageOk(f, img')
    && forall t: nat, s: nat :: ValidSector(f, t, s) && !IsBam(f, t, s) ==> img'[At(f, t, s)] == img[At(f, t, s)]
  }

  ghost predicate MapSame(f: Disk, img: Image, img': Image) {
    && ImageOk(f, img) && ImageOk(f, img') && !f.Dnp?
    && (forall t: nat, s: nat :: ValidSector(f, t, s) ==> IsFree(f, img', t, s) == IsFree(f, img, t, s))
    && (forall t :: 1 <= t <= LastTrack(f) ==> Counter(f, img', t) == Counter(f, img, t))
  }

  ghost predicate HeaderSame(f: Disk, img: Image, img': Image) {
    && ImageOk(f, img) && ImageOk(f, img')
    && forall t: nat, s: nat, pos: nat :: ValidSector(f, t, s) && IsBam(f, t, s) && pos < 256 && Header(f, t, s, pos) ==>
      img'[At(f, t, s)][pos] == img[At(f, t, s)][pos]
  }

  /** A map sector rewritten in its header changes neither bits nor counters. */
  lemma HeaderStored(f: Disk, img: Image, t: nat, s: nat, data: Sector)
    requires !f.Dnp? && ImageOk(f, img) && ValidSector(f, t, s) && IsBam(f, t, s)
    requires forall pos: nat :: pos < 256 && !Header(f, t, s, pos) ==> data[pos] == img[At(f, t, s)][pos]
    ensures var img' := WithSector(img, At(f, t, s), data); PlainSame(f, img, img') && MapSame(f, img, img')
  {
    hide BamOf, BitOf, Header, IsBam, Lba, ValidSector;
    var img' := WithSector(img, At(f, t, s), data);
    forall t': nat, s': nat | ValidSector(f, t', s')
      ensures IsFree(f, img', t', s') == IsFree(f, img, t', s')
      ensures !IsBam(f, t', s') ==> img'[At(f, t', s')] == img[At(f, t', s')]
    {
      BamInside(f, t', s', Bitfield);
      var b := BamOf(f, t', Bitfield);
      LbaInjective(f, t, s, b.track, b.sector);
      LbaInjective(f, t, s, t', s');
      SameMapByte(f, t, s, b.track, b.sector, b.pos + s' / 8, t', s');
    }
    TracksHaveSectors(f);
    forall t' | 1 <= t' <= LastTrack(f)
      ensures Counter(f, img', t') == Counter(f, img, t')
    {
      BamInside(f, t', 0, FreeCount);
      var c := BamOf(f, t', FreeCount);
      LbaInjective(f, t, s, c.track, c.sector);
      SameMapByte(f, t, s, c.track, c.sector, c.pos, t', 0);
    }
  }

  lemma TracksHaveSectors(f: Disk)
    ensures forall t :: 1 <= t <= LastTrack(f) ==> ValidSector(f, t, 0)
  {
  }

  lemma SameMapByte(f: Disk, t: nat, s: nat, bt: nat, bs: nat, pos: nat, t': nat, s': nat)
    requires IsBam(f, t, s) && ValidSector(f, t', s')
    requires var b, c := BamOf(f, t', Bitfield), BamOf(f, t', FreeCount);
      (bt, bs, pos) == (b.track, b.sector, b.pos + s' / 8) || (bt, bs, pos) == (c.track, c.sector, c.pos)
    ensures (bt, bs) == (t, s) ==> !Header(f, t, s, pos)
  {
    if (bt, bs) == (t, s) && Header(f, t, s, pos) {
      HeaderApart(f, t, s, pos, t', s');
    }
  }

  lemma AllocatedHeader(f: Disk, img: Image, t: nat, s: nat)
    requires !f.Dnp? && ImageOk(f, img) && ValidSector(f, t, s)
    ensures HeaderSame(f, img, Allocated(f, img, t, s)) && PlainSame(f, img, Allocated(f, img, t, s))
  {
    hide BamOf, BitOf, Header, IsBam, ValidSector, Lba;
    var img' := Allocated(f, img, t, s);
    BamInside(f, t, s, Bitfield);
    TracksHaveSectors(f);
    InRangeSector(f, t, s);
    BamInside(f, t, 0, FreeCount);
    var b, c := BamOf(f, t, Bitfield), BamOf(f, t, FreeCount);
    forall u: nat, v: nat, pos: nat | ValidSector(f, u, v) && IsBam(f, u, v) && pos < 256 && Header(f, u, v, pos)
      ensures img'[At(f, u, v)][pos] == img[At(f, u, v)][pos]
    {
      HeaderApart(f, u, v, pos, t, s);
      LbaInjective(f, u, v, b.track, b.sector);
      LbaInjective(f, u, v, c.track, c.sector);
    }
    forall u: nat, v: nat | ValidSector(f, u, v) && !IsBam(f, u, v)
      ensures img'[At(f, u, v)] == img[At(f, u, v)]
    {
      MarkingFrame(f, img, t, s, u, v);
    }
  }

  lemma FreedHeader(f: Disk, img: Image, t: nat, s: nat)
    requires !f.Dnp? && ImageOk(f, img) && ValidSector(f, t, s)
    ensures HeaderSame(f, img, Freed(f, img, t, s))
  {
    hide BamOf, BitOf, Header, IsBam, ValidSector, Lba;
    var img' := Freed(f, img, t, s);
    BamInside(f, t, s, Bitfield);
    TracksHaveSectors(f);
    InRangeSector(f, t, s);
    BamInside(f, t, 0, FreeCount);
    var b, c := BamOf(f, t, Bitfield), BamOf(f, t, FreeCount);
    forall u: nat, v: nat, pos: nat | ValidSector(f, u, v) && IsBam(f, u, v) && pos < 256 && Header(f, u, v, pos)
      ensures img'[At(f, u, v)][pos] == img[At(f, u, v)][pos]
    {
      HeaderApart(f, u, v, pos, t, s);
      LbaInjective(f, u, v, b.track, b.sector);
      LbaInjective(f, u, v, c.track, c.sector);
    }
  }

  // ----- marking everything as free -----

  /** Each counter is behind the number of free bits by as many as were free in `img0`. */
  ghost predicate Behind(f: Disk, img0: Image, img: Image) {
    && ImageOk(f, img0) && ImageOk(f, img) && !f.Dnp?
    && forall t :: 1 <= t <= LastTrack(f) ==> Counter(f, img, t) + FreeOn(f, img0, t) == FreeOn(f, img, t)
  }

  lemma FreedBehind(f: Disk, img0: Image, img: Image, t: nat, s: nat)
    requires Behind(f, img0, img) && ValidSector(f, t, s)
    ensures Behind(f, img0, Freed(f, img, t, s))
    ensures PlainSame(f, img, Freed(f, img, t, s)) && HeaderSame(f, img, Freed(f, img, t, s))
    ensures Marked(f, img, Freed(f, img, t, s), t, s, true)
  {
    hide IsFree, Counter, WithBit, WithCounter, NumFree, Marked, IsBam, ValidSector;
    var img' := Freed(f, img, t, s);
    FreedMarks(f, img, t, s);
    FreedHeader(f, img, t, s);
    forall u: nat, v: nat | ValidSector(f, u, v) && !IsBam(f, u, v)
      ensures img'[At(f, u, v)] == img[At(f, u, v)]
    {
      MarkingFrame(f, img, t, s, u, v);
    }
    if !IsFree(f, img, t, s) {
      MarkedBehind(f, img0, img, img', t, s);
    }
  }

  lemma MarkedBehind(f: Disk, img0: Image, img: Image, img': Image, t: nat, s: nat)
    requires Behind(f, img0, img) && ValidSector(f, t, s) && !IsFree(f, img, t, s) && img' == Freed(f, img, t, s)
    requires Marked(f, img, img', t, s, true)
    ensures Behind(f, img0, img')
  {
    hide IsFree, Counter, WithBit, WithCounter, NumFree, IsBam;
    CountBounds(f, img, t, s, SectorsPerTrack(f, t));
    FreedMarks(f, img, t, s);
    forall t' | 1 <= t' <= LastTrack(f)
      ensures Counter(f, img', t') + FreeOn(f, img0, t') == FreeOn(f, img', t')
    {
      MarkedCount(f, img, img', t, s, true, t', SectorsPerTrack(f, t'));
    }
  }

  ghost predicate FreeUpTo(f: Disk, img: Image, t: nat, s: nat)
    requires ImageOk(f, img)
  {
    forall u: nat, v: nat :: ValidSector(f, u, v) && (u < t || (u == t && v < s)) ==> IsFree(f, img, u, v)
  }

  /** Everything is free, ordinary sectors are as in `img0`, and counters started from zero. */
  ghost predicate AllFreed(f: Disk, img0: Image, img: Image) {
    && Behind(f, img0, img) && PlainSame(f, img0, img) && HeaderSame(f, img0, img)
    && FreeUpTo(f, img, LastTrack(f) + 1, 0)
  }

  ghost predicate NoCounts(f: Disk, img: Image) {
    ImageOk(f, img) && !f.Dnp? && forall t :: 1 <= t <= LastTrack(f) ==> Counter(f, img, t) == 0
  }

  /** Marks every sector as free, one after the other. */
  method FreeAll(d: Drive, part: nat)
    requires d.Valid() && part < |d.parts| && NoCounts(d.parts[part].format, d.V()[part])
    modifies d
    ensures d.Valid() && d.Formats() == old(d.Formats()) && d.V() == old(d.V())[part := d.V()[part]]
    ensures AllFreed(d.parts[part].format, old(d.V())[part], d.V()[part])
  {
    hide Views, CacheOk, IsFree, Counter, NumFree, IsBam, Lba, Freed, Behind, ValidSector, HeaderSame;
    var f := d.parts[part].format;
    ghost var img0 := d.V()[part];
    NothingBehind(f, img0);
    var t := 1;
    while t <= LastTrack(f)
      invariant 1 <= t <= LastTrack(f) + 1 && d.Valid() && d.Formats() == old(d.Formats())
      invariant part < |d.parts| && d.parts[part].format == f && d.V() == old(d.V())[part := d.V()[part]]
      invariant Behind(f, img0, d.V()[part]) && PlainSame(f, img0, d.V()[part]) && HeaderSame(f, img0, d.V()[part])
      invariant FreeUpTo(f, d.V()[part], t, 0)
    {
      var s := 0;
      while s < SectorsPerTrack(f, t)
        invariant 0 <= s <= SectorsPerTrack(f, t) && d.Valid() && d.Formats() == old(d.Formats())
        invariant part < |d.parts| && d.parts[part].format == f && d.V() == old(d.V())[part := d.V()[part]]
        invariant Behind(f, img0, d.V()[part]) && PlainSame(f, img0, d.V()[part]) && HeaderSame(f, img0, d.V()[part])
        invariant FreeUpTo(f, d.V()[part], t, s)
      {
        ghost var img := d.V()[part];
        InRangeSector(f, t, s);
        d.FreeSector(part, t, s);
        FreedBehind(f, img0, img, t, s);
        SameThrough(f, img0, img, d.V()[part]);
        FreeUpToMore(f, img, d.V()[part], t, s);
        s := s + 1;
      }
      TrackDone(f, d.V()[part], t);
      t := t + 1;
    }
  }

  lemma InRangeSector(f: Disk, t: nat, s: nat)
    ensures ValidSector(f, t, s) <==> 1 <= t <= LastTrack(f) && s < SectorsPerTrack(f, t)
  {
  }

  lemma NothingBehind(f: Disk, img: Image)
    requires NoCounts(f, img)
    ensures Behind(f, img, img) && PlainSame(f, img, img) && HeaderSame(f, img, img) && FreeUpTo(f, img, 1, 0)
  {
  }

  lemma FreeUpToMore(f: Disk, img: Image, img': Image, t: nat, s: nat)
    requires ImageOk(f, img) && ImageOk(f, img') && FreeUpTo(f, img, t, s) && Marked(f, img, img', t, s, true)
    ensures FreeUpTo(f, img', t, s + 1)
  {
    hide IsFree;
  }

  lemma TrackDone(f: Disk, img: Image, t: nat)
    requires ImageOk(f, img) && FreeUpTo(f, img, t, SectorsPerTrack(f, t))
    ensures FreeUpTo(f, img, t + 1, 0)
  {
    hide IsFree;
  }

  // ----- reserving the first sectors of a track -----

  function Less(a: int, b: int): int { if a <= b then 0 else a - b }

  /** The first `n` sectors of track `t` were free and have been allocated. */
  ghost predicate RunTaken(f: Disk, img: Image, img': Image, t: nat, n: nat) {
    && ImageOk(f, img) && ImageOk(f, img') && !f.Dnp? && PlainSame(f, img, img') && HeaderSame(f, img, img')
    && (forall u: nat, v: nat :: ValidSector(f, u, v) ==> IsFree(f, img', u, v) == (IsFree(f, img, u, v) && !(u == t && v < n)))
    && (forall u :: 1 <= u <= LastTrack(f) ==> Counter(f, img', u) as int == Less(Counter(f, img, u), if u == t then n else 0))
    && (forall u :: 1 <= u <= LastTrack(f) ==> FreeOn(f, img', u) + (if u == t then n else 0) == FreeOn(f, img, u))
  }

  lemma RunBegins(f: Disk, img: Image, t: nat)
    requires ImageOk(f, img) && !f.Dnp?
    ensures RunTaken(f, img, img, t, 0)
  {
    hide IsFree, Counter, NumFree;
  }

  lemma RunStep(f: Disk, img: Image, img1: Image, t: nat, n: nat)
    requires RunTaken(f, img, img1, t, n) && ValidSector(f, t, n) && IsFree(f, img, t, n)
    ensures RunTaken(f, img, Allocated(f, img1, t, n), t, n + 1) && IsFree(f, img1, t, n)
  {
    hide IsFree, Counter, NumFree, Allocated, IsBam, Header, ValidSector, Marked;
    var img' := Allocated(f, img1, t, n);
    InRangeSector(f, t, n);
    AllocatedHeader(f, img1, t, n);
    AllocatedMarks(f, img1, t, n);
    MarkedFacts(f, img1, img', t, n);
    AllocatedCount(f, img1, t, n);
    forall u | 1 <= u <= LastTrack(f)
      ensures FreeOn(f, img', u) + (if u == t then n + 1 else 0) == FreeOn(f, img, u)
    {
      MarkedCount(f, img1, img', t, n, false, u, SectorsPerTrack(f, u));
    }
    SameThrough(f, img, img1, img');
  }

  lemma MarkedFacts(f: Disk, img: Image, img': Image, t: nat, s: nat)
    requires Marked(f, img, img', t, s, false) && !f.Dnp?
    ensures forall u: nat, v: nat :: ValidSector(f, u, v) ==> IsFree(f, img', u, v) == (IsFree(f, img, u, v) && !(u == t && v == s))
    ensures forall u :: 1 <= u <= LastTrack(f) && u != t ==> Counter(f, img', u) == Counter(f, img, u)
  {
    hide IsFree, Counter;
  }

  lemma AllocatedCount(f: Disk, img: Image, t: nat, s: nat)
    requires ImageOk(f, img) && !f.Dnp? && ValidSector(f, t, s) && IsFree(f, img, t, s)
    ensures Counter(f, Allocated(f, img, t, s), t) as int == Less(Counter(f, img, t), 1)
  {
    hide IsFree, Counter, WithBit, WithCounter;
    AllocatedMarks(f, img, t, s);
    WithBitCounter(f, img, t, s, false, t);
  }

  lemma SameThrough(f: Disk, a: Image, b: Image, c: Image)
    requires PlainSame(f, a, b) && PlainSame(f, b, c) && HeaderSame(f, a, b) && HeaderSame(f, b, c)
    ensures PlainSame(f, a, c) && HeaderSame(f, a, c)
  {
    hide IsBam, Header, ValidSector;
  }

  /** The buffer holds the map sector of a track whose bits and counter lie together, and is to be written back. */
  ghost predicate HoldsMap(d: Drive, part: nat, f: Disk, t: nat)
    reads d
  {
    d.Holds(part, BamOf(f, t, Bitfield)) && d.bam.mustflush
  }

  /** Allocates the first `n` sectors of a track. */
  method AllocateRun(d: Drive, part: nat, t: nat, n: nat)
    requires d.Valid() && part < |d.parts| && !d.parts[part].format.Dnp? && ImageOk(d.parts[part].format, d.V()[part])
    requires 1 <= t <= LastTrack(d.parts[part].format) && 0 < n <= SectorsPerTrack(d.parts[part].format, t)
    requires forall s: nat :: s < n && ValidSector(d.parts[part].format, t, s) ==> IsFree(d.parts[part].format, d.V()[part], t, s)
    modifies d
    ensures d.Valid() && d.Formats() == old(d.Formats()) && d.V() == old(d.V())[part := d.V()[part]]
    ensures RunTaken(d.parts[part].format, old(d.V())[part], d.V()[part], t, n)
    ensures var b, c := BamOf(d.parts[part].format, t, Bitfield), BamOf(d.parts[part].format, t, FreeCount);
      (b.track, b.sector) == (c.track, c.sector) ==> HoldsMap(d, part, d.parts[part].format, t)
  {
    hide Views, CacheOk, IsFree, Counter, NumFree, IsBam, Lba, Allocated, RunTaken, ValidSector, BamOf, ImageOk;
    var f := d.parts[part].format;
    ghost var img := d.V()[part];
    RunBegins(f, img, t);
    var s := 0;
    while s < n
      invariant 0 <= s <= n && d.Valid() && d.Formats() == old(d.Formats())
      invariant part < |d.parts| && d.parts[part].format == f && d.V() == old(d.V())[part := d.V()[part]]
      invariant RunTaken(f, img, d.V()[part], t, s)
      invariant s > 0 && (BamOf(f, t, Bitfield).track, BamOf(f, t, Bitfield).sector) ==
        (BamOf(f, t, FreeCount).track, BamOf(f, t, FreeCount).sector)
        ==> HoldsMap(d, part, f, t)
    {
      ghost var img1 := d.V()[part];
      InRangeSector(f, t, s);
      RunStep(f, img, img1, t, s);
      d.AllocateSector(part, t, s);
      s := s + 1;
    }
  }

  // ----- how far formatting has come -----

  function Prefix(taken: map<nat, nat>, t: nat): nat { if t in taken then taken[t] else 0 }

  /** The first sectors of some tracks are reserved and all others free; some ordinary sectors have been stored. */
  ghost predicate Stage(f: Disk, img0: Image, img: Image, taken: map<nat, nat>, stores: map<TS, Sector>) {
    && ImageOk(f, img0) && ImageOk(f, img) && !f.Dnp?
    && (forall t: nat, s: nat :: ValidSector(f, t, s) ==> IsFree(f, img, t, s) == (s >= Prefix(taken, t)))
    && (forall t :: 1 <= t <= LastTrack(f) ==>
          Counter(f, img, t) as int == Less(SectorsPerTrack(f, t) - FreeOn(f, img0, t), Prefix(taken, t)))
    && (forall t :: 1 <= t <= LastTrack(f) ==> FreeOn(f, img, t) + Prefix(taken, t) == SectorsPerTrack(f, t))
    && (forall t: nat, s: nat :: ValidSector(f, t, s) && !IsBam(f, t, s) ==>
          img[At(f, t, s)] == if TS(t, s) in stores then stores[TS(t, s)] else img0[At(f, t, s)])
  }

  lemma StageSize(f: Disk, img0: Image, img: Image, taken: map<nat, nat>, stores: map<TS, Sector>)
    requires Stage(f, img0, img, taken, stores)
    ensures ImageOk(f, img)
  {
  }

  lemma StageBegins(f: Disk, img0: Image, img: Image)
    requires AllFreed(f, img0, img)
    ensures Stage(f, img0, img, map[], map[])
  {
    hide IsFree, Counter, NumFree, IsBam;
    forall t | 1 <= t <= LastTrack(f)
      ensures FreeOn(f, img, t) == SectorsPerTrack(f, t)
    {
      AllCounted(f, img, t, SectorsPerTrack(f, t));
    }
  }

  lemma {:induction false} AllCounted(f: Disk, img: Image, t: nat, n: nat)
    requires ImageOk(f, img) && 1 <= t <= LastTrack(f) && n <= SectorsPerTrack(f, t)
    requires forall s: nat :: ValidSector(f, t, s) ==> IsFree(f, img, t, s)
    ensures NumFree(f, img, t, n) == n
  {
    hide IsFree;
    if n > 0 {
      AllCounted(f, img, t, n - 1);
      assert ValidSector(f, t, n - 1);
    }
  }

  lemma StageRun(f: Disk, img0: Image, img: Image, img': Image, taken: map<nat, nat>, stores: map<TS, Sector>,
      t: nat, n: nat)
    requires Stage(f, img0, img, taken, stores) && RunTaken(f, img, img', t, n) && t !in taken
    ensures Stage(f, img0, img', taken[t := n], stores)
  {
    hide IsFree, Counter, NumFree, IsBam, ValidSector;
  }

  lemma StageHeader(f: Disk, img0: Image, img: Image, img': Image, taken: map<nat, nat>, stores: map<TS, Sector>)
    requires Stage(f, img0, img, taken, stores) && PlainSame(f, img, img') && MapSame(f, img, img')
    ensures Stage(f, img0, img', taken, stores)
  {
    hide IsFree, Counter, NumFree, IsBam;
    forall t | 1 <= t <= LastTrack(f)
      ensures FreeOn(f, img', t) == FreeOn(f, img, t)
    {
      SameCount(f, img, img', t, SectorsPerTrack(f, t));
    }
  }

  lemma StageStore(f: Disk, img0: Image, img: Image, taken: map<nat, nat>, stores: map<TS, Sector>, ts: TS,
      data: Sector)
    requires Stage(f, img0, img, taken, stores) && Plain(f, ts)
    ensures Stage(f, img0, WithSector(img, At(f, ts.track, ts.sector), data), taken, stores[ts := data])
  {
    hide IsFree, Counter, NumFree, IsBam;
    var img' := WithSector(img, At(f, ts.track, ts.sector), data);
    TracksHaveSectors(f);
    forall t: nat, s: nat | ValidSector(f, t, s)
      ensures IsFree(f, img', t, s) == IsFree(f, img, t, s)
      ensures Counter(f, img', t) == Counter(f, img, t)
      ensures (t, s) != (ts.track, ts.sector) ==> img'[At(f, t, s)] == img[At(f, t, s)]
    {
      StoreMap(f, img, ts, data, TS(t, s));
      LbaInjective(f, t, s, ts.track, ts.sector);
    }
    forall t | 1 <= t <= LastTrack(f)
      ensures FreeOn(f, img', t) == FreeOn(f, img, t) && Counter(f, img', t) == Counter(f, img, t)
    {
      assert ValidSector(f, t, 0);
      SameCount(f, img, img', t, SectorsPerTrack(f, t));
    }
  }

  // ----- storing sectors through and past the cache -----

  lemma BufferStored(parts: seq<Partition>, b: BamBuffer, b2: Option<BamBuffer>, data: Sector)
    requires CacheOk(parts, b, b2) && b.part != NO_PART
    ensures var b', f := b.(data := data, mustflush := true), parts[b.part].format;
      && CacheOk(parts, b', b2) && ImageOk(f, Views(parts, b, b2)[b.part])
      && Views(parts, b', b2) == Views(parts, b, b2)[b.part := WithSector(Views(parts, b, b2)[b.part], At(f, b.track, b.sector), data)]
  {
    HeldView(parts, b, b2);
    if b2.Some? && b2.value.part == b.part {
      LbaInjective(parts[b.part].format, b.track, b.sector, b2.value.track, b2.value.sector);
    }
    var b' := b.(data := data, mustflush := true);
    var v0, v1, p, f := Views(parts, b, b2), Views(parts, b', b2), b.part, parts[b.part].format;
    assert v1[p] == WithSector(v0[p], At(f, b.track, b.sector), data);
    forall q | 0 <= q < |parts| && q != p
      ensures v1[q] == v0[q]
    {
    }
  }

  /** The buffer of partition `part` holds map sector `(t, s)`. */
  ghost predicate Buffered(d: Drive, part: nat, t: nat, s: nat)
    reads d
  {
    d.bam.part == part && part != NO_PART && d.bam.track == t && d.bam.sector == s
  }

  /** Rewrites the header of the map sector in the buffer, which is to be written back, or is marked for that. */
  method StoreHeader(d: Drive, part: nat, t: nat, s: nat, data: Sector, flush: bool,
                     ghost img0: Image, ghost taken: map<nat, nat>, ghost stores: map<TS, Sector>)
    requires d.Valid() && part < |d.parts| && Buffered(d, part, t, s) && (flush || d.bam.mustflush)
      && !d.parts[part].format.Dnp?
    requires Stage(d.parts[part].format, img0, d.V()[part], taken, stores)
    requires forall pos: nat :: pos < 256 && !Header(d.parts[part].format, t, s, pos) ==> data[pos] == d.bam.data[pos]
    modifies d`bam
    ensures d.Valid() && d.V() == old(d.V())[part := d.V()[part]]
      && d.bam == old(d.bam).(data := data, mustflush := true)
    ensures Stage(d.parts[part].format, img0, d.V()[part], taken, stores)
    ensures ValidSector(d.parts[part].format, t, s) && ImageOk(d.parts[part].format, d.V()[part])
    ensures d.V()[part][At(d.parts[part].format, t, s)] == data
    ensures old(d.V())[part][At(d.parts[part].format, t, s)] == old(d.bam).data
    ensures d.V()[part] == WithSector(old(d.V())[part], At(d.parts[part].format, t, s), data)
  {
    hide Views, Stage, Lba, Header, PlainSame, MapSame;
    ghost var f, img := d.parts[part].format, d.V()[part];
    BufferStored(d.parts, d.bam, d.bam2, data);
    HeldView(d.parts, d.bam, d.bam2);
    HeaderStored(f, img, t, s, data);
    StageHeader(f, img0, img, WithSector(img, At(f, t, s), data), taken, stores);
    d.bam := d.bam.(data := data, mustflush := d.bam.mustflush || flush);
  }

  /** Writes an ordinary sector. */
  method StorePlain(d: Drive, part: nat, t: nat, s: nat, data: Sector,
                    ghost img0: Image, ghost taken: map<nat, nat>, ghost stores: map<TS, Sector>)
    requires d.Valid() && part < |d.parts| && Plain(d.parts[part].format, TS(t, s))
    requires Stage(d.parts[part].format, img0, d.V()[part], taken, stores)
    modifies d`parts
    ensures d.Valid() && d.Formats() == old(d.Formats()) && d.V() == old(d.V())[part := d.V()[part]]
    ensures |d.parts| == |old(d.parts)| && d.parts[part].format == old(d.parts[part].format)
    ensures Stage(d.parts[part].format, img0, d.V()[part], taken, stores[TS(t, s) := data])
    ensures d.V()[part] == WithSector(old(d.V())[part], At(d.parts[part].format, t, s), data)
  {
    hide Views, Stage, Lba, IsBam, CacheOk, FormatsOf;
    var f := d.parts[part].format;
    ghost var img := d.V()[part];
    PlainWrite(d.parts, d.bam, d.bam2, part, t, s, data);
    StageStore(f, img0, img, taken, stores, TS(t, s), data);
    var a := At(f, t, s);
    ImageSize(d, part);
    WriteFormats(d.parts, part, a, data);
    d.parts := d.parts[part := d.parts[part].(image := d.parts[part].image[a := data])];
  }

  lemma ImageSize(d: Drive, part: nat)
    requires d.Valid() && part < |d.parts|
    ensures ImageOk(d.parts[part].format, d.parts[part].image) && |d.parts| < NO_PART
  {
  }

  // ----- clearing -----

  function Blank(): Sector { seq(256, _ => 0) }

  /** The tracks from `first` on are cleared up to sector `s` of track `t`. */
  ghost predicate Cleared(f: Disk, was: Image, img: Image, first: nat, t: nat, s: nat) {
    && ImageOk(f, was) && ImageOk(f, img)
    && forall u: nat, v: nat :: ValidSector(f, u, v) ==>
      img[At(f, u, v)] == if first <= u && (u < t || (u == t && v < s)) then Blank() else was[At(f, u, v)]
  }

  /** Nothing is buffered. */
  ghost predicate Idle(d: Drive)
    reads d
  {
    d.Valid() && d.bam.part == NO_PART && (d.bam2.Some? ==> d.bam2.value.part == NO_PART)
  }

  lemma IdleViews(d: Drive, part: nat)
    requires Idle(d) && part < |d.parts|
    ensures d.V()[part] == d.parts[part].image && ImageOk(d.parts[part].format, d.parts[part].image)
  {
  }

  lemma IdleWrite(parts: seq<Partition>, b: BamBuffer, b2: Option<BamBuffer>, p: nat, a: nat, data: Sector)
    requires CacheOk(parts, b, b2) && b.part == NO_PART && (b2.Some? ==> b2.value.part == NO_PART)
    requires p < |parts| && a < |parts[p].image|
    ensures var parts' := parts[p := parts[p].(image := parts[p].image[a := data])];
      CacheOk(parts', b, b2) && Views(parts', b, b2) == Views(parts, b, b2)[p := parts[p].image[a := data]]
  {
  }

  lemma ClearedMore(f: Disk, was: Image, img: Image, first: nat, t: nat, s: nat)
    requires Cleared(f, was, img, first, t, s) && ValidSector(f, t, s) && first <= t
    ensures Cleared(f, was, img[At(f, t, s) := Blank()], first, t, s + 1)
  {
    hide Lba, ValidSector;
    forall u: nat, v: nat | ValidSector(f, u, v)
      ensures (u, v) != (t, s) ==> At(f, u, v) != At(f, t, s)
    {
      LbaInjective(f, u, v, t, s);
    }
  }

  lemma ClearedTrack(f: Disk, was: Image, img: Image, first: nat, t: nat)
    requires Cleared(f, was, img, first, t, SectorsPerTrack(f, t))
    ensures Cleared(f, was, img, first, t + 1, 0)
  {
    hide Lba;
  }

  /** Writes zeros over some tracks. */
  method ClearTracks(d: Drive, part: nat, first: nat, last: nat)
    requires Idle(d) && part < |d.parts| && 1 <= first <= last <= LastTrack(d.parts[part].format)
    modifies d`parts
    ensures Idle(d) && d.Formats() == old(d.Formats()) && d.V() == old(d.V())[part := d.V()[part]]
    ensures |d.parts| == |old(d.parts)| && d.parts[part].format == old(d.parts[part].format)
    ensures Cleared(d.parts[part].format, old(d.V())[part], d.V()[part], first, last + 1, 0)
  {
    hide Views, CacheOk, Cleared, FormatsOf, Lba, ValidSector;
    var f := d.parts[part].format;
    ghost var was := d.V()[part];
    IdleViews(d, part);
    assert Cleared(f, was, was, first, first, 0) by {
      NothingCleared(f, was, first);
    }
    var t := first;
    while t <= last
      invariant first <= t <= last + 1 && Idle(d) && d.Formats() == old(d.Formats())
        && part < |d.parts| == |old(d.parts)|
      invariant d.parts[part].format == f && d.V() == old(d.V())[part := d.V()[part]]
      invariant Cleared(f, was, d.V()[part], first, t, 0)
    {
      var s := 0;
      while s < SectorsPerTrack(f, t)
        invariant 0 <= s <= SectorsPerTrack(f, t) && Idle(d) && d.Formats() == old(d.Formats())
          && part < |d.parts| == |old(d.parts)|
        invariant d.parts[part].format == f && d.V() == old(d.V())[part := d.V()[part]]
        invariant Cleared(f, was, d.V()[part], first, t, s)
      {
        InRangeSector(f, t, s);
        IdleViews(d, part);
        var a := At(f, t, s);
        ClearedMore(f, was, d.V()[part], first, t, s);
        IdleWrite(d.parts, d.bam, d.bam2, part, a, Blank());
        WriteFormats(d.parts, part, a, Blank());
        d.parts := d.parts[part := d.parts[part].(image := d.parts[part].image[a := Blank()])];
        s := s + 1;
      }
      ClearedTrack(f, was, d.V()[part], first, t);
      t := t + 1;
    }
  }

  lemma NothingCleared(f: Disk, was: Image, first: nat)
    requires ImageOk(f, was)
    ensures Cleared(f, was, was, first, first, 0)
  {
    hide Lba;
  }

  /** Clearing the directory track zeroes all counters, and the bits of all tracks whose bits are on a cleared one. */
  lemma ClearedCounts(f: Disk, was: Image, img: Image, first: nat, last: nat)
    requires Cleared(f, was, img, first, last + 1, 0) && !f.Dnp? && first <= DirTrack(f) <= last
    ensures NoCounts(f, img)
    ensures forall t :: 1 <= t <= LastTrack(f) ==>
      FreeOn(f, img, t) == if first <= BamOf(f, t, Bitfield).track <= last then 0 else FreeOn(f, was, t)
  {
    hide Lba, Counter, NumFree, IsFree;
    forall t | 1 <= t <= LastTrack(f)
      ensures Counter(f, img, t) == 0
      ensures FreeOn(f, img, t) == if first <= BamOf(f, t, Bitfield).track <= last then 0 else FreeOn(f, was, t)
    {
      CounterCleared(f, was, img, first, last, t);
      forall s: nat | ValidSector(f, t, s)
        ensures IsFree(f, img, t, s) == (IsFree(f, was, t, s) && !(first <= BamOf(f, t, Bitfield).track <= last))
      {
        BitCleared(f, was, img, first, last, t, s);
      }
      if first <= BamOf(f, t, Bitfield).track <= last {
        NoneCounted(f, img, t, SectorsPerTrack(f, t));
      } else {
        SameCount(f, was, img, t, SectorsPerTrack(f, t));
      }
    }
  }

  lemma CounterCleared(f: Disk, was: Image, img: Image, first: nat, last: nat, t: nat)
    requires Cleared(f, was, img, first, last + 1, 0) && !f.Dnp? && first <= DirTrack(f) <= last
      && 1 <= t <= LastTrack(f)
    ensures Counter(f, img, t) == 0
  {
    hide Lba;
    BamInside(f, t, 0, FreeCount);
  }

  lemma BitCleared(f: Disk, was: Image, img: Image, first: nat, last: nat, t: nat, s: nat)
    requires Cleared(f, was, img, first, last + 1, 0) && !f.Dnp? && ValidSector(f, t, s)
    ensures IsFree(f, img, t, s) == (IsFree(f, was, t, s) && !(first <= BamOf(f, t, Bitfield).track <= last))
  {
    hide Lba, BitOf;
    BamInside(f, t, s, Bitfield);
    ZeroHasNoBits(BitOf(f, s));
  }

  lemma {:induction false} NoneCounted(f: Disk, img: Image, t: nat, n: nat)
    requires ImageOk(f, img) && 1 <= t <= LastTrack(f) && n <= SectorsPerTrack(f, t)
    requires forall s: nat :: ValidSector(f, t, s) ==> !IsFree(f, img, t, s)
    ensures NumFree(f, img, t, n) == 0
  {
    hide IsFree;
    if n > 0 {
      NoneCounted(f, img, t, n - 1);
      assert ValidSector(f, t, n - 1);
    }
  }

  // ----- the label -----

  /** A name up to its terminating zero, and at most `n` characters of it. */
  function Cut(name: seq<byte>, n: nat): (r: seq<byte>)
    ensures |r| <= n && r <= name && forall i :: 0 <= i < |r| ==> name[i] != 0
    ensures |r| == n || |r| == |name| || name[|r|] == 0
  {
    if n == 0 then []
    else
      var c := Cut(name, n - 1);
      if |c| == n - 1 && n - 1 < |name| && name[n - 1] != 0 then c + [name[n - 1]] else c
  }

  /** The label of a disk: the name, filled up with shifted spaces. */
  function LabelText(name: seq<byte>): (r: seq<byte>)
    ensures |r| == 16
  {
    Cut(name, 16) + seq(16 - |Cut(name, 16)|, _ => 160)
  }

  function LabelOffset(f: Disk): nat { if f == D81 then 0x04 else 0x90 }

  function IdOffset(f: Disk): nat { if f == D81 then 0x16 else 0xa2 }

  /** The sector with the label. */
  function HeaderAt(f: Disk): TS { TS(DirTrack(f), 0) }

  ghost predicate LabelIn(f: Disk, data: Sector, name: seq<byte>, id: seq<byte>)
    requires |id| == 5
  {
    && data[LabelOffset(f)..LabelOffset(f) + 16] == LabelText(name)
    && data[IdOffset(f)..IdOffset(f) + 5] == id
  }

  /** Copies name and identification into a header, over 25 shifted spaces. */
  method CopyLabel(f: Disk, data: Sector, name: seq<byte>, id: seq<byte>) returns (r: Sector)
    requires |id| == 5
    ensures LabelIn(f, r, name, id)
    ensures r[LabelOffset(f) + 16] == r[LabelOffset(f) + 17] == r[LabelOffset(f) + 23] == r[LabelOffset(f) + 24] == 0xa0
    ensures forall pos :: 0 <= pos < 256 && !(LabelOffset(f) <= pos < LabelOffset(f) + 25) ==> r[pos] == data[pos]
  {
    hide LabelText, Cut;
    var text := CopyName(seq(25, _ => 160), name);
    IdInLabel(text, id);
    text := text[..18] + id + text[23..];
    var ofs := LabelOffset(f);
    r := data[..ofs] + text + data[ofs + 25..];
    assert IdOffset(f) == ofs + 18;
    Pasted25(data, ofs, text, r);
    PartOf(r, ofs, text, 0, 16);
    PartOf(r, ofs, text, 18, 23);
  }

  // ----- headers byte by byte -----

  /** Sixteen characters from `base` on are the name up to a zero, and shifted spaces. */
  ghost predicate Titled(h: Sector, base: nat, name: seq<byte>) {
    && base + 16 <= 256
    && exists n: nat :: TitleEnds(h, base, name, n)
  }

  ghost predicate TitleEnds(h: Sector, base: nat, name: seq<byte>, n: nat)
    requires base + 16 <= 256
  {
    && n <= 16 && n <= |name| && (n == 16 || n == |name| || name[n] == 0)
    && forall i :: 0 <= i < 16 ==> if i < n then name[i] != 0 && h[base + i] == name[i] else h[base + i] == 0xa0
  }

  /** The header of the map sector of a D41 or D71, up to the counters of the second side. */
  ghost predicate Front41(h: Sector, third: byte, name: seq<byte>, id0: byte, id1: byte) {
    && h[0] == 18 && h[1] == 1 && h[2] == 0x41 && h[3] == third
    && Titled(h, 0x90, name) && h[0xa0] == h[0xa1] == 0xa0
    && h[0xa2] == id0 && h[0xa3] == id1 && h[0xa4] == 0xa0 && h[0xa5] == 0x32 && h[0xa6] == 0x41
    && h[0xa7] == h[0xa8] == h[0xa9] == h[0xaa] == 0xa0
    && forall i :: 0xab <= i < 0xdd ==> h[i] == 0
  }

  /** The label sector of a D81. */
  ghost predicate Front81(h: Sector, name: seq<byte>, id0: byte, id1: byte) {
    && h[0] == 40 && h[1] == 3 && h[2] == 0x44 && h[3] == 0
    && Titled(h, 0x04, name) && h[0x14] == h[0x15] == 0xa0
    && h[0x16] == id0 && h[0x17] == id1 && h[0x18] == 0xa0 && h[0x19] == 0x33 && h[0x1a] == 0x44
    && h[0x1b] == h[0x1c] == 0xa0
    && forall i :: 0x1d <= i < 256 ==> h[i] == 0
  }

  /** The header of a map sector of a D81, with its link. */
  ghost predicate MapFront81(h: Sector, t: byte, s: byte, id0: byte, id1: byte) {
    && h[0] == t && h[1] == s && h[2] == 0x44 && h[3] == 0xbb && h[4] == id0 && h[5] == id1 && h[6] == 0xc0
    && forall i :: 7 <= i < 16 ==> h[i] == 0
  }

  /** All headers of a disk: 18/0, or 40/0 to 40/2. */
  ghost predicate Fronts(f: Disk, img: Image, name: seq<byte>, id0: byte, id1: byte) {
    ImageOk(f, img) &&
    match f
    case D41 => Front41(img[357], 0, name, id0, id1)
    case D71 => Front41(img[357], 0x80, name, id0, id1)
    case D81 =>
      Front81(img[1560], name, id0, id1) && MapFront81(img[1561], 40, 2, id0, id1) && MapFront81(img[1562], 0, 255, id0, id1)
    case Dnp(_) => false
  }

  /** The headers of map sectors are blank. */
  ghost predicate NoFronts(f: Disk, img: Image) {
    && ImageOk(f, img)
    && forall t: nat, s: nat, pos: nat ::
      ValidSector(f, t, s) && t == DirTrack(f) && IsBam(f, t, s) && pos < 256 && Header(f, t, s, pos) ==> img[At(f, t, s)][pos] == 0
  }

  lemma NoFrontsYet(f: Disk, was: Image, img0: Image, img: Image, first: nat, last: nat)
    requires Cleared(f, was, img0, first, last + 1, 0) && first <= DirTrack(f) <= last && !f.Dnp? && AllFreed(f, img0, img)
    ensures NoFronts(f, img)
  {
    hide Lba, IsFree, Counter, NumFree, Header, Behind, FreeUpTo, PlainSame;
  }

  lemma FrontPlaces()
    ensures At(D41, 18, 0) == At(D71, 18, 0) == 357 && At(D81, 40, 0) == 1560 && At(D81, 40, 1) == 1561 && At(D81, 40, 2) == 1562
      && At(D81, 40, 3) == 1563
  {
  }

  lemma TitledLabel(h: Sector, base: nat, name: seq<byte>)
    requires base + 16 <= 256 && h[base..base + 16] == LabelText(name)
    ensures Titled(h, base, name)
  {
    var c := Cut(name, 16);
    forall i | 0 <= i < 16
      ensures if i < |c| then name[i] != 0 && h[base + i] == name[i] else h[base + i] == 0xa0
    {
      assert h[base + i] == h[base..base + 16][i];
    }
    assert TitleEnds(h, base, name, |c|);
  }

  /** A map sector with the same header bytes has the same title. */
  lemma SameTitle(h: Sector, h': Sector, base: nat, name: seq<byte>)
    requires Titled(h, base, name) && forall i :: base <= i < base + 16 ==> h'[i] == h[i]
    ensures Titled(h', base, name)
  {
    var n: nat :| TitleEnds(h, base, name, n);
    assert TitleEnds(h', base, name, n);
  }

  lemma SameFront41(f: Disk, img: Image, img': Image, third: byte, name: seq<byte>, id0: byte, id1: byte)
    requires (f == D41 || f == D71) && HeaderSame(f, img, img') && Front41(img[357], third, name, id0, id1)
    ensures Front41(img'[357], third, name, id0, id1)
  {
    hide Lba, Titled;
    FrontPlaces();
    forall pos: nat | pos < 4 || 0x90 <= pos < 0xdd
      ensures img'[357][pos] == img[357][pos]
    {
      assert Header(f, 18, 0, pos);
    }
    SameTitle(img[357], img'[357], 0x90, name);
  }

  lemma IdInLabel(text: seq<byte>, id: seq<byte>)
    requires |text| == 25 && |id| == 5 && forall i :: 16 <= i < 25 ==> text[i] == 160
    ensures var r := text[..18] + id + text[23..];
      && |r| == 25 && r[0..16] == text[..16] && r[18..23] == id
      && r[16] == r[17] == r[23] == r[24] == 160
  {
  }

  lemma Pasted25(data: Sector, ofs: nat, text: seq<byte>, r: seq<byte>)
    requires |text| == 25 && ofs + 25 <= 256 && r == data[..ofs] + text + data[ofs + 25..]
    ensures |r| == 256 && forall i :: 0 <= i < 25 ==> r[ofs + i] == text[i]
    ensures forall pos :: 0 <= pos < 256 && !(ofs <= pos < ofs + 25) ==> r[pos] == data[pos]
  {
  }

  lemma PartOf(r: seq<byte>, ofs: nat, text: seq<byte>, a: nat, b: nat)
    requires a <= b <= |text| && ofs + |text| <= |r| && forall i :: 0 <= i < |text| ==> r[ofs + i] == text[i]
    ensures r[ofs + a..ofs + b] == text[a..b]
  {
    forall i | 0 <= i < b - a
      ensures r[ofs + a..ofs + b][i] == text[a..b][i]
    {
      assert r[ofs + (a + i)] == text[a + i];
    }
  }

  /** Copies a name over the first of 25 shifted spaces. */
  method CopyName(spaces: seq<byte>, name: seq<byte>) returns (r: seq<byte>)
    requires spaces == seq(25, _ => 160)
    ensures |r| == 25 && r[..16] == LabelText(name) && forall i :: 16 <= i < 25 ==> r[i] == 160
  {
    r := spaces;
    var i, count := 0, 16;
    while i < |name| && name[i] != 0 && count > 0
      invariant 0 <= i <= 16 && i <= |name| && count == 16 - i
      invariant name[..i] == Cut(name, i)
      invariant r == name[..i] + spaces[i..]
    {
      assert Cut(name, i + 1) == Cut(name, i) + [name[i]];
      r := r[i := name[i]];
      i, count := i + 1, count - 1;
    }
    CutStays(name, i, 16);
  }

  lemma CutStays(name: seq<byte>, i: nat, n: nat)
    requires i <= n && i <= |name| && name[..i] == Cut(name, i)
    requires i == n || i == |name| || name[i] == 0
    ensures Cut(name, n) == name[..i]
  {
    var k := |Cut(name, n)|;
    assert forall j :: 0 <= j < i ==> name[j] == name[..i][j];
    assert Cut(name, n) == name[..k];
  }

  // ----- the formats -----

  /** How many sectors of which tracks are reserved. */
  function Taken(f: Disk): map<nat, nat> {
    match f
    case D41 => map[18 := 2]
    case D71 => map[18 := 2, 53 := 19]
    case D81 => map[40 := 4]
    case Dnp(_) => map[]
  }

  predicate Reserved(f: Disk, t: nat, s: nat) { s < Prefix(Taken(f), t) }

  /** The label in the map sector of a D41 or D71. */
  ghost predicate LabelThere(f: Disk, img: Image, name: seq<byte>, id: seq<byte>)
    requires |id| == 5
  {
    ImageOk(f, img) && OnDisk(f, HeaderAt(f)) && LabelIn(f, img[At(f, HeaderAt(f).track, HeaderAt(f).sector)], name, id)
  }

  lemma LabelSame(f: Disk, img: Image, img': Image, name: seq<byte>, id: seq<byte>)
    requires |id| == 5 && (f == D41 || f == D71) && LabelThere(f, img, name, id) && HeaderSame(f, img, img')
    ensures LabelThere(f, img', name, id)
  {
    hide Lba;
    var a := At(f, 18, 0);
    assert forall pos: nat :: 0x90 <= pos < 0xa9 ==> img'[a][pos] == img[a][pos];
    assert img'[a][0x90..0xa0] == img[a][0x90..0xa0] && img'[a][0xa2..0xa7] == img[a][0xa2..0xa7];
  }

  lemma ElsewhereLabel(f: Disk, img: Image, t: nat, s: nat, data: Sector, name: seq<byte>, id: seq<byte>)
    requires |id| == 5 && LabelThere(f, img, name, id) && ValidSector(f, t, s) && TS(t, s) != HeaderAt(f)
    ensures LabelThere(f, WithSector(img, At(f, t, s), data), name, id)
  {
    hide Lba, LabelIn;
    LbaInjective(f, t, s, HeaderAt(f).track, HeaderAt(f).sector);
  }

  lemma NotHeader(f: Disk)
    requires !f.Dnp?
    ensures OnDisk(f, HeaderAt(f)) && (f.D81? ==> Plain(f, HeaderAt(f))) && Plain(f, DirStart(f))
      && DirStart(f) != HeaderAt(f)
  {
  }

  function DirStart(f: Disk): TS { TS(DirTrack(f), if f == D81 then 3 else 1) }

  /** The first stage of D41 and D71: map and directory on track 18. */
  method FormatD41(d: Drive, part: nat, name: seq<byte>, id0: byte, id1: byte, ghost img0: Image)
    requires d.Valid() && part < |d.parts| && (d.parts[part].format == D41 || d.parts[part].format == D71)
    requires Stage(d.parts[part].format, img0, d.V()[part], map[], map[]) && NoFronts(d.parts[part].format, d.V()[part])
    modifies d
    ensures d.Valid() && d.Formats() == old(d.Formats()) && d.V() == old(d.V())[part := d.V()[part]]
    ensures |d.V()[part]| > 357 && Front41(d.V()[part][357], 0, name, id0, id1)
    ensures Stage(d.parts[part].format, img0, d.V()[part], map[18 := 2], map[TS(18, 1) := EmptyDirSector()])
    ensures LabelThere(d.parts[part].format, d.V()[part], name, [id0, id1, 0xa0, 0x32, 0x41])
    ensures Buffered(d, part, 18, 0) && d.bam.mustflush
  {
    hide Views, CacheOk, FormatsOf, Stage, Lba, RunTaken, LabelIn, Front41, NoFronts;
    var f := d.parts[part].format;
    ghost var img := d.V()[part];
    AllFreeAt(f, img0, img, 18, 2);
    AllocateRun(d, part, 18, 2);
    StillNoFronts(f, img, d.V()[part], 18, 2);
    SameFormat(old(d.Formats()), old(d.parts), d.parts, part);
    StageRun(f, img0, img, d.V()[part], map[], map[], 18, 2);
    var data := d.bam.data[0 := 18][1 := 1][2 := 0x41];
    ghost var held := data;
    data := CopyLabel(f, data, name, [id0, id1, 0xa0, 0x32, 0x41]);
    ghost var labelled := data;
    data := LabelPadded(f, data, name, [id0, id1, 0xa0, 0x32, 0x41]);
    HeldFront(d, part, 18, 0);
    Fronted(f, d.bam.data, held, labelled, data, name, id0, id1);
    assert map[][18 := 2] == map[18 := 2];
    assert d.Holds(part, BamOf(f, 18, Bitfield)) && d.bam.mustflush;
    StoreHeader(d, part, 18, 0, data, false, img0, map[18 := 2], map[]);
    StoredThere(f, d.V()[part], data, name, [id0, id1, 0xa0, 0x32, 0x41]);
    ghost var img1 := d.V()[part];
    FrontPlaces();
    LbaInjective(f, 18, 0, 18, 1);
    StorePlain(d, part, 18, 1, EmptyDirSector(), img0, map[18 := 2], map[]);
    ElsewhereLabel(f, img1, 18, 1, EmptyDirSector(), name, [id0, id1, 0xa0, 0x32, 0x41]);
  }

  lemma StillNoFronts(f: Disk, img: Image, img': Image, t: nat, n: nat)
    requires NoFronts(f, img) && RunTaken(f, img, img', t, n)
    ensures NoFronts(f, img')
  {
    hide Lba, IsFree, Counter, NumFree, Header, PlainSame;
  }

  /** The header in the buffer of a map sector is still blank. */
  lemma HeldFront(d: Drive, part: nat, t: nat, s: nat)
    requires d.Valid() && part < |d.parts| && Buffered(d, part, t, s) && NoFronts(d.parts[part].format, d.V()[part])
    requires ValidSector(d.parts[part].format, t, s) && t == DirTrack(d.parts[part].format) && IsBam(d.parts[part].format, t, s)
    ensures forall pos: nat :: pos < 256 && Header(d.parts[part].format, t, s, pos) ==> d.bam.data[pos] == 0
  {
    hide Lba, Views, CacheOk;
    HeldView(d.parts, d.bam, d.bam2);
  }

  lemma Fronted(f: Disk, blank: Sector, held: Sector, labelled: Sector, data: Sector, name: seq<byte>, id0: byte, id1: byte)
    requires (f == D41 || f == D71) && forall pos: nat :: pos < 256 && Header(f, 18, 0, pos) ==> blank[pos] == 0
    requires held == blank[0 := 18][1 := 1][2 := 0x41] && LabelIn(f, labelled, name, [id0, id1, 0xa0, 0x32, 0x41])
    requires labelled[0xa0] == labelled[0xa1] == labelled[0xa7] == labelled[0xa8] == 0xa0
    requires forall pos :: 0 <= pos < 256 && !(0x90 <= pos < 0xa9) ==> labelled[pos] == held[pos]
    requires data == labelled[0xa9 := 0xa0][0xaa := 0xa0]
    ensures Front41(data, 0, name, id0, id1)
  {
    var id := [id0, id1, 0xa0, 0x32, 0x41];
    assert data[0x90..0xa0] == labelled[0x90..0xa0];
    TitledLabel(data, 0x90, name);
    assert forall i :: 0 <= i < 5 ==> labelled[0xa2 + i] == labelled[0xa2..0xa7][i] == id[i];
    assert forall pos: nat :: 0xab <= pos < 0xdd ==> Header(f, 18, 0, pos);
    assert Header(f, 18, 0, 3);
  }

  /** The two characters behind the label of a 5.25-inch disk. */
  method LabelPadded(f: Disk, data: Sector, name: seq<byte>, ghost id: seq<byte>) returns (r: Sector)
    requires |id| == 5 && (f == D41 || f == D71) && LabelIn(f, data, name, id)
    ensures LabelIn(f, r, name, id) && r == data[0xa9 := 0xa0][0xaa := 0xa0]
  {
    r := data[0xa9 := 0xa0][0xaa := 0xa0];
    assert r[0x90..0xa0] == data[0x90..0xa0] && r[0xa2..0xa7] == data[0xa2..0xa7];
  }

  lemma StoredThere(f: Disk, img: Image, data: Sector, name: seq<byte>, id: seq<byte>)
    requires |id| == 5 && ImageOk(f, img) && OnDisk(f, HeaderAt(f)) && LabelIn(f, data, name, id)
    requires img[At(f, HeaderAt(f).track, HeaderAt(f).sector)] == data
    ensures LabelThere(f, img, name, id)
  {
  }

  lemma AllFreeAt(f: Disk, img0: Image, img: Image, t: nat, n: nat)
    requires Stage(f, img0, img, map[], map[])
      || (f == D71 && t == 53 && Stage(f, img0, img, map[18 := 2], map[TS(18, 1) := EmptyDirSector()]))
    ensures ImageOk(f, img) && forall s: nat :: s < n && ValidSector(f, t, s) ==> IsFree(f, img, t, s)
  {
    hide IsFree, Counter, NumFree, Lba;
  }

  /** What a D71 adds: its mark, and the second track of the map. */
  method FormatD71(d: Drive, part: nat, name: seq<byte>, ghost id: seq<byte>, ghost img0: Image)
    requires d.Valid() && part < |d.parts| && d.parts[part].format == D71 && |id| == 5
    requires Stage(D71, img0, d.V()[part], map[18 := 2], map[TS(18, 1) := EmptyDirSector()])
    requires LabelThere(D71, d.V()[part], name, id) && Buffered(d, part, 18, 0) && d.bam.mustflush
    requires |d.V()[part]| > 357 && Front41(d.V()[part][357], 0, name, id[0], id[1])
    modifies d
    ensures d.Valid() && d.Formats() == old(d.Formats()) && d.V() == old(d.V())[part := d.V()[part]]
    ensures |d.V()[part]| > 357 && Front41(d.V()[part][357], 0x80, name, id[0], id[1])
    ensures Stage(D71, img0, d.V()[part], Taken(D71), map[TS(18, 1) := EmptyDirSector()])
    ensures LabelThere(D71, d.V()[part], name, id)
  {
    hide Views, CacheOk, FormatsOf, Stage, Lba, RunTaken, LabelIn, Front41;
    var data := d.bam.data[3 := 0x80];
    FrontPlaces();
    HeldView(d.parts, d.bam, d.bam2);
    MarkedFront(d.bam.data, name, id[0], id[1]);
    StoreHeader(d, part, 18, 0, data, false, img0, map[18 := 2], map[TS(18, 1) := EmptyDirSector()]);
    MarkKeepsLabel(old(d.bam).data, name, id);
    StoredThere(D71, d.V()[part], data, name, id);
    ghost var img := d.V()[part];
    AllFreeAt(D71, img0, img, 53, 19);
    AllocateRun(d, part, 53, 19);
    SameFormat(old(d.Formats()), old(d.parts), d.parts, part);
    StageRun(D71, img0, img, d.V()[part], map[18 := 2], map[TS(18, 1) := EmptyDirSector()], 53, 19);
    RunKeepsLabel(D71, img, d.V()[part], 53, 19, name, id);
    RunKeepsFront(img, d.V()[part], name, id[0], id[1]);
    assert Taken(D71) == map[18 := 2][53 := 19];
  }

  lemma MarkedFront(h: Sector, name: seq<byte>, id0: byte, id1: byte)
    requires Front41(h, 0, name, id0, id1)
    ensures Front41(h[3 := 0x80], 0x80, name, id0, id1)
  {
    hide Titled;
    SameTitle(h, h[3 := 0x80], 0x90, name);
  }

  lemma RunKeepsFront(img: Image, img': Image, name: seq<byte>, id0: byte, id1: byte)
    requires RunTaken(D71, img, img', 53, 19) && Front41(img[357], 0x80, name, id0, id1)
    ensures Front41(img'[357], 0x80, name, id0, id1)
  {
    hide IsFree, Counter, NumFree, Lba, Front41, PlainSame, HeaderSame;
    SameFront41(D71, img, img', 0x80, name, id0, id1);
  }

  lemma MarkKeepsLabel(data: Sector, name: seq<byte>, id: seq<byte>)
    requires |id| == 5 && LabelIn(D71, data, name, id)
    ensures LabelIn(D71, data[3 := 0x80], name, id)
  {
    var r := data[3 := 0x80];
    assert r[0x90..0xa0] == data[0x90..0xa0] && r[0xa2..0xa7] == data[0xa2..0xa7];
  }

  lemma RunKeepsLabel(f: Disk, img: Image, img': Image, t: nat, n: nat, name: seq<byte>, id: seq<byte>)
    requires |id| == 5 && (f == D41 || f == D71) && LabelThere(f, img, name, id) && RunTaken(f, img, img', t, n)
    ensures LabelThere(f, img', name, id)
  {
    hide IsFree, Counter, NumFree, Lba, LabelIn;
    LabelSame(f, img, img', name, id);
  }

  /** A D81 has its map in two sectors and its label in a third. */
  method FormatD81(d: Drive, part: nat, name: seq<byte>, id0: byte, id1: byte, ghost img0: Image) returns (ghost header: Sector)
    requires d.Valid() && part < |d.parts| && d.parts[part].format == D81
    requires Stage(D81, img0, d.V()[part], map[], map[]) && NoFronts(D81, d.V()[part])
    modifies d
    ensures d.Valid() && d.Formats() == old(d.Formats()) && d.V() == old(d.V())[part := d.V()[part]]
    ensures Fronts(D81, d.V()[part], name, id0, id1)
    ensures Stage(D81, img0, d.V()[part], Taken(D81), map[TS(40, 0) := header][TS(40, 3) := EmptyDirSector()])
    ensures LabelIn(D81, header, name, [id0, id1, 0xa0, 0x33, 0x44])
  {
    hide Views, CacheOk, FormatsOf, Stage, Lba, RunTaken, LabelIn, Front81, MapFront81, NoFronts;
    ghost var img := d.V()[part];
    FrontPlaces();
    AllFreeAt(D81, img0, img, 40, 4);
    AllocateRun(d, part, 40, 4);
    StillNoFronts(D81, img, d.V()[part], 40, 4);
    SameFormat(old(d.Formats()), old(d.parts), d.parts, part);
    StageRun(D81, img0, img, d.V()[part], map[], map[], 40, 4);
    assert map[][40 := 4] == Taken(D81);
    var sign := Signature(0x44, id0, id1);
    NoFronts81(d.V()[part]);
    HeldView(d.parts, d.bam, d.bam2);
    Signed(d.bam.data, 40, 2, id0, id1);
    StoreHeader(d, part, 40, 1, [40, 2] + sign + d.bam.data[7..], false, img0, Taken(D81), map[]);
    var n := d.SectorsFreeOn(part, 41);
    SameFormat(old(d.Formats()), old(d.parts), d.parts, part);
    HeldView(d.parts, d.bam, d.bam2);
    Signed(d.bam.data, 0, 255, id0, id1);
    StoreHeader(d, part, 40, 2, [0, 255] + sign + d.bam.data[7..], true, img0, Taken(D81), map[]);
    var data := CopyLabel(D81, Blank()[0 := 40][1 := 3][2 := 0x44], name, [id0, id1, 0xa0, 0x33, 0x44]);
    header := data;
    Fronted81(data, name, id0, id1);
    StorePlain(d, part, 40, 0, data, img0, Taken(D81), map[]);
    StorePlain(d, part, 40, 3, EmptyDirSector(), img0, Taken(D81), map[TS(40, 0) := data]);
    assert map[][TS(40, 0) := data] == map[TS(40, 0) := data];
  }

  lemma NoFronts81(img: Image)
    requires NoFronts(D81, img)
    ensures forall i :: 0 <= i < 16 ==> img[1561][i] == 0 && img[1562][i] == 0
  {
    hide Lba;
    FrontPlaces();
    forall i: nat | i < 16
      ensures img[1561][i] == 0 && img[1562][i] == 0
    {
      assert Header(D81, 40, 1, i) && Header(D81, 40, 2, i);
    }
  }

  lemma Signed(held: Sector, t: byte, s: byte, id0: byte, id1: byte)
    requires forall i :: 7 <= i < 16 ==> held[i] == 0
    ensures MapFront81([t, s] + Signature(0x44, id0, id1) + held[7..], t, s, id0, id1)
  {
    var h := [t, s] + Signature(0x44, id0, id1) + held[7..];
    assert forall i :: 7 <= i < 16 ==> h[i] == held[i];
  }

  lemma Fronted81(data: Sector, name: seq<byte>, id0: byte, id1: byte)
    requires LabelIn(D81, data, name, [id0, id1, 0xa0, 0x33, 0x44])
    requires data[0x14] == data[0x15] == data[0x1b] == data[0x1c] == 0xa0
    requires forall pos :: 0 <= pos < 256 && !(4 <= pos < 29) ==> data[pos] == Blank()[0 := 40][1 := 3][2 := 0x44][pos]
    ensures Front81(data, name, id0, id1)
  {
    var id := [id0, id1, 0xa0, 0x33, 0x44];
    TitledLabel(data, 0x04, name);
    assert forall i :: 0 <= i < 5 ==> data[0x16 + i] == data[0x16..0x1b][i] == id[i];
  }

  /** The mark of a map sector. */
  function Signature(doschar: byte, id0: byte, id1: byte): (r: seq<byte>)
    ensures |r| == 5
  {
    [doschar, 255 - doschar, id0, id1, 0xc0]
  }

  // ----- the whole of it -----

  /** What an ordinary sector holds after formatting. The label sector of a D81 is described by its label. */
  ghost function FreshSector(f: Disk, was: Image, all: bool, t: nat, s: nat): Sector
    requires ImageOk(f, was) && ValidSector(f, t, s)
  {
    if TS(t, s) == DirStart(f) then EmptyDirSector()
    else if all || t == DirTrack(f) then Blank()
    else was[At(f, t, s)]
  }

  /** The counters of the second side of a D71 are kept on another track than the bits they count. */
  ghost predicate CountersComeOut(f: Disk, was: Image, all: bool)
    requires ImageOk(f, was)
  {
    all || f != D71 || forall t :: 36 <= t <= 70 && t != 53 ==> FreeOn(f, was, t) == 0
  }

  /**
   `img` is an empty disk, with the contents of other tracks than the directory track as in `was` unless
   `all` tracks were cleared. The counters of its map are true exactly under a condition on what `was` had free.
   */
  ghost predicate Formatted(f: Disk, was: Image, img: Image, all: bool, name: seq<byte>, id: seq<byte>)
    requires |id| == 5
  {
    && ImageOk(f, was) && ImageOk(f, img) && !f.Dnp?
    && (forall t: nat, s: nat :: ValidSector(f, t, s) ==> (IsFree(f, img, t, s) <==> !Reserved(f, t, s)))
    && (forall t: nat, s: nat :: ValidSector(f, t, s) && !IsBam(f, t, s) && TS(t, s) != HeaderAt(f) ==>
          img[At(f, t, s)] == FreshSector(f, was, all, t, s))
    && LabelThere(f, img, name, id) && Fronts(f, img, name, id[0], id[1])
    && (CountersOk(f, img) <==> CountersComeOut(f, was, all))
  }

  function Stores(f: Disk, header: Sector): map<TS, Sector> {
    if f == D81 then map[TS(40, 0) := header][TS(40, 3) := EmptyDirSector()] else map[TS(18, 1) := EmptyDirSector()]
  }

  lemma StageCounters(f: Disk, was: Image, img0: Image, img: Image, all: bool, header: Sector, first: nat, last: nat)
    requires Cleared(f, was, img0, first, last + 1, 0) && Stage(f, img0, img, Taken(f), Stores(f, header))
    requires if all then first == 1 && last == LastTrack(f) else first == last == DirTrack(f)
    ensures CountersOk(f, img) <==> CountersComeOut(f, was, all)
  {
    hide Lba, Counter, NumFree, IsFree, IsBam, Cleared;
    ClearedCounts(f, was, img0, first, last);
    ClearedImages(f, was, img0, first, last);
    forall t | 1 <= t <= LastTrack(f)
      ensures Counter(f, img, t) as int == FreeOn(f, img, t) <==> (t == 53 && f == D71) || FreeOn(f, img0, t) == 0
    {
      TrackComesOut(f, t);
    }
    forall t | 1 <= t <= LastTrack(f)
      ensures FreeOn(f, img0, t) == if !all && f == D71 && t > 35 then FreeOn(f, was, t) else 0
    {
      BitTracks(f, t);
    }
    if CountersOk(f, img) && !all && f == D71 {
      forall t | 36 <= t <= 70 && t != 53
        ensures FreeOn(f, was, t) == 0
      {
        assert Counter(f, img, t) as int == FreeOn(f, img, t);
      }
    }
  }

  lemma ClearedImages(f: Disk, was: Image, img: Image, first: nat, last: nat)
    requires Cleared(f, was, img, first, last + 1, 0)
    ensures ImageOk(f, was) && ImageOk(f, img)
  {
  }

  lemma TrackComesOut(f: Disk, t: nat)
    requires !f.Dnp? && 1 <= t <= LastTrack(f)
    ensures Prefix(Taken(f), t) <= SectorsPerTrack(f, t)
    ensures Prefix(Taken(f), t) == SectorsPerTrack(f, t) <==> t == 53 && f == D71
  {
  }

  lemma BitTracks(f: Disk, t: nat)
    requires !f.Dnp? && 1 <= t <= LastTrack(f)
    ensures 1 <= BamOf(f, t, Bitfield).track <= LastTrack(f)
    ensures BamOf(f, t, Bitfield).track == DirTrack(f) <==> !(f == D71 && t > 35)
  {
  }

  lemma StageFormatted(f: Disk, was: Image, img0: Image, img: Image, all: bool, header: Sector, first: nat, last: nat,
                       name: seq<byte>, id: seq<byte>)
    requires |id| == 5 && Cleared(f, was, img0, first, last + 1, 0) && Stage(f, img0, img, Taken(f), Stores(f, header))
    requires if all then first == 1 && last == LastTrack(f) else first == last == DirTrack(f)
    requires if f == D81 then LabelIn(f, header, name, id) else LabelThere(f, img, name, id)
    requires Fronts(f, img, name, id[0], id[1])
    ensures Formatted(f, was, img, all, name, id)
  {
    hide Lba, Counter, NumFree, IsFree, IsBam, LabelIn, CountersOk, CountersComeOut, Fronts;
    StageCounters(f, was, img0, img, all, header, first, last);
    NotHeader(f);
    if f == D81 {
      assert Plain(f, HeaderAt(f));
    }
    forall t: nat, s: nat | ValidSector(f, t, s) && !IsBam(f, t, s) && TS(t, s) != HeaderAt(f)
      ensures img[At(f, t, s)] == FreshSector(f, was, all, t, s)
    {
    }
  }

  datatype Id = Given(id0: byte, id1: byte) | Kept

  /** An identification character as it is read back. */
  function ReadChar(c: byte): byte { if c == 0xa0 then 0x20 else c }

  function NewId(f: Disk, was: Image, id: Id): (r: seq<byte>)
    requires ImageOk(f, was) && !f.Dnp?
    ensures |r| == 5 && r[2] == 0xa0 && (if f == D81 then r[3] == 0x33 && r[4] == 0x44 else r[3] == 0x32 && r[4] == 0x41)
    ensures id.Given? ==> r[0] == id.id0 && r[1] == id.id1
    ensures id.Kept? ==> var a, ofs := if f == D81 then 1560 else 357, if f == D81 then 0x16 else 0xa2;
      && r[0] == (if was[a][ofs] == 0xa0 then 0x20 else was[a][ofs])
      && r[1] == (if was[a][ofs + 1] == 0xa0 then 0x20 else was[a][ofs + 1])
  {
    FrontPlaces();
    NotHeader(f);
    var held := was[At(f, HeaderAt(f).track, HeaderAt(f).sector)];
    var (a, b) := if id.Given? then (id.id0, id.id1) else (ReadChar(held[IdOffset(f)]), ReadChar(held[IdOffset(f) + 1]));
    [a, b, 0xa0] + (if f == D81 then [0x33, 0x44] else [0x32, 0x41])
  }

  /** Formats an image: with an identification all of it, without one only its directory track is cleared. */
  method Format(d: Drive, part: nat, name: seq<byte>, id: Id)
    requires d.Valid() && part < |d.parts| && !d.parts[part].format.Dnp?
    modifies d
    ensures d.Valid() && d.Formats() == old(d.Formats()) && d.V() == old(d.V())[part := d.V()[part]]
    ensures ImageOk(d.parts[part].format, old(d.V())[part])
    ensures Formatted(d.parts[part].format, old(d.V())[part], d.V()[part], id.Given?, name,
      NewId(d.parts[part].format, old(d.V())[part], id))
  {
    hide Views, CacheOk, FormatsOf, Stage, Lba, Cleared, LabelIn, AllFreed, Formatted, NoCounts, LabelThere, Front41, Front81,
      MapFront81, NoFronts;
    var f := d.parts[part].format;
    ghost var was := d.V()[part];
    ViewsOk(d.parts, d.bam, d.bam2, part);
    Forget(d);
    SameFormat(old(d.Formats()), old(d.parts), d.parts, part);
    IdleViews(d, part);
    NotHeader(f);
    var chars := NewId(f, d.parts[part].image, id);
    assert chars == [chars[0], chars[1], 0xa0, if f == D81 then 0x33 else 0x32, if f == D81 then 0x44 else 0x41];
    var first, last := if id.Given? then 1 else DirTrack(f), if id.Given? then LastTrack(f) else DirTrack(f);
    ClearTracks(d, part, first, last);
    ghost var img0 := d.V()[part];
    ClearedCounts(f, was, img0, first, last);
    FreeAll(d, part);
    SameFormat(old(d.Formats()), old(d.parts), d.parts, part);
    StageBegins(f, img0, d.V()[part]);
    NoFrontsYet(f, was, img0, d.V()[part], first, last);
    ghost var header := Blank();
    if f == D81 {
      header := FormatD81(d, part, name, chars[0], chars[1], img0);
    } else {
      FormatD41(d, part, name, chars[0], chars[1], img0);
      SameFormat(old(d.Formats()), old(d.parts), d.parts, part);
      if f == D71 {
        FormatD71(d, part, name, chars, img0);
      }
    }
    SameFormat(old(d.Formats()), old(d.parts), d.parts, part);
    StageSize(f, img0, d.V()[part], Taken(f), Stores(f, header));
    StageFormatted(f, was, img0, d.V()[part], id.Given?, header, first, last, name, chars);
  }

  /** Writes the map buffers back and forgets what they hold. */
  method Forget(d: Drive)
    requires d.Valid()
    modifies d
    ensures Idle(d) && d.V() == old(d.V()) && d.Formats() == old(d.Formats())
  {
    d.BamCommit();
    d.bam := d.bam.(part := NO_PART);
    if d.bam2.Some? {
      d.bam2 := Some(d.bam2.value.(part := NO_PART));
    }
    assert d.V() == old(d.V());
  }

  // ----- an empty disk -----

  /** Only the directory, in one sector. */
  function EmptyLayout(f: Disk): Layout { Layout([DirStart(f)], map[], map[DirStart(f) := DirPlace(0)]) }

  /** A formatted image is sound and has no files. */
  lemma FormattedSound(f: Disk, was: Image, img: Image, all: bool, name: seq<byte>, id: seq<byte>)
    requires |id| == 5 && Formatted(f, was, img, all, name, id)
    ensures TreeOk(f, StateOf(f, img), EmptyLayout(f))
  {
    hide Lba, IsFree, LabelIn, CountersOk, CountersComeOut, LabelThere, Formatted, StateOf;
    FormattedFree(f, was, img, all, name, id);
    NotHeader(f);
  }

  lemma FormattedFree(f: Disk, was: Image, img: Image, all: bool, name: seq<byte>, id: seq<byte>)
    requires |id| == 5 && Formatted(f, was, img, all, name, id)
    ensures !f.Dnp? && ImageOk(f, img)
    ensures var st, first := StateOf(f, img), DirStart(f);
      && first in st.sec && st.sec[first] == EmptyDirSector()
      && forall ts :: ts in st.free ==> ts in st.sec && ts != first
  {
    hide Lba, IsFree, LabelIn, CountersOk, CountersComeOut, LabelThere, StateOf;
    NotHeader(f);
    var st, first := StateOf(f, img), DirStart(f);
    StateFacts(f, img, first);
    forall ts | ts in st.free
      ensures ts in st.sec && ts != first
    {
      StateFacts(f, img, ts);
      MapIsReserved(f, ts.track, ts.sector);
    }
  }

  lemma MapIsReserved(f: Disk, t: nat, s: nat)
    requires !f.Dnp?
    ensures IsBam(f, t, s) ==> Reserved(f, t, s)
    ensures Reserved(f, DirStart(f).track, DirStart(f).sector)
  {
  }

  /** The number of blocks a new disk has. */
  function NewBlocks(f: Disk): nat
    requires !f.Dnp?
  {
    match f
    case D41 => 664
    case D71 => 1328
    case D81 => 3160
  }

  /** If the counters come out right, the disk reports the number of blocks a disk of its kind has. */
  lemma FormattedBlocks(f: Disk, was: Image, img: Image, all: bool, name: seq<byte>, id: seq<byte>)
    requires |id| == 5 && Formatted(f, was, img, all, name, id) && CountersComeOut(f, was, all)
    ensures FreeBlocksUpTo(f, img, LastTrack(f)) == NewBlocks(f)
  {
    hide Lba, IsFree, LabelIn, LabelThere, FreeBlocksUpTo, NumFree, CountersComeOut, Counter;
    forall t | 1 <= t <= LastTrack(f) && !Uncounted(f, t)
      ensures SectorsFree(f, img, t) == SectorsPerTrack(f, t)
    {
      forall s: nat | ValidSector(f, t, s)
        ensures IsFree(f, img, t, s)
      {
        assert !Reserved(f, t, s);
      }
      AllCounted(f, img, t, SectorsPerTrack(f, t));
      SectorsFreeIsCount(f, img, t);
    }
    BlocksAre(f, img, LastTrack(f));
    AllTracks(f);
  }

  lemma AllTracks(f: Disk)
    requires !f.Dnp?
    ensures TrackStart(f, LastTrack(f) + 1) == TotalSectors(f)
  {
    LbaWindow(f, LastTrack(f), 0);
  }

  /** The sectors of the directory and map tracks up to track `n`. */
  function Kept(f: Disk, n: nat): nat
    requires !f.Dnp?
  {
    if f == D81 then (if n >= 40 then 40 else 0) else (if n >= 18 then 19 else 0) + (if n >= 53 then 19 else 0)
  }

  lemma {:induction false} BlocksAre(f: Disk, img: Image, n: nat)
    requires ImageOk(f, img) && !f.Dnp? && n <= LastTrack(f)
    requires forall t :: 1 <= t <= LastTrack(f) && !Uncounted(f, t) ==> SectorsFree(f, img, t) == SectorsPerTrack(f, t)
    ensures FreeBlocksUpTo(f, img, n) + Kept(f, n) == TrackStart(f, n + 1)
  {
    hide SectorsFree, FreeBehind;
    if n > 0 {
      BlocksAre(f, img, n - 1);
    }
  }

  /**
   A D71 that is formatted and then formatted again without an identification has wrong counters: the bits of
   its second side are not cleared, so that freeing the sectors counts none of them.
   */
  lemma SecondFormatMiscounts(was: Image, img: Image, img': Image, name: seq<byte>, id: seq<byte>,
      name': seq<byte>, id': seq<byte>)
    requires |id| == |id'| == 5 && Formatted(D71, was, img, true, name, id)
      && Formatted(D71, img, img', false, name', id')
    ensures CountersOk(D71, img) && !CountersOk(D71, img')
  {
    hide Lba, IsFree, LabelThere, NumFree, CountersOk;
    forall s: nat | ValidSector(D71, 36, s)
      ensures IsFree(D71, img, 36, s)
    {
      assert !Reserved(D71, 36, s);
    }
    AllCounted(D71, img, 36, SectorsPerTrack(D71, 36));
    assert FreeOn(D71, img, 36) > 0;
    assert !CountersComeOut(D71, img, false);
  }

  /** Formats an image with a new identification and mounts it: an empty disk, ready for files. */
  method NewDisk(d: Drive, part: nat, name: seq<byte>, id0: byte, id1: byte) returns (vol: Volume, blocks: nat)
    requires d.Valid() && part < |d.parts| && !d.parts[part].format.Dnp?
    modifies d
    ensures fresh(vol) && vol.drive == d && vol.part == part && vol.Valid() && vol.f == d.parts[part].format
    ensures vol.L.files == map[] && blocks == NewBlocks(vol.f)
    ensures d.Formats() == old(d.Formats()) && d.V() == old(d.V())[part := d.V()[part]]
  {
    hide Views, CacheOk, FormatsOf, Formatted, TreeOk, FreeBlocksUpTo;
    ghost var was, f := d.V()[part], d.parts[part].format;
    Format(d, part, name, Given(id0, id1));
    SameFormat(old(d.Formats()), old(d.parts), d.parts, part);
    ghost var id := NewId(f, was, Given(id0, id1));
    FormattedSound(f, was, d.V()[part], true, name, id);
    FormattedBlocks(f, was, d.V()[part], true, name, id);
    FormattedCounters(f, was, d.V()[part], name, id);
    vol := new Volume(d, part, EmptyLayout(f));
    blocks := vol.FreeBlocks();
  }

  lemma FormattedCounters(f: Disk, was: Image, img: Image, name: seq<byte>, id: seq<byte>)
    requires |id| == 5 && Formatted(f, was, img, true, name, id)
    ensures ImageOk(f, img) && CountersOk(f, img)
  {
    hide CountersOk, IsFree, LabelThere;
  }
}
