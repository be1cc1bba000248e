/** The block availability map of an image: which sectors it calls free, its counters, and how marking changes both. */
module DxxBam {
  import opened Bits
  import opened DxxGeometry

  type Sector = s: seq<byte> | |s| == 256 witness seq(256, _ => 0)
  type Image = seq<Sector>

  predicate ImageOk(f: Disk, img: Image) { |img| == TotalSectors(f) }

  /** Where sector `s` of track `t` lies in an image. */
  function At(f: Disk, t: nat, s: nat): (a: nat)
    requires ValidSector(f, t, s)
    ensures a < TotalSectors(f)
  {
    LbaInjective(f, t, s, t, s);
    Lba(f, t, s)
  }

  /** The image with the sector at `a` replaced. */
  function WithSector(img: Image, a: nat, data: Sector): Image
    requires a < |img|
  {
    img[a := data]
  }

  /** The map byte at `b`, `off` bytes further on. */
  function MapByte(f: Disk, img: Image, b: BamPlace, off: nat): byte
    requires ImageOk(f, img) && ValidSector(f, b.track, b.sector) && b.pos + off < 256
  {
    img[At(f, b.track, b.sector)][b.pos + off]
  }

  function WithMapByte(f: Disk, img: Image, b: BamPlace, off: nat, v: byte): (r: Image)
    requires ImageOk(f, img) && ValidSector(f, b.track, b.sector) && b.pos + off < 256
    ensures ImageOk(f, r)
  {
    var a := At(f, b.track, b.sector);
    img[a := img[a][b.pos + off := v]]
  }

  predicate IsFree(f: Disk, img: Image, t: nat, s: nat)
    requires ImageOk(f, img) && ValidSector(f, t, s)
  {
    BamInside(f, t, s, Bitfield);
    Bit(MapByte(f, img, BamOf(f, t, Bitfield), s / 8), BitOf(f, s))
  }

  /**
   The bit of a sector by its place in the image: in sector 357 (18/0), on the second side of a D71 in sector 1040
   (53/0), on a D81 in sector 1561 or 1562 (40/1 and 40/2), in a DNP from sector 2 (1/2) on with the bits reversed.
   */
  predicate MarkedFree(f: Disk, img: Image, t: nat, s: nat)
    requires ImageOk(f, img) && ValidSector(f, t, s)
  {
    match f
    case D41 => Bit(img[357][4 * t + 1 + s / 8], s % 8)
    case D71 => if t <= 35 then Bit(img[357][4 * t + 1 + s / 8], s % 8) else Bit(img[1040][3 * (t - 36) + s / 8], s % 8)
    case D81 => if t <= 40 then Bit(img[1561][11 + 6 * t + s / 8], s % 8) else Bit(img[1562][11 + 6 * (t - 40) + s / 8], s % 8)
    case Dnp(_) => Bit(img[2 + t / 8][32 * (t % 8) + s / 8], 7 - s % 8)
  }

  /** The counter of a track by its place in the image. */
  function Counted(f: Disk, img: Image, t: nat): byte
    requires ImageOk(f, img) && !f.Dnp? && ValidSector(f, t, 0)
  {
    match f
    case D41 => img[357][4 * t]
    case D71 => if t <= 35 then img[357][4 * t] else img[357][0xdd + t - 36]
    case D81 => if t <= 40 then img[1561][10 + 6 * t] else img[1562][10 + 6 * (t - 40)]
  }

  /** The map is read at those places. */
  lemma MapPlaces(f: Disk, img: Image, t: nat, s: nat)
    requires ImageOk(f, img) && ValidSector(f, t, s)
    ensures IsFree(f, img, t, s) <==> MarkedFree(f, img, t, s)
    ensures !f.Dnp? ==> ValidSector(f, t, 0) && Counter(f, img, t) == Counted(f, img, t)
  {
    hide Bit;
  }

  function WithBit(f: Disk, img: Image, t: nat, s: nat, on: bool): (r: Image)
    requires ImageOk(f, img) && ValidSector(f, t, s)
    ensures ImageOk(f, r)
  {
    BamInside(f, t, s, Bitfield);
    var b := BamOf(f, t, Bitfield);
    assert Pow2(8) == 256;
    PutBitBound(MapByte(f, img, b, s / 8), BitOf(f, s), on, 8);
    WithMapByte(f, img, b, s / 8, PutBit(MapByte(f, img, b, s / 8), BitOf(f, s), on))
  }

  /** The stored number of free sectors of a track. */
  function Counter(f: Disk, img: Image, t: nat): byte
    requires ImageOk(f, img) && !f.Dnp? && ValidSector(f, t, 0)
  {
    BamInside(f, t, 0, FreeCount);
    MapByte(f, img, BamOf(f, t, FreeCount), 0)
  }

  function WithCounter(f: Disk, img: Image, t: nat, n: byte): (r: Image)
    requires ImageOk(f, img) && !f.Dnp? && ValidSector(f, t, 0)
    ensures ImageOk(f, r)
  {
    BamInside(f, t, 0, FreeCount);
    WithMapByte(f, img, BamOf(f, t, FreeCount), 0, n)
  }

  /** The image with sector `(t, s)` marked used: its bit cleared and, where there is one, the counter lowered. */
  function Allocated(f: Disk, img: Image, t: nat, s: nat): (r: Image)
    requires ImageOk(f, img) && ValidSector(f, t, s)
    ensures ImageOk(f, r)
  {
    if !IsFree(f, img, t, s) then img
    else
      var r := WithBit(f, img, t, s, false);
      if f.Dnp? || Counter(f, r, t) == 0 then r else WithCounter(f, r, t, Counter(f, r, t) - 1)
  }

  /** The image with sector `(t, s)` marked free: its bit set and, where there is one, the counter raised. */
  function Freed(f: Disk, img: Image, t: nat, s: nat): (r: Image)
    requires ImageOk(f, img) && ValidSector(f, t, s)
    ensures ImageOk(f, r)
  {
    if IsFree(f, img, t, s) then img
    else
      var r := WithBit(f, img, t, s, true);
      if f.Dnp? || Counter(f, r, t) >= SectorsPerTrack(f, t) then r else WithCounter(f, r, t, Counter(f, r, t) + 1)
  }

  /** How many of the first `n` sectors of track `t` are free. */
  function NumFree(f: Disk, img: Image, t: nat, n: nat): (k: nat)
    requires ImageOk(f, img) && 1 <= t <= LastTrack(f) && n <= SectorsPerTrack(f, t)
    ensures k <= n
  {
    if n == 0 then 0 else NumFree(f, img, t, n - 1) + (if IsFree(f, img, t, n - 1) then 1 else 0)
  }

  function FreeOn(f: Disk, img: Image, t: nat): (k: nat)
    requires ImageOk(f, img) && 1 <= t <= LastTrack(f)
    ensures k <= SectorsPerTrack(f, t)
  {
    NumFree(f, img, t, SectorsPerTrack(f, t))
  }

  /** Every counter equals the number of free bits of its track. */
  ghost predicate CountersOk(f: Disk, img: Image) {
    && ImageOk(f, img)
    && (!f.Dnp? ==> forall t :: 1 <= t <= LastTrack(f) ==> Counter(f, img, t) as int == FreeOn(f, img, t))
  }

  // ----- single bytes -----

  /** Storing a map byte changes that byte of the image and nothing else. */
  lemma MapByteAt(f: Disk, img: Image, b: BamPlace, off: nat, v: byte, b': BamPlace, off': nat)
    requires ImageOk(f, img) && ValidSector(f, b.track, b.sector) && b.pos + off < 256
    requires ValidSector(f, b'.track, b'.sector) && b'.pos + off' < 256
    ensures MapByte(f, WithMapByte(f, img, b, off, v), b', off')
         == if (b.track, b.sector, b.pos + off) == (b'.track, b'.sector, b'.pos + off') then v else MapByte(f, img, b', off')
  {
    LbaInjective(f, b.track, b.sector, b'.track, b'.sector);
  }

  lemma WithBitBits(f: Disk, img: Image, t: nat, s: nat, on: bool, t': nat, s': nat)
    requires ImageOk(f, img) && ValidSector(f, t, s) && ValidSector(f, t', s')
    ensures IsFree(f, WithBit(f, img, t, s, on), t', s') == if (t, s) == (t', s') then on else IsFree(f, img, t', s')
  {
    hide WithMapByte, BamOf, BitOf;
    BamInside(f, t, s, Bitfield);
    BamInside(f, t', s', Bitfield);
    var b, b' := BamOf(f, t, Bitfield), BamOf(f, t', Bitfield);
    var was := MapByte(f, img, b, s / 8);
    assert Pow2(8) == 256;
    PutBitBound(was, BitOf(f, s), on, 8);
    MapByteAt(f, img, b, s / 8, PutBit(was, BitOf(f, s), on), b', s' / 8);
    PutBitAt(was, BitOf(f, s), on, BitOf(f, s'));
    if (t, s) != (t', s') {
      BitsApart(f, t, s, t', s');
    }
  }

  lemma WithBitCounter(f: Disk, img: Image, t: nat, s: nat, on: bool, t': nat)
    requires ImageOk(f, img) && !f.Dnp? && ValidSector(f, t, s) && ValidSector(f, t', 0)
    ensures Counter(f, WithBit(f, img, t, s, on), t') == Counter(f, img, t')
  {
    hide MapByte, WithMapByte, BamOf, BitOf;
    BamInside(f, t, s, Bitfield);
    BamInside(f, t', 0, FreeCount);
    CountersApart(f, t', t, s);
    var b := BamOf(f, t, Bitfield);
    var was := MapByte(f, img, b, s / 8);
    assert Pow2(8) == 256;
    PutBitBound(was, BitOf(f, s), on, 8);
    MapByteAt(f, img, b, s / 8, PutBit(was, BitOf(f, s), on), BamOf(f, t', FreeCount), 0);
  }

  lemma WithCounterBits(f: Disk, img: Image, t: nat, n: byte, t': nat, s': nat)
    requires ImageOk(f, img) && !f.Dnp? && ValidSector(f, t, 0) && ValidSector(f, t', s')
    ensures IsFree(f, WithCounter(f, img, t, n), t', s') == IsFree(f, img, t', s')
    ensures Counter(f, WithCounter(f, img, t, n), t') == if t == t' then n else Counter(f, img, t')
  {
    hide MapByte, WithMapByte, BamOf, BitOf;
    BamInside(f, t, 0, FreeCount);
    BamInside(f, t', s', Bitfield);
    BamInside(f, t', s', FreeCount);
    CountersApart(f, t, t', s');
    MapByteAt(f, img, BamOf(f, t, FreeCount), 0, n, BamOf(f, t', Bitfield), s' / 8);
    MapByteAt(f, img, BamOf(f, t, FreeCount), 0, n, BamOf(f, t', FreeCount), 0);
  }

  // ----- marking -----

  /** `img'` differs from `img` in the free bit of `(t, s)` and, unless it is stuck at its limit, in the counter of `t`. */
  ghost predicate Marked(f: Disk, img: Image, img': Image, t: nat, s: nat, free: bool) {
    && ImageOk(f, img) && ImageOk(f, img') && ValidSector(f, t, s)
    && (forall t': nat, s': nat :: ValidSector(f, t', s') ==>
          IsFree(f, img', t', s') == if (t', s') == (t, s) then free else IsFree(f, img, t', s'))
    && (!f.Dnp? ==> forall t' :: 1 <= t' <= LastTrack(f) && t' != t ==> Counter(f, img', t') == Counter(f, img, t'))
  }

  lemma AllocatedMarks(f: Disk, img: Image, t: nat, s: nat)
    requires ImageOk(f, img) && ValidSector(f, t, s)
    ensures Marked(f, img, Allocated(f, img, t, s), t, s, false)
    ensures !f.Dnp? && IsFree(f, img, t, s) && Counter(f, img, t) > 0 ==>
      Counter(f, Allocated(f, img, t, s), t) == Counter(f, img, t) - 1
  {
    hide IsFree, Counter, WithBit, WithCounter;
    if IsFree(f, img, t, s) {
      var r := WithBit(f, img, t, s, false);
      forall t': nat, s': nat | ValidSector(f, t', s')
        ensures IsFree(f, Allocated(f, img, t, s), t', s') == if (t', s') == (t, s) then false else IsFree(f, img, t', s')
      {
        WithBitBits(f, img, t, s, false, t', s');
        if !f.Dnp? && Counter(f, r, t) != 0 {
          WithCounterBits(f, r, t, Counter(f, r, t) - 1, t', s');
        }
      }
      if !f.Dnp? {
        forall t' | 1 <= t' <= LastTrack(f)
          ensures Counter(f, r, t') == Counter(f, img, t')
          ensures Counter(f, Allocated(f, img, t, s), t') ==
            if t' == t && Counter(f, r, t) != 0 then Counter(f, img, t') - 1 else Counter(f, img, t')
        {
          WithBitCounter(f, img, t, s, false, t');
          if Counter(f, r, t) != 0 {
            WithCounterBits(f, r, t, Counter(f, r, t) - 1, t', 0);
          }
        }
      }
    }
  }

  lemma FreedMarks(f: Disk, img: Image, t: nat, s: nat)
    requires ImageOk(f, img) && ValidSector(f, t, s)
    ensures Marked(f, img, Freed(f, img, t, s), t, s, true)
    ensures !f.Dnp? && !IsFree(f, img, t, s) && Counter(f, img, t) as int < SectorsPerTrack(f, t) ==>
      Counter(f, Freed(f, img, t, s), t) == Counter(f, img, t) + 1
  {
    hide IsFree, Counter, WithBit, WithCounter;
    if !IsFree(f, img, t, s) {
      var r := WithBit(f, img, t, s, true);
      forall t': nat, s': nat | ValidSector(f, t', s')
        ensures IsFree(f, Freed(f, img, t, s), t', s') == if (t', s') == (t, s) then true else IsFree(f, img, t', s')
      {
        WithBitBits(f, img, t, s, true, t', s');
        if !f.Dnp? && Counter(f, r, t) < SectorsPerTrack(f, t) {
          WithCounterBits(f, r, t, Counter(f, r, t) + 1, t', s');
        }
      }
      if !f.Dnp? {
        forall t' | 1 <= t' <= LastTrack(f)
          ensures Counter(f, r, t') == Counter(f, img, t')
          ensures Counter(f, Freed(f, img, t, s), t') ==
            if t' == t && Counter(f, r, t) < SectorsPerTrack(f, t) then Counter(f, img, t') + 1 else Counter(f, img, t')
        {
          WithBitCounter(f, img, t, s, true, t');
          if Counter(f, r, t) < SectorsPerTrack(f, t) {
            WithCounterBits(f, r, t, Counter(f, r, t) + 1, t', 0);
          }
        }
      }
    }
  }

  /** Marking one sector changes the number of free ones on its track by one, and on no other track. */
  lemma {:induction false} MarkedCount(f: Disk, img: Image, img': Image, t: nat, s: nat, free: bool, t': nat, n: nat)
    requires Marked(f, img, img', t, s, free) && IsFree(f, img, t, s) != free
    requires 1 <= t' <= LastTrack(f) && n <= SectorsPerTrack(f, t')
    ensures NumFree(f, img', t', n) ==
      NumFree(f, img, t', n) + (if t' == t && s < n then (if free then 1 else -1) else 0)
  {
    hide IsFree, Counter;
    if n > 0 {
      MarkedCount(f, img, img', t, s, free, t', n - 1);
      assert ValidSector(f, t', n - 1);
    }
  }

  /** A track with a free sector has a positive count, one with a used sector is not at its limit. */
  lemma {:induction false} CountBounds(f: Disk, img: Image, t: nat, s: nat, n: nat)
    requires ImageOk(f, img) && ValidSector(f, t, s) && s < n <= SectorsPerTrack(f, t)
    ensures if IsFree(f, img, t, s) then NumFree(f, img, t, n) > 0 else NumFree(f, img, t, n) < n
  {
    hide IsFree;
    if s < n - 1 {
      CountBounds(f, img, t, s, n - 1);
    }
  }

  /** With true counters, allocating lowers exactly one of them along with the bits, and they stay true. */
  lemma AllocateKeepsCounters(f: Disk, img: Image, t: nat, s: nat)
    requires CountersOk(f, img) && ValidSector(f, t, s)
    ensures CountersOk(f, Allocated(f, img, t, s))
  {
    hide IsFree, Counter, WithBit, WithCounter, NumFree, Marked;
    var img' := Allocated(f, img, t, s);
    if IsFree(f, img, t, s) && !f.Dnp? {
      AllocatedMarks(f, img, t, s);
      CountBounds(f, img, t, s, SectorsPerTrack(f, t));
      MarkedCounters(f, img, img', t, s, false);
    }
  }

  lemma FreeKeepsCounters(f: Disk, img: Image, t: nat, s: nat)
    requires CountersOk(f, img) && ValidSector(f, t, s)
    ensures CountersOk(f, Freed(f, img, t, s))
  {
    hide IsFree, Counter, WithBit, WithCounter, NumFree, Marked;
    var img' := Freed(f, img, t, s);
    if !IsFree(f, img, t, s) && !f.Dnp? {
      FreedMarks(f, img, t, s);
      CountBounds(f, img, t, s, SectorsPerTrack(f, t));
      MarkedCounters(f, img, img', t, s, true);
    }
  }

  lemma MarkedCounters(f: Disk, img: Image, img': Image, t: nat, s: nat, free: bool)
    requires CountersOk(f, img) && !f.Dnp? && Marked(f, img, img', t, s, free) && IsFree(f, img, t, s) != free
    requires Counter(f, img', t) as int == Counter(f, img, t) + (if free then 1 else -1)
    ensures CountersOk(f, img')
  {
    hide IsFree, Counter, NumFree;
    forall t' | 1 <= t' <= LastTrack(f)
      ensures Counter(f, img', t') as int == FreeOn(f, img', t')
    {
      MarkedCount(f, img, img', t, s, free, t', SectorsPerTrack(f, t'));
    }
  }

  /** Marking touches map sectors only. */
  lemma MarkingFrame(f: Disk, img: Image, t: nat, s: nat, t': nat, s': nat)
    requires ImageOk(f, img) && ValidSector(f, t, s) && ValidSector(f, t', s') && !IsBam(f, t', s')
    ensures Allocated(f, img, t, s)[At(f, t', s')] == img[At(f, t', s')]
    ensures Freed(f, img, t, s)[At(f, t', s')] == img[At(f, t', s')]
  {
    hide BamOf, BitOf, Lba, PutBit, Bit;
    BamInside(f, t, s, Bitfield);
    BamInside(f, t, s, FreeCount);
    var b, c := BamOf(f, t, Bitfield), BamOf(f, t, FreeCount);
    LbaInjective(f, b.track, b.sector, t', s');
    LbaInjective(f, c.track, c.sector, t', s');
  }

  /** With true counters, freeing undoes allocating byte for byte. */
  lemma FreeUndoesAllocate(f: Disk, img: Image, t: nat, s: nat)
    requires CountersOk(f, img) && ValidSector(f, t, s) && IsFree(f, img, t, s)
    ensures Freed(f, Allocated(f, img, t, s), t, s) == img
  {
    hide IsBam, BamOf, BitOf, At, NumFree;
    BamInside(f, t, s, Bitfield);
    BamInside(f, t, s, FreeCount);
    var b, k := BamOf(f, t, Bitfield), BitOf(f, s);
    var v := MapByte(f, img, b, s / 8);
    PutBack(v, k);
    AllocatedMarks(f, img, t, s);
    CounterAtLeastOne(f, img, t, s);
    var r := WithBit(f, img, t, s, false);
    if f.Dnp? {
      MapByteBack(f, img, b, s / 8, PutBit(v, k, false));
    } else {
      WithBitCounter(f, img, t, s, false, t);
      var n := Counter(f, img, t);
      var c := BamOf(f, t, FreeCount);
      CountersApart(f, t, t, s);
      MapByteAt(f, r, c, 0, n - 1, b, s / 8);
      MapByteAt(f, img, b, s / 8, PutBit(v, k, false), b, s / 8);
      var img' := Allocated(f, img, t, s);
      assert img' == WithMapByte(f, WithMapByte(f, img, b, s / 8, PutBit(v, k, false)), c, 0, n - 1);
      WithBitCounter(f, img', t, s, true, t);
      assert Freed(f, img', t, s) == WithMapByte(f, WithMapByte(f, img', b, s / 8, v), c, 0, n);
      TwoBytesBack(f, img, b, s / 8, PutBit(v, k, false), c, n - 1);
    }
  }

  lemma {:induction false} PutBack(v: nat, k: nat)
    requires Bit(v, k)
    ensures PutBit(PutBit(v, k, false), k, true) == v
  {
    if k > 0 {
      PutBack(v / 2, k - 1);
    }
  }

  lemma CounterAtLeastOne(f: Disk, img: Image, t: nat, s: nat)
    requires CountersOk(f, img) && ValidSector(f, t, s) && IsFree(f, img, t, s)
    ensures !f.Dnp? ==> 0 < Counter(f, img, t) as int <= SectorsPerTrack(f, t)
  {
    hide IsFree, Counter, NumFree;
    CountBounds(f, img, t, s, SectorsPerTrack(f, t));
  }

  lemma MapByteBack(f: Disk, img: Image, b: BamPlace, off: nat, v: byte)
    requires ImageOk(f, img) && ValidSector(f, b.track, b.sector) && b.pos + off < 256
    ensures WithMapByte(f, WithMapByte(f, img, b, off, v), b, off, MapByte(f, img, b, off)) == img
  {
    var a := At(f, b.track, b.sector);
    assert img[a][b.pos + off := v][b.pos + off := img[a][b.pos + off]] == img[a];
  }

  /** Storing two different map bytes and then their old values again restores the image. */
  lemma TwoBytesBack(f: Disk, img: Image, b: BamPlace, off: nat, v: byte, c: BamPlace, w: byte)
    requires ImageOk(f, img) && ValidSector(f, b.track, b.sector) && b.pos + off < 256
    requires ValidSector(f, c.track, c.sector) && c.pos < 256
    requires (b.track, b.sector, b.pos + off) != (c.track, c.sector, c.pos)
    ensures var r := WithMapByte(f, WithMapByte(f, img, b, off, v), c, 0, w);
      WithMapByte(f, WithMapByte(f, r, b, off, MapByte(f, img, b, off)), c, 0, MapByte(f, img, c, 0)) == img
  {
    hide ValidSector;
    LbaInjective(f, b.track, b.sector, c.track, c.sector);
    var x, y := At(f, b.track, b.sector), At(f, c.track, c.sector);
    var r := WithMapByte(f, WithMapByte(f, img, b, off, v), c, 0, w);
    var q := WithMapByte(f, WithMapByte(f, r, b, off, MapByte(f, img, b, off)), c, 0, MapByte(f, img, c, 0));
    assert q[x] == img[x];
    assert q[y] == img[y];
  }

  // ----- counting free sectors without a counter -----

  /** The number of ones among the low `n` bits of `b`. */
  function Ones(b: nat, n: nat): (k: nat)
    ensures k <= n
  {
    if n == 0 then 0 else b % 2 + Ones(b / 2, n - 1)
  }

  /** The parallel count: pairs, then nibbles, then the byte. */
  function ParallelCount(x: bv8): bv8 {
    var b := (x & 0x55) + ((x >> 1) & 0x55);
    var c := (b & 0x33) + ((b >> 2) & 0x33);
    (c & 0x0f) + ((c >> 4) & 0x0f)
  }

  /** Counting one bit after the other, on machine bytes. */
  function SerialCount(x: bv8, n: nat): bv8 {
    if n == 0 then 0 else (x & 1) + SerialCount(x >> 1, n - 1)
  }

  /** The parallel count is the number of ones. */
  lemma ParallelCountIsOnes(x: bv8)
    ensures ParallelCount(x) as int == Ones(x as int, 8)
  {
    assert ParallelCount(x) == SerialCount(x, 8) by {
      ParallelIsSerial(x);
    }
    SerialIsOnes(x, 8);
  }

  /** The parallel count of a byte of the map. */
  function CountByte(b: byte): nat {
    ParallelCount(Machine(b, 8)) as int
  }

  /** The machine byte with the low `n` bits of a number, built bit by bit. */
  function Machine(b: nat, n: nat): bv8 {
    if n == 0 then 0 else (Machine(b / 2, n - 1) << 1) | (if b % 2 == 1 then 1 else 0)
  }

  lemma {:induction false} MachineIs(b: nat, n: nat)
    requires n <= 8 && b < Pow2(n)
    ensures Machine(b, n) as int == b
  {
    if n > 0 {
      MachineIs(b / 2, n - 1);
      SmallPowers(n);
      Rejoin(Machine(b / 2, n - 1), if b % 2 == 1 then 1 else 0);
    }
  }

  lemma SmallPowers(n: nat)
    requires 0 < n <= 8
    ensures Pow2(n) <= 256
  {
    assert Pow2(4) == 16;
    assert Pow2(8) == 256;
  }

  lemma CountByteIsOnes(b: byte)
    ensures CountByte(b) == Ones(b, 8)
  {
    hide ParallelCount, Ones, Machine;
    assert Pow2(8) == 256;
    MachineIs(b, 8);
    ParallelCountIsOnes(Machine(b, 8));
  }

  lemma ParallelIsSerial(x: bv8)
    ensures ParallelCount(x) == SerialCount(x, 8)
  {
    var x1, x2, x3, x4 := x >> 1, (x >> 1) >> 1, ((x >> 1) >> 1) >> 1, (((x >> 1) >> 1) >> 1) >> 1;
    var x5, x6, x7 := x4 >> 1, (x4 >> 1) >> 1, ((x4 >> 1) >> 1) >> 1;
    assert SerialCount(x7, 1) == x7 & 1;
    assert SerialCount(x6, 2) == (x6 & 1) + (x7 & 1);
    assert SerialCount(x4, 4) == (x4 & 1) + ((x5 & 1) + SerialCount(x6, 2));
    assert SerialCount(x2, 6) == (x2 & 1) + ((x3 & 1) + SerialCount(x4, 4));
    assert SerialCount(x, 8) == (x & 1) + ((x1 & 1) + SerialCount(x2, 6));
    ParallelSum(x);
  }

  lemma ParallelSum(x: bv8)
    ensures var x4 := (((x >> 1) >> 1) >> 1) >> 1;
      ParallelCount(x) == (x & 1) + (((x >> 1) & 1) + ((((x >> 1) >> 1) & 1) + (((((x >> 1) >> 1) >> 1) & 1)
        + ((x4 & 1) + (((x4 >> 1) & 1) + ((((x4 >> 1) >> 1) & 1) + ((((x4 >> 1) >> 1) >> 1) & 1)))))))
  {
  }

  lemma {:induction false} SerialIsOnes(x: bv8, n: nat)
    requires n <= 8
    ensures SerialCount(x, n) as int == Ones(x as int, n)
  {
    if n > 0 {
      Halve(x);
      SerialIsOnes(x >> 1, n - 1);
      SmallSum(x & 1, SerialCount(x >> 1, n - 1));
    }
  }

  lemma SmallSum(a: bv8, b: bv8)
    requires a <= 1 && b as int <= 8
    ensures (a + b) as int == a as int + b as int
  {
  }

  /** The number of ones, counted position by position. */
  function BitSum(b: nat, n: nat): nat {
    if n == 0 then 0 else BitSum(b, n - 1) + One(Bit(b, n - 1))
  }

  lemma {:induction false} BitSumShift(b: nat, n: nat)
    requires n > 0
    ensures BitSum(b, n) == b % 2 + BitSum(b / 2, n - 1)
  {
    if n > 1 {
      BitSumShift(b, n - 1);
      assert Bit(b, n - 1) == Bit(b / 2, n - 2);
    }
  }

  lemma {:induction false} OnesIsBitSum(b: nat, n: nat)
    ensures Ones(b, n) == BitSum(b, n)
  {
    if n > 0 {
      OnesIsBitSum(b / 2, n - 1);
      BitSumShift(b, n);
    }
  }

  lemma BitSumReversed(b: nat)
    ensures BitSum(b, 8) == One(Bit(b, 7)) + One(Bit(b, 6)) + One(Bit(b, 5)) + One(Bit(b, 4))
      + One(Bit(b, 3)) + One(Bit(b, 2)) + One(Bit(b, 1)) + One(Bit(b, 0))
  {
    hide Bit;
    assert BitSum(b, 1) == One(Bit(b, 0));
    assert BitSum(b, 2) == One(Bit(b, 0)) + One(Bit(b, 1));
    assert BitSum(b, 4) == BitSum(b, 2) + One(Bit(b, 2)) + One(Bit(b, 3));
    assert BitSum(b, 6) == BitSum(b, 4) + One(Bit(b, 4)) + One(Bit(b, 5));
    assert BitSum(b, 8) == BitSum(b, 6) + One(Bit(b, 6)) + One(Bit(b, 7));
  }

  /** A byte of a DNP bit field holds eight sectors, in reverse bit order, and its ones are the free ones among them. */
  lemma DnpByteCount(f: Disk, img: Image, t: nat, i: nat)
    requires f.Dnp? && ImageOk(f, img) && 1 <= t <= LastTrack(f) && i < 32
    ensures ValidSector(f, t, 8 * i) && BamOf(f, t, Bitfield).pos + i < 256
    ensures ValidSector(f, BamOf(f, t, Bitfield).track, BamOf(f, t, Bitfield).sector)
    ensures NumFree(f, img, t, 8 * i + 8)
      == NumFree(f, img, t, 8 * i) + Ones(MapByte(f, img, BamOf(f, t, Bitfield), i), 8)
  {
    hide Bit, MapByte, BamOf, IsFree, NumFree;
    BamInside(f, t, 8 * i, Bitfield);
    var b := MapByte(f, img, BamOf(f, t, Bitfield), i);
    DnpBit(f, img, t, i, 0);
    DnpBit(f, img, t, i, 1);
    DnpBit(f, img, t, i, 2);
    DnpBit(f, img, t, i, 3);
    DnpBit(f, img, t, i, 4);
    DnpBit(f, img, t, i, 5);
    DnpBit(f, img, t, i, 6);
    DnpBit(f, img, t, i, 7);
    OnesIsBitSum(b, 8);
    BitSumReversed(b);
    FourMore(f, img, t, 8 * i);
    FourMore(f, img, t, 8 * i + 4);
  }

  lemma DnpBit(f: Disk, img: Image, t: nat, i: nat, j: nat)
    requires f.Dnp? && ImageOk(f, img) && 1 <= t <= LastTrack(f) && i < 32 && j < 8
    ensures ValidSector(f, t, 8 * i + j) && BamOf(f, t, Bitfield).pos + i < 256
    ensures ValidSector(f, BamOf(f, t, Bitfield).track, BamOf(f, t, Bitfield).sector)
    ensures IsFree(f, img, t, 8 * i + j) == Bit(MapByte(f, img, BamOf(f, t, Bitfield), i), 7 - j)
  {
    hide Bit, MapByte;
    assert (8 * i + j) / 8 == i && (8 * i + j) % 8 == j;
  }

  lemma FourMore(f: Disk, img: Image, t: nat, n: nat)
    requires ImageOk(f, img) && 1 <= t <= LastTrack(f) && n + 4 <= SectorsPerTrack(f, t)
    ensures NumFree(f, img, t, n + 4) == NumFree(f, img, t, n) + One(IsFree(f, img, t, n)) + One(IsFree(f, img, t, n + 1))
      + One(IsFree(f, img, t, n + 2)) + One(IsFree(f, img, t, n + 3))
  {
    hide IsFree;
    assert NumFree(f, img, t, n + 2) == NumFree(f, img, t, n) + One(IsFree(f, img, t, n)) + One(IsFree(f, img, t, n + 1));
    assert NumFree(f, img, t, n + 4)
      == NumFree(f, img, t, n + 2) + One(IsFree(f, img, t, n + 2)) + One(IsFree(f, img, t, n + 3));
  }

  /** What the map says is the number of free sectors on track `t`; out-of-range tracks have none. */
  function SectorsFree(f: Disk, img: Image, t: nat): nat
    requires ImageOk(f, img)
  {
    if t < 1 || t > LastTrack(f) then 0
    else if f.Dnp? then FreeOn(f, img, t)
    else Counter(f, img, t)
  }

  /** With true counters that is the number of sectors called free. */
  lemma SectorsFreeIsCount(f: Disk, img: Image, t: nat)
    requires CountersOk(f, img) && 1 <= t <= LastTrack(f)
    ensures SectorsFree(f, img, t) == FreeOn(f, img, t)
  {
  }
}
