/** Disk image formats: tracks and sectors, where they lie in the image, and where the block map keeps them. */
module DxxGeometry {
  import opened Bits

  datatype Format = D41 | D71 | D81 | Dnp(last: nat)

  /** A DNP image has between 1 and 255 tracks; the other sizes are fixed. */
  type Disk = f: Format | f.Dnp? ==> 1 <= f.last <= 255 witness D41

  function LastTrack(f: Disk): nat {
    match f
    case D41 => 35
    case D71 => 70
    case D81 => 80
    case Dnp(last) => last
  }

  function DirTrack(f: Disk): nat {
    match f
    case D81 => 40
    case Dnp(_) => 1
    case _ => 18
  }

  function FileInterleave(f: Disk): nat {
    match f
    case D41 => 10
    case D71 => 6
    case _ => 1
  }

  function DirInterleave(f: Disk): nat {
    match f
    case D41 => 3
    case D71 => 3
    case _ => 1
  }

  /** Sectors on track `t`. */
  function SectorsPerTrack(f: Disk, t: nat): (n: nat)
    ensures 17 <= n <= 256
  {
    match f
    case D81 => 40
    case Dnp(_) => 256
    case _ =>
      var u := if t > 35 then t - 35 else t;
      if u < 18 then 21 else if u < 25 then 19 else if u < 31 then 18 else 17
  }

  predicate ValidSector(f: Disk, t: nat, s: nat) {
    1 <= t <= LastTrack(f) && s < SectorsPerTrack(f, t)
  }

  /** The number of a sector counted from the start of the image. */
  function Lba(f: Disk, t: nat, s: nat): nat
    requires t >= 1
  {
    match f
    case D81 => (t - 1) * 40 + s
    case Dnp(_) => (t - 1) * 256 + s
    case _ =>
      var u := if t - 1 >= 35 then t - 1 - 35 else t - 1;
      var offset := if t - 1 >= 35 then 683 else 0;
      if u < 17 then u * 21 + s + offset
      else if u < 24 then 17 * 21 + (u - 17) * 19 + s + offset
      else if u < 30 then 17 * 21 + 7 * 19 + (u - 24) * 18 + s + offset
      else 17 * 21 + 7 * 19 + 6 * 18 + (u - 30) * 17 + s + offset
  }

  function TotalSectors(f: Disk): nat {
    match f
    case D41 => 683
    case D71 => 1366
    case D81 => 3200
    case Dnp(last) => last * 256
  }

  /** Every sector lies inside the image, and no two share a place. */
  lemma LbaInjective(f: Disk, t: nat, s: nat, t': nat, s': nat)
    requires ValidSector(f, t, s) && ValidSector(f, t', s')
    ensures Lba(f, t, s) < TotalSectors(f)
    ensures Lba(f, t, s) == Lba(f, t', s') ==> t == t' && s == s'
  {
    LbaWindow(f, t, s);
    LbaWindow(f, t', s');
    if t < t' {
      TrackStartsGrow(f, t, t');
    } else if t' < t {
      TrackStartsGrow(f, t', t);
    }
  }

  /** The first sector of track `t`, defined track by track. */
  function TrackStart(f: Disk, t: nat): nat
    requires t >= 1
  {
    if t == 1 then 0 else TrackStart(f, t - 1) + SectorsPerTrack(f, t - 1)
  }

  lemma {:induction false} TrackStartsGrow(f: Disk, t: nat, t': nat)
    requires 1 <= t < t'
    ensures TrackStart(f, t) + SectorsPerTrack(f, t) <= TrackStart(f, t')
  {
    if t < t' - 1 {
      TrackStartsGrow(f, t, t' - 1);
    }
  }

  /** The closed formula agrees with laying the tracks out one after the other. */
  lemma {:induction false} LbaWindow(f: Disk, t: nat, s: nat)
    requires ValidSector(f, t, s)
    ensures Lba(f, t, s) == TrackStart(f, t) + s
    ensures Lba(f, t, s) < TotalSectors(f)
  {
    if t > 1 {
      LbaWindow(f, t - 1, 0);
    }
  }

  /** The last sector of the last track is the last one of the image. */
  lemma LbaLast(f: Disk)
    ensures var t := LastTrack(f); var s := SectorsPerTrack(f, t) - 1;
      ValidSector(f, t, s) && Lba(f, t, s) + 1 == TotalSectors(f)
  {
  }

  // ----- the block availability map -----

  datatype BamData = Bitfield | FreeCount

  /** A byte of the map: track and sector of the map sector, and the offset in it. */
  datatype BamPlace = BamPlace(track: nat, sector: nat, pos: nat)

  /** Where the map keeps the bit field or the counter of track `t`. */
  function BamOf(f: Disk, t: nat, kind: BamData): BamPlace {
    match f
    case D41 => BamPlace(18, 0, 4 * t + (if kind == Bitfield then 1 else 0))
    case D71 =>
      if t > 35 && kind == Bitfield then BamPlace(53, 0, (t - 36) * 3)
      else if t > 35 then BamPlace(18, 0, (t - 36) + 0xdd)
      else BamPlace(18, 0, 4 * t + (if kind == Bitfield then 1 else 0))
    case D81 =>
      BamPlace(40, if t < 41 then 1 else 2, 10 + (if t > 40 then t - 40 else t) * 6 + (if kind == Bitfield then 1 else 0))
    case Dnp(_) => BamPlace(1, 2 + t / 8, (t % 8) * 32)
  }

  /** The map sectors of a format. */
  predicate IsBam(f: Disk, t: nat, s: nat) {
    match f
    case D41 => t == 18 && s == 0
    case D71 => (t == 18 || t == 53) && s == 0
    case D81 => t == 40 && (s == 1 || s == 2)
    case Dnp(last) => t == 1 && 2 <= s <= 2 + last / 8
  }

  /** The bit of sector `s` in its byte; DNP counts from the top bit. */
  function BitOf(f: Disk, s: nat): (k: nat)
    ensures k < 8
  {
    if f.Dnp? then 7 - s % 8 else s % 8
  }

  /** Map bytes of a valid track lie inside a map sector of the image. */
  lemma BamInside(f: Disk, t: nat, s: nat, kind: BamData)
    requires ValidSector(f, t, s)
    ensures var b := BamOf(f, t, kind);
      && ValidSector(f, b.track, b.sector) && IsBam(f, b.track, b.sector)
      && b.pos + (if kind == Bitfield then s / 8 else 0) < 256
  {
  }

  /** The map sectors are exactly those that some track has its bits or its counter in. */
  lemma BamSectors(f: Disk, t: nat, s: nat)
    ensures IsBam(f, t, s) <==>
            exists u: nat, kind :: 1 <= u <= LastTrack(f) && BamOf(f, u, kind).track == t && BamOf(f, u, kind).sector == s
  {
    if IsBam(f, t, s) {
      var u := match f
        case D71 => if t == 53 then 36 else 1
        case D81 => if s == 1 then 1 else 41
        case D41 => 1
        case Dnp(_) => if s == 2 then 1 else 8 * (s - 2);
      assert 1 <= u <= LastTrack(f) && BamOf(f, u, Bitfield).track == t && BamOf(f, u, Bitfield).sector == s;
    }
  }

  /** All of the map is on the directory track, but for the bits of the second side of a D71. */
  lemma BamOnDirTrack(f: Disk, t: nat, s: nat)
    requires IsBam(f, t, s)
    ensures t == DirTrack(f) <==> !(f == D71 && t == 53)
  {
  }

  /** The bits of two different sectors are different bits. */
  lemma BitsApart(f: Disk, t: nat, s: nat, t': nat, s': nat)
    requires ValidSector(f, t, s) && ValidSector(f, t', s') && (t, s) != (t', s')
    ensures var b, b' := BamOf(f, t, Bitfield), BamOf(f, t', Bitfield);
      (b.track, b.sector, b.pos + s / 8) != (b'.track, b'.sector, b'.pos + s' / 8) || BitOf(f, s) != BitOf(f, s')
  {
  }

  /** Counters of two tracks are different bytes, and no counter lies inside a bit field. */
  lemma CountersApart(f: Disk, t: nat, t': nat, s': nat)
    requires !f.Dnp? && ValidSector(f, t, 0) && ValidSector(f, t', s')
    ensures var c, b', c' := BamOf(f, t, FreeCount), BamOf(f, t', Bitfield), BamOf(f, t', FreeCount);
      && (c.track, c.sector, c.pos) != (b'.track, b'.sector, b'.pos + s' / 8)
      && (t != t' ==> (c.track, c.sector, c.pos) != (c'.track, c'.sector, c'.pos))
  {
  }
}
