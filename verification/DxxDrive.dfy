/** The mounted disk images: the cached block maps, the choice of sectors for files, and raw access to other sectors. */
module DxxDrive {
  import opened Bits
  import opened Common
  import opened DxxGeometry
  import opened DxxBam
  import opened DxxCache

  class Drive {
    var parts: seq<Partition>
    /** The map buffer in use. */
    var bam: BamBuffer
    /** The other map buffer, once there is one. */
    var bam2: Option<BamBuffer>

    ghost predicate Valid()
      reads this
    {
      CacheOk(parts, bam, bam2)
    }

    ghost function V(): seq<Image>
      reads this
    {
      Views(parts, bam, bam2)
    }

    /** The formats of the partitions, which nothing here changes. */
    ghost function Formats(): seq<Disk>
      reads this
    {
      FormatsOf(parts)
    }

    constructor (parts: seq<Partition>)
      requires PartsOk(parts)
      ensures Valid() && this.parts == parts
      ensures forall p :: 0 <= p < |parts| ==> V()[p] == parts[p].image
    {
      this.parts := parts;
      bam := BamBuffer(NO_PART, 0, 0, seq(256, _ => 0), false);
      bam2 := None;
    }

    // ----- the cache -----

    /** Asks the buffer pool for a second map buffer; there may be none to spare. */
    method BamBufferAlloc() returns (b: Option<BamBuffer>)
      ensures b.Some? ==> b.value.part == NO_PART && !b.value.mustflush
    {
      var spare: bool := *;
      b := if spare then Some(BamBuffer(NO_PART, 0, 0, seq(256, _ => 0), false)) else None;
    }

    /** Writes the current buffer back if it was changed. */
    method BamBufferFlush()
      requires Valid()
      modifies this`parts, this`bam
      ensures Valid() && V() == old(V()) && Formats() == old(Formats())
      ensures bam == old(bam).(mustflush := false)
    {
      if bam.mustflush && bam.part < |parts| {
        FlushViews(parts, bam, bam2);
        parts := Flushed(parts, bam);
        bam := bam.(mustflush := false);
      }
    }

    /** Writes both buffers back: afterwards the images themselves are what the cache presented. */
    method BamCommit()
      requires Valid()
      modifies this
      ensures Valid() && V() == old(V()) && Formats() == old(Formats())
      ensures forall p :: 0 <= p < |parts| ==> V()[p] == parts[p].image
      ensures !bam.mustflush && (bam2.Some? ==> !bam2.value.mustflush)
      ensures bam == old(bam).(mustflush := false)
      ensures bam2 == if old(bam2).Some? then Some(old(bam2).value.(mustflush := false)) else None
    {
      hide CacheOk, Views, Flushed;
      BamBufferFlush();
      if bam2.Some? {
        SwapViews(parts, bam, bam2.value);
        bam, bam2 := bam2.value, Some(bam);
        BamBufferFlush();
        SwapViews(parts, bam, bam2.value);
        bam, bam2 := bam2.value, Some(bam);
      }
      WrittenBack(parts, bam, bam2);
    }

    /** Brings the map sector of a track into the current buffer, and says where the wanted bytes start in it. */
    method MoveBamWindow(part: nat, track: nat, kind: BamData) returns (pos: nat, ghost spare: bool)
      requires Valid() && part < |parts| && 1 <= track <= LastTrack(parts[part].format)
      modifies this
      ensures Valid() && V() == old(V()) && Formats() == old(Formats())
      ensures Holds(part, BamOf(parts[part].format, track, kind))
      ensures pos == BamOf(parts[part].format, track, kind).pos
      ensures if old(Holds(part, BamOf(parts[part].format, track, kind))) then bam == old(bam) && bam2 == old(bam2) else
        if old(bam2).None? && (old(bam).part == NO_PART || !spare) then bam2 == None else bam2 == Some(old(bam))
      ensures ImageOk(parts[part].format, V()[part]) && Shows(V()[part], part, track, kind, pos)
    {
      hide Views, Lba;
      var place := BamOf(parts[part].format, track, kind);
      BamInside(parts[part].format, track, 0, kind);
      pos, spare := place.pos, false;
      if (bam.part, bam.track, bam.sector) != (part, place.track, place.sector) {
        if bam2.Some? {
          SwapViews(parts, bam, bam2.value);
          bam, bam2 := bam2.value, Some(bam);
          if (bam.part, bam.track, bam.sector) == (part, place.track, place.sector) {
            Shown(part, track, kind);
            return;
          }
        } else if bam.part != NO_PART {
          var spareBuf := BamBufferAlloc();
          spare := spareBuf.Some?;
          if spareBuf.Some? {
            SecondBufferViews(parts, bam, spareBuf.value);
            SwapViews(parts, bam, spareBuf.value);
            bam, bam2 := spareBuf.value, Some(bam);
          }
        }
        BamBufferFlush();
        assert parts[part].format == old(Formats())[part];
        var loaded := BamBuffer(part, place.track, place.sector,
          parts[part].image[At(parts[part].format, place.track, place.sector)], false);
        LoadViews(parts, bam, bam2, loaded);
        bam := loaded;
      }
      Shown(part, track, kind);
    }

    /** From `pos` on the current buffer has what an image says of a track at the places where it says it. */
    ghost predicate Shows(img: Image, part: nat, track: nat, kind: BamData, pos: nat)
      requires part < |parts| && 1 <= track <= LastTrack(parts[part].format) && ImageOk(parts[part].format, img)
      reads this
    {
      var f := parts[part].format;
      match kind
      case FreeCount => !f.Dnp? ==> pos < 256 && ValidSector(f, track, 0) && bam.data[pos] == Counted(f, img, track)
      case Bitfield => forall s: nat {:trigger ValidSector(f, track, s)} :: ValidSector(f, track, s) ==>
        && pos + s / 8 < 256
        && (Bit(bam.data[pos + s / 8], if f.Dnp? then 7 - s % 8 else s % 8) <==> MarkedFree(f, img, track, s))
    }

    lemma Shown(part: nat, track: nat, kind: BamData)
      requires Valid() && part < |parts| && 1 <= track <= LastTrack(parts[part].format)
      requires Holds(part, BamOf(parts[part].format, track, kind))
      ensures ImageOk(parts[part].format, V()[part])
      ensures Shows(V()[part], part, track, kind, BamOf(parts[part].format, track, kind).pos)
    {
      hide Views, Lba, CacheOk, BamOf, Bit, MarkedFree, Counted;
      var f, img, b := parts[part].format, V()[part], BamOf(parts[part].format, track, kind);
      HeldView(parts, bam, bam2);
      BamInside(f, track, 0, kind);
      if kind == FreeCount {
        if !f.Dnp? {
          MapPlaces(f, img, track, 0);
        }
      } else {
        forall s: nat {:trigger ValidSector(f, track, s)} | ValidSector(f, track, s)
          ensures b.pos + s / 8 < 256
          ensures Bit(bam.data[b.pos + s / 8], if f.Dnp? then 7 - s % 8 else s % 8) <==> MarkedFree(f, img, track, s)
        {
          BamInside(f, track, s, Bitfield);
          MapPlaces(f, img, track, s);
        }
      }
    }

    /** The current buffer holds the map sector of `place`. */
    ghost predicate Holds(part: nat, place: BamPlace)
      reads this
    {
      bam.part == part && part != NO_PART && bam.track == place.track && bam.sector == place.sector
    }

    /** Is the sector marked free? */
    method IsFreeSector(part: nat, track: nat, sector: nat) returns (r: bool)
      requires Valid() && part < |parts| && ValidSector(parts[part].format, track, sector)
      modifies this
      ensures Valid() && V() == old(V()) && Formats() == old(Formats())
      ensures ImageOk(parts[part].format, V()[part]) && r == IsFree(parts[part].format, V()[part], track, sector)
      ensures r == MarkedFree(parts[part].format, V()[part], track, sector)
      ensures Holds(part, BamOf(parts[part].format, track, Bitfield))
    {
      hide Views, Lba, CacheOk;
      var pos, _ := MoveBamWindow(part, track, Bitfield);
      assert parts[part].format == old(Formats())[part];
      HeldView(parts, bam, bam2);
      BamInside(parts[part].format, track, sector, Bitfield);
      r := Bit(bam.data[pos + sector / 8], BitOf(parts[part].format, sector));
      MapPlaces(parts[part].format, V()[part], track, sector);
    }

    /** The number of free sectors the map claims for a track. */
    method SectorsFreeOn(part: nat, track: nat) returns (n: nat)
      requires Valid() && part < |parts|
      modifies this
      ensures Valid() && V() == old(V()) && Formats() == old(Formats())
      ensures ImageOk(parts[part].format, V()[part]) && n == SectorsFree(parts[part].format, V()[part], track)
      ensures if track < 1 || track > LastTrack(parts[part].format) then n == 0 else
        !parts[part].format.Dnp? ==> ValidSector(parts[part].format, track, 0) && n == Counted(parts[part].format, V()[part], track)
      ensures 1 <= track <= LastTrack(parts[part].format) ==> Holds(part, BamOf(parts[part].format, track, FreeCount))
    {
      hide Views, Lba, CacheOk, BamOf, Counted, MarkedFree;
      ViewsOk(parts, bam, bam2, part);
      if track < 1 || track > LastTrack(parts[part].format) {
        return 0;
      }
      var pos, _ := MoveBamWindow(part, track, FreeCount);
      assert parts[part].format == old(Formats())[part];
      HeldView(parts, bam, bam2);
      BamInside(parts[part].format, track, 0, FreeCount);
      if parts[part].format.Dnp? {
        DnpPlaces(parts[part].format, track);
        n := CountBits(part, track, pos);
      } else {
        n := bam.data[pos];
      }
    }

    /** Counts the free bits of a DNP track, whose 32 bytes are in the current buffer. */
    method CountBits(part: nat, track: nat, pos: nat) returns (blocks: nat)
      requires Valid() && part < |parts| && parts[part].format.Dnp? && 1 <= track <= LastTrack(parts[part].format)
      requires Holds(part, BamOf(parts[part].format, track, Bitfield))
        && pos == BamOf(parts[part].format, track, Bitfield).pos
      ensures ImageOk(parts[part].format, V()[part]) && blocks == FreeOn(parts[part].format, V()[part], track)
    {
      hide Views, Lba, CacheOk, BamOf, NumFree, IsFree, CountByte, Ones;
      HeldView(parts, bam, bam2);
      ghost var f, img := parts[part].format, V()[part];
      NoneFree(f, img, track);
      blocks := 0;
      var i := 0;
      while i < 32
        invariant 0 <= i <= 32
        invariant blocks == NumFree(f, img, track, 8 * i)
      {
        DnpByteCount(f, img, track, i);
        CountByteIsOnes(bam.data[pos + i]);
        blocks := blocks + CountByte(bam.data[pos + i]);
        i := i + 1;
      }
    }

    /** Marks a sector as used; nothing happens if it already is. */
    method AllocateSector(part: nat, track: nat, sector: nat)
      requires Valid() && part < |parts| && ValidSector(parts[part].format, track, sector)
      modifies this
      ensures Valid() && Formats() == old(Formats())
      ensures ImageOk(parts[part].format, old(V())[part])
      ensures V() == old(V())[part := Allocated(parts[part].format, old(V())[part], track, sector)]
      ensures var b, c := BamOf(parts[part].format, track, Bitfield), BamOf(parts[part].format, track, FreeCount);
        IsFree(parts[part].format, old(V())[part], track, sector) && (b.track, b.sector) == (c.track, c.sector) ==>
          Holds(part, b) && bam.mustflush
    {
      hide Views, Lba, CacheOk, BamOf, BitOf;
      ghost var f, img := parts[part].format, V()[part];
      var free := IsFreeSector(part, track, sector);
      assert parts[part].format == old(Formats())[part] == f;
      if free {
        SetMapBit(part, track, sector, false);
        assert parts[part].format == old(Formats())[part] == f;
        if !parts[part].format.Dnp? {
          var pos, _ := MoveBamWindow(part, track, FreeCount);
          assert parts[part].format == old(Formats())[part] == f;
          HeldView(parts, bam, bam2);
          BamInside(f, track, 0, FreeCount);
          if bam.data[pos] > 0 {
            StoreViews(parts, bam, bam2, BamOf(f, track, FreeCount), 0, bam.data[pos] - 1);
            bam := bam.(data := bam.data[pos := bam.data[pos] - 1], mustflush := true);
          }
        }
      }
    }

    /** Marks a sector as free; nothing happens if it already is. */
    method FreeSector(part: nat, track: nat, sector: nat)
      requires Valid() && part < |parts| && ValidSector(parts[part].format, track, sector)
      modifies this
      ensures Valid() && Formats() == old(Formats())
      ensures ImageOk(parts[part].format, old(V())[part])
      ensures V() == old(V())[part := Freed(parts[part].format, old(V())[part], track, sector)]
    {
      hide Views, Lba, CacheOk, BamOf, BitOf;
      ghost var f, img := parts[part].format, V()[part];
      var free := IsFreeSector(part, track, sector);
      assert parts[part].format == old(Formats())[part] == f;
      if !free {
        SetMapBit(part, track, sector, true);
        assert parts[part].format == old(Formats())[part] == f;
        if !parts[part].format.Dnp? {
          var pos, _ := MoveBamWindow(part, track, FreeCount);
          assert parts[part].format == old(Formats())[part] == f;
          HeldView(parts, bam, bam2);
          BamInside(f, track, 0, FreeCount);
          if (bam.data[pos] as int) < SectorsPerTrack(parts[part].format, track) {
            StoreViews(parts, bam, bam2, BamOf(f, track, FreeCount), 0, bam.data[pos] + 1);
            bam := bam.(data := bam.data[pos := bam.data[pos] + 1], mustflush := true);
          }
        }
      }
    }

    /** Sets or clears the free bit of a sector in the buffered map. */
    method SetMapBit(part: nat, track: nat, sector: nat, on: bool)
      requires Valid() && part < |parts| && ValidSector(parts[part].format, track, sector)
      modifies this
      ensures Valid() && Formats() == old(Formats())
      ensures ImageOk(parts[part].format, old(V())[part])
      ensures V() == old(V())[part := WithBit(parts[part].format, old(V())[part], track, sector, on)]
      ensures Holds(part, BamOf(parts[part].format, track, Bitfield)) && bam.mustflush
    {
      hide Views, Lba, CacheOk, BamOf, BitOf;
      ghost var f := parts[part].format;
      var pos, _ := MoveBamWindow(part, track, Bitfield);
      assert parts[part].format == old(Formats())[part] == f;
      HeldView(parts, bam, bam2);
      BamInside(f, track, sector, Bitfield);
      var k := BitOf(parts[part].format, sector);
      assert Pow2(8) == 256;
      PutBitBound(bam.data[pos + sector / 8], k, on, 8);
      StoreViews(parts, bam, bam2, BamOf(f, track, Bitfield), sector / 8, PutBit(bam.data[pos + sector / 8], k, on));
      bam := bam.(data := bam.data[pos + sector / 8 := PutBit(bam.data[pos + sector / 8], k, on)], mustflush := true);
    }
  }

  lemma DnpPlaces(f: Disk, t: nat)
    requires f.Dnp?
    ensures BamOf(f, t, FreeCount) == BamOf(f, t, Bitfield)
  {
  }

  lemma NoneFree(f: Disk, img: Image, t: nat)
    requires ImageOk(f, img) && 1 <= t <= LastTrack(f)
    ensures NumFree(f, img, t, 0) == 0
  {
  }
}
