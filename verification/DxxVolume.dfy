/** One mounted image as the file layer uses it: checked reads, writes, and marking, all seen as changes of its state. */
module DxxVolume {
  import opened Bits
  import opened Common
  import opened DxxGeometry
  import opened DxxBam
  import opened DxxCache
  import opened DxxDrive
  import opened DxxAlloc
  import opened DxxState
  import opened DxxLayout

  function Patch(sec: Sector, ofs: nat, bytes: seq<byte>): Sector
    requires ofs + |bytes| <= 256
  {
    sec[..ofs] + bytes + sec[ofs + |bytes|..]
  }

  ghost function Stored(st: State, ts: TS, data: Sector): State {
    State(st.sec[ts := data], st.free)
  }

  class Volume {
    const drive: Drive
    const part: nat
    ghost const f: Disk
    /** Who owns which sector. */
    ghost var L: Layout

    constructor (drive: Drive, part: nat, ghost L: Layout)
      requires drive.Valid() && part < |drive.parts| && !drive.parts[part].format.Dnp?
      requires ImageOk(drive.parts[part].format, drive.V()[part])
        && CountersOk(drive.parts[part].format, drive.V()[part])
      requires TreeOk(drive.parts[part].format, StateOf(drive.parts[part].format, drive.V()[part]), L)
      ensures Valid() && this.drive == drive && this.part == part && this.L == L && f == drive.parts[part].format
    {
      this.drive := drive;
      this.part := part;
      f := drive.parts[part].format;
      this.L := L;
    }

    /** The image is there, and the counters of its map are true. */
    ghost predicate Mounted()
      reads drive
    {
      && drive.Valid() && part < |drive.parts| && drive.parts[part].format == f && !f.Dnp?
      && CountersOk(f, drive.V()[part])
    }

    ghost function St(): State
      requires Mounted()
      reads drive
    {
      StateOf(f, drive.V()[part])
    }

    ghost predicate Valid()
      reads this, drive
    {
      Mounted() && TreeOk(f, St(), L)
    }

    /** All that is not this image: the formats and the other images. */
    ghost function Rest(): (seq<Disk>, seq<Image>)
      requires part < |drive.parts|
      reads drive
    {
      (drive.Formats(), drive.V()[part := []])
    }

    /** The state speaks of exactly the ordinary sectors. */
    lemma Listed(ts: TS)
      requires Mounted()
      ensures ts in St().sec <==> Plain(f, ts)
      ensures ts in St().free ==> OnDisk(f, ts)
    {
      StateFacts(f, drive.V()[part], ts);
    }

    // ----- sectors -----

    /** Reads a sector after checking that it exists. */
    method CheckedRead(t: nat, s: nat) returns (ok: bool, data: Sector)
      requires Mounted()
      ensures ok == ValidSector(f, t, s)
      ensures TS(t, s) in St().sec ==> ok && data == St().sec[TS(t, s)]
    {
      hide Views, CacheOk, Lba, CountersOk, IsBam;
      var format := drive.parts[part].format;
      ok, data := false, seq(256, _ => 0);
      ViewsOk(drive.parts, drive.bam, drive.bam2, part);
      StateFacts(f, drive.V()[part], TS(t, s));
      if 1 <= t <= LastTrack(format) && s < SectorsPerTrack(format, t) {
        ok := true;
        InImage(t, s);
        data := drive.parts[part].image[At(format, t, s)];
        if !IsBam(f, t, s) {
          PlainView(drive.parts, drive.bam, drive.bam2, part, t, s);
        }
      }
    }

    lemma InImage(t: nat, s: nat)
      requires Mounted() && ValidSector(f, t, s)
      ensures |drive.parts[part].image| == TotalSectors(f)
    {
    }

    /** Writes a stretch of an ordinary sector. */
    method ImageWrite(t: nat, s: nat, ofs: nat, bytes: seq<byte>)
      requires Mounted() && TS(t, s) in St().sec && ofs + |bytes| <= 256
      modifies drive`parts
      ensures Mounted() && Rest() == old(Rest())
      ensures St() == Stored(old(St()), TS(t, s), Patch(old(St()).sec[TS(t, s)], ofs, bytes))
    {
      hide Views, CacheOk, Lba, CountersOk, IsBam, FormatsOf;
      ghost var img := drive.V()[part];
      var format := drive.parts[part].format;
      ViewsOk(drive.parts, drive.bam, drive.bam2, part);
      StateFacts(f, img, TS(t, s));
      PlainView(drive.parts, drive.bam, drive.bam2, part, t, s);
      InImage(t, s);
      var a := At(format, t, s);
      var data := Patch(drive.parts[part].image[a], ofs, bytes);
      PlainWrite(drive.parts, drive.bam, drive.bam2, part, t, s, data);
      StoreState(f, img, TS(t, s), data);
      WriteFormats(drive.parts, part, a, data);
      drive.parts := drive.parts[part := drive.parts[part].(image := drive.parts[part].image[a := data])];
      assert drive.V() == old(drive.V())[part := WithSector(img, a, data)];
      assert drive.V()[part := []] == old(drive.V())[part := []];
    }

    // ----- the map -----

    /** Marks a sector as used. */
    method Take(t: nat, s: nat)
      requires Mounted() && OnDisk(f, TS(t, s))
      modifies drive
      ensures Mounted() && Rest() == old(Rest())
      ensures St() == State(old(St()).sec, old(St()).free - {TS(t, s)})
    {
      hide Views, CacheOk, Lba, CountersOk, FormatsOf, Allocated, IsFree;
      ghost var img := drive.V()[part];
      ViewsOk(drive.parts, drive.bam, drive.bam2, part);
      AllocateState(f, img, TS(t, s));
      AllocateKeepsCounters(f, img, t, s);
      drive.AllocateSector(part, t, s);
      SameFormat(old(drive.Formats()), old(drive.parts), drive.parts, part);
      assert drive.V()[part := []] == old(drive.V())[part := []];
    }

    /** Marks a sector as free. */
    method Release(t: nat, s: nat)
      requires Mounted() && OnDisk(f, TS(t, s))
      modifies drive
      ensures Mounted() && Rest() == old(Rest())
      ensures St() == State(old(St()).sec, old(St()).free + {TS(t, s)})
    {
      hide Views, CacheOk, Lba, CountersOk, FormatsOf, Freed, IsFree;
      ghost var img := drive.V()[part];
      ViewsOk(drive.parts, drive.bam, drive.bam2, part);
      FreeState(f, img, TS(t, s));
      FreeKeepsCounters(f, img, t, s);
      drive.FreeSector(part, t, s);
      SameFormat(old(drive.Formats()), old(drive.parts), drive.parts, part);
      assert drive.V()[part := []] == old(drive.V())[part := []];
    }

    /** A first sector for a new file, off the directory track, unless nothing is free there. */
    method FirstSector() returns (found: bool, t: nat, s: nat)
      requires Mounted()
      modifies drive
      ensures Mounted() && Rest() == old(Rest()) && St() == old(St())
      ensures found <==> FreeOffDir(f, St())
      ensures found ==> TS(t, s) in St().free && t != DirTrack(f) && OnDisk(f, TS(t, s)) && FirstPlace(f, St().free, TS(t, s))
    {
      hide Views, CacheOk, CountersOk, FormatsOf, IsFree, HasFree, FirstPlace;
      ghost var img := drive.V()[part];
      found, t, s := GetFirstSector(drive, part);
      SameFormat(old(drive.Formats()), old(drive.parts), drive.parts, part);
      FreeTracks(f, img);
      if found {
        FirstIs(f, img, t, s);
        StateFacts(f, img, TS(t, s));
      }
    }

    /** The sector after `(t0, s0)`: from the directory track on it, from other tracks not on it. */
    method NextSector(t0: nat, s0: nat) returns (found: bool, t: nat, s: nat)
      requires Mounted() && OnDisk(f, TS(t0, s0))
      modifies drive
      ensures Mounted() && Rest() == old(Rest()) && St() == old(St())
      ensures found ==> TS(t, s) in St().free && (t == DirTrack(f) <==> t0 == DirTrack(f)) && OnDisk(f, TS(t, s))
      ensures found ==> NextPlace(f, St().free, TS(t0, s0), TS(t, s))
      ensures !found ==> NoneLeft(f, St(), t0)
    {
      hide Views, CacheOk, CountersOk, FormatsOf, IsFree, HasFree, SectorsFree, NextPlace, ChosenTrack, ComesFirst, SearchFrom, SearchPlace;
      ghost var img := drive.V()[part];
      found, t, s := GetNextSector(drive, part, t0, s0);
      SameFormat(old(drive.Formats()), old(drive.parts), drive.parts, part);
      if found {
        NextSectorFree(f, img, t0, t, s);
        NextIs(f, img, TS(t0, s0), t, s);
        StateFacts(f, img, TS(t, s));
      } else {
        NothingLeftMeansFull(f, img, t0);
        FullState(f, img, t0);
      }
    }

    /** The number of free blocks the image reports. */
    method FreeBlocks() returns (blocks: nat)
      requires Mounted()
      modifies drive
      ensures Mounted() && Rest() == old(Rest()) && St() == old(St()) && drive.V() == old(drive.V())
      ensures blocks == FreeBlocksUpTo(f, drive.V()[part], LastTrack(f))
    {
      hide Views, CacheOk, CountersOk, FormatsOf, FreeBlocksUpTo;
      blocks := DxxAlloc.FreeBlocks(drive, part);
      SameFormat(old(drive.Formats()), old(drive.parts), drive.parts, part);
    }
  }

  lemma WriteFormats(parts: seq<Partition>, p: nat, a: nat, data: Sector)
    requires p < |parts| && a < |parts[p].image|
    ensures FormatsOf(parts[p := parts[p].(image := parts[p].image[a := data])]) == FormatsOf(parts)
  {
  }

  lemma SameFormat(formats: seq<Disk>, parts: seq<Partition>, parts': seq<Partition>, p: nat)
    requires formats == FormatsOf(parts) && FormatsOf(parts') == formats && p < |parts|
    ensures |parts'| == |parts| && parts'[p].format == parts[p].format
  {
    assert FormatsOf(parts')[p] == FormatsOf(parts)[p];
  }

  /** Some sector off the directory track is free. */
  ghost predicate FreeOffDir(f: Disk, st: State) {
    exists ts :: ts in st.free && ts.track != DirTrack(f)
  }

  /** Nothing is free where a file on track `t0` could grow to. */
  ghost predicate NoneLeft(f: Disk, st: State, t0: nat) {
    if t0 == DirTrack(f) then forall ts :: ts in st.free ==> ts.track != t0
    else forall ts :: ts in st.free ==> Skipped(f, ts.track)
  }

  lemma FreeTracks(f: Disk, img: Image)
    requires !f.Dnp? && ImageOk(f, img)
    ensures FreeOffDir(f, StateOf(f, img)) <==> exists t: nat :: 1 <= t <= LastTrack(f) && t != DirTrack(f) && HasFree(f, img, t)
  {
    hide IsFree;
    if t: nat :| 1 <= t <= LastTrack(f) && t != DirTrack(f) && HasFree(f, img, t) {
      var s: nat :| ValidSector(f, t, s) && IsFree(f, img, t, s);
      StateFacts(f, img, TS(t, s));
    }
    if ts :| ts in StateOf(f, img).free && ts.track != DirTrack(f) {
      StateFacts(f, img, ts);
      HasFreeAt(f, img, ts.track, ts.sector);
    }
  }

  lemma FullState(f: Disk, img: Image, t0: nat)
    requires !f.Dnp? && ImageOk(f, img)
    requires if t0 == DirTrack(f) then !HasFree(f, img, t0)
             else forall t: nat :: 1 <= t <= LastTrack(f) && !Skipped(f, t) ==> !HasFree(f, img, t)
    ensures NoneLeft(f, StateOf(f, img), t0)
  {
    hide IsFree, HasFree;
    forall ts | ts in StateOf(f, img).free
      ensures HasFree(f, img, ts.track) && 1 <= ts.track <= LastTrack(f)
    {
      StateFacts(f, img, ts);
      HasFreeAt(f, img, ts.track, ts.sector);
    }
  }
}
