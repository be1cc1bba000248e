/** An image seen as what files are made of: the contents of its ordinary sectors and the set of free ones. */
module DxxState {
  import opened Bits
  import opened Common
  import opened DxxGeometry
  import opened DxxBam
  import opened DxxAlloc

  /** A track and a sector number. */
  datatype TS = TS(track: nat, sector: nat)

  datatype State = State(sec: map<TS, Sector>, free: set<TS>)

  predicate OnDisk(f: Disk, ts: TS) { ValidSector(f, ts.track, ts.sector) }

  /** An ordinary sector: in range and not part of the block map. */
  predicate Plain(f: Disk, ts: TS) { OnDisk(f, ts) && !IsBam(f, ts.track, ts.sector) }

  ghost function PlainSectors(f: Disk): (r: set<TS>)
    requires !f.Dnp?
    ensures forall ts :: ts in r <==> Plain(f, ts)
  {
    var r := set t: nat, s: nat | 0 <= t < 256 && 0 <= s < 256 && Plain(f, TS(t, s)) :: TS(t, s);
    assert forall ts: TS :: Plain(f, ts) ==> ts == TS(ts.track, ts.sector) && ts.track < 256 && ts.sector < 256;
    r
  }

  ghost function FreeSectors(f: Disk, img: Image): (r: set<TS>)
    requires !f.Dnp? && ImageOk(f, img)
    ensures forall ts :: ts in r <==> OnDisk(f, ts) && IsFree(f, img, ts.track, ts.sector)
  {
    var r := set t: nat, s: nat | 0 <= t < 256 && 0 <= s < 256 && ValidSector(f, t, s) && IsFree(f, img, t, s) :: TS(t, s);
    assert forall ts: TS :: OnDisk(f, ts) ==> ts == TS(ts.track, ts.sector) && ts.track < 256 && ts.sector < 256;
    r
  }

  ghost function SectorOf(f: Disk, img: Image, ts: TS): Sector
    requires ImageOk(f, img) && OnDisk(f, ts)
  {
    img[At(f, ts.track, ts.sector)]
  }

  ghost function StateOf(f: Disk, img: Image): State
    requires !f.Dnp? && ImageOk(f, img)
  {
    State(map ts | ts in PlainSectors(f) :: SectorOf(f, img, ts), FreeSectors(f, img))
  }

  lemma StateFacts(f: Disk, img: Image, ts: TS)
    requires !f.Dnp? && ImageOk(f, img)
    ensures ts in StateOf(f, img).sec <==> Plain(f, ts)
    ensures Plain(f, ts) ==> StateOf(f, img).sec[ts] == SectorOf(f, img, ts)
    ensures ts in StateOf(f, img).free <==> OnDisk(f, ts) && IsFree(f, img, ts.track, ts.sector)
  {
  }

  lemma AllocateState(f: Disk, img: Image, ts: TS)
    requires !f.Dnp? && ImageOk(f, img) && OnDisk(f, ts)
    ensures var img' := Allocated(f, img, ts.track, ts.sector);
      StateOf(f, img') == State(StateOf(f, img).sec, StateOf(f, img).free - {ts})
  {
    hide IsFree, Allocated, At, ValidSector;
    var img' := Allocated(f, img, ts.track, ts.sector);
    AllocatedMarks(f, img, ts.track, ts.sector);
    forall u: TS
      ensures Plain(f, u) ==> SectorOf(f, img', u) == SectorOf(f, img, u)
      ensures u in FreeSectors(f, img') <==> u in FreeSectors(f, img) && u != ts
    {
      if Plain(f, u) {
        MarkingFrame(f, img, ts.track, ts.sector, u.track, u.sector);
      }
    }
    assert FreeSectors(f, img') == FreeSectors(f, img) - {ts};
  }

  lemma FreeState(f: Disk, img: Image, ts: TS)
    requires !f.Dnp? && ImageOk(f, img) && OnDisk(f, ts)
    ensures var img' := Freed(f, img, ts.track, ts.sector);
      StateOf(f, img') == State(StateOf(f, img).sec, StateOf(f, img).free + {ts})
  {
    hide IsFree, Freed, At, ValidSector;
    var img' := Freed(f, img, ts.track, ts.sector);
    FreedMarks(f, img, ts.track, ts.sector);
    forall u: TS
      ensures Plain(f, u) ==> SectorOf(f, img', u) == SectorOf(f, img, u)
      ensures u in FreeSectors(f, img') <==> u in FreeSectors(f, img) || u == ts
    {
      if Plain(f, u) {
        MarkingFrame(f, img, ts.track, ts.sector, u.track, u.sector);
      }
    }
    assert FreeSectors(f, img') == FreeSectors(f, img) + {ts};
  }

  /** Writing an ordinary sector changes its contents, and leaves map and counters alone. */
  lemma StoreState(f: Disk, img: Image, ts: TS, data: Sector)
    requires !f.Dnp? && ImageOk(f, img) && Plain(f, ts)
    ensures var img' := WithSector(img, At(f, ts.track, ts.sector), data);
      && ImageOk(f, img')
      && StateOf(f, img') == State(StateOf(f, img).sec[ts := data], StateOf(f, img).free)
      && (CountersOk(f, img) ==> CountersOk(f, img'))
  {
    hide IsFree, Counter, IsBam, NumFree;
    var img' := WithSector(img, At(f, ts.track, ts.sector), data);
    forall u: TS | OnDisk(f, u)
      ensures IsFree(f, img', u.track, u.sector) == IsFree(f, img, u.track, u.sector)
      ensures Counter(f, img', u.track) == Counter(f, img, u.track)
    {
      StoreMap(f, img, ts, data, u);
    }
    forall u: TS | Plain(f, u)
      ensures SectorOf(f, img', u) == if u == ts then data else SectorOf(f, img, u)
    {
      LbaInjective(f, ts.track, ts.sector, u.track, u.sector);
    }
    assert FreeSectors(f, img') == FreeSectors(f, img);
    StoreCounters(f, img, img');
  }

  lemma StoreCounters(f: Disk, img: Image, img': Image)
    requires !f.Dnp? && ImageOk(f, img) && ImageOk(f, img')
    requires forall u: TS :: OnDisk(f, u) ==>
      (&& IsFree(f, img', u.track, u.sector) == IsFree(f, img, u.track, u.sector)
       && Counter(f, img', u.track) == Counter(f, img, u.track))
    ensures CountersOk(f, img) ==> CountersOk(f, img')
  {
    hide IsFree, Counter, NumFree;
    forall t: nat, s: nat | ValidSector(f, t, s)
      ensures IsFree(f, img', t, s) == IsFree(f, img, t, s) && Counter(f, img', t) == Counter(f, img, t)
    {
      assert OnDisk(f, TS(t, s));
    }
    forall t | 1 <= t <= LastTrack(f)
      ensures Counter(f, img', t) == Counter(f, img, t) && FreeOn(f, img', t) == FreeOn(f, img, t)
    {
      assert ValidSector(f, t, 0);
      SameCount(f, img, img', t, SectorsPerTrack(f, t));
    }
  }

  lemma StoreMap(f: Disk, img: Image, ts: TS, data: Sector, u: TS)
    requires !f.Dnp? && ImageOk(f, img) && Plain(f, ts) && OnDisk(f, u)
    ensures var img' := WithSector(img, At(f, ts.track, ts.sector), data);
      && ImageOk(f, img')
      && IsFree(f, img', u.track, u.sector) == IsFree(f, img, u.track, u.sector)
      && Counter(f, img', u.track) == Counter(f, img, u.track)
  {
    BamInside(f, u.track, u.sector, Bitfield);
    BamInside(f, u.track, 0, FreeCount);
    var b, c := BamOf(f, u.track, Bitfield), BamOf(f, u.track, FreeCount);
    LbaInjective(f, b.track, b.sector, ts.track, ts.sector);
    LbaInjective(f, c.track, c.sector, ts.track, ts.sector);
  }

  // ----- which free sector is taken -----

  /** The place of a new file: on the track nearest to the directory track but not on that, and there the lowest sector. */
  ghost predicate FirstPlace(f: Disk, free: set<TS>, ts: TS) {
    && ts in free && ts.track != DirTrack(f)
    && forall u :: u in free && u.track != DirTrack(f) && u != ts ==>
      Sooner(f, ts.track, u.track) || (ts.track == u.track && ts.sector < u.sector)
  }

  /** How many steps sector `s` is from `start`, going round track `t`. */
  ghost function Steps(f: Disk, t: nat, start: int, s: nat): int {
    if s < start then s + SectorsPerTrack(f, t) - start else s - start
  }

  /**
   The place for a file to go on behind the sector `from`: on the directory track if that one is there, else on the track
   whose turn comes first, and there the first sector going round from the interleave.
   */
  ghost predicate NextPlace(f: Disk, free: set<TS>, from: TS, ts: TS) {
    var start := SearchPlace(f, from.track, from.sector, ts.track);
    && ts in free && (ts.track == DirTrack(f) <==> from.track == DirTrack(f))
    && (ts.track == from.track || !Skipped(f, ts.track))
    && (forall u :: u in free && !Skipped(f, u.track) && from.track != DirTrack(f) ==>
          Turn(f, from.track, ts.track) <= Turn(f, from.track, u.track))
    && (forall u :: u in free && u.track == from.track ==> ts.track == u.track)
    && (forall u :: u in free && u.track == ts.track ==> Steps(f, ts.track, start, ts.sector) <= Steps(f, ts.track, start, u.sector))
  }

  lemma FirstIs(f: Disk, img: Image, t: nat, s: nat)
    requires !f.Dnp? && ImageOk(f, img) && CountersOk(f, img) && LowestFree(f, img, t, s) && t != DirTrack(f)
    requires forall u: nat :: 1 <= u <= LastTrack(f) && u != DirTrack(f) && HasFree(f, img, u) ==> !Sooner(f, u, t)
    ensures FirstPlace(f, StateOf(f, img).free, TS(t, s))
  {
    hide IsFree, CountersOk, HasFree;
    StateFacts(f, img, TS(t, s));
    forall u | u in StateOf(f, img).free && u.track != DirTrack(f) && u != TS(t, s)
      ensures Sooner(f, t, u.track) || (t == u.track && s < u.sector)
    {
      StateFacts(f, img, u);
      HasFreeAt(f, img, u.track, u.sector);
    }
  }

  lemma NextIs(f: Disk, img: Image, from: TS, t: nat, s: nat)
    requires !f.Dnp? && ImageOk(f, img) && CountersOk(f, img) && OnDisk(f, from) && NextSectorOk(f, img, from.track, t, s)
    requires ComesFirst(f, img, from.track, t) && ChosenTrack(f, img, from.track) == Some(t)
    requires ValidSector(f, t, SearchPlace(f, from.track, from.sector, t))
    requires SearchFrom(f, img, t, SearchPlace(f, from.track, from.sector, t), s)
    ensures NextPlace(f, StateOf(f, img).free, from, TS(t, s))
  {
    hide IsFree, CountersOk, HasFree, SectorsFree, SearchPlace, Turn;
    StateFacts(f, img, TS(t, s));
    CounterMeansFree(f, img, t);
    forall u | u in StateOf(f, img).free
      ensures OnDisk(f, u) && IsFree(f, img, u.track, u.sector) && SectorsFree(f, img, u.track) > 0
    {
      StateFacts(f, img, u);
      HasFreeAt(f, img, u.track, u.sector);
      CounterMeansFree(f, img, u.track);
    }
  }

  /** Where a file begins and where it goes on is determined by which sectors are free. */
  lemma OnePlace(f: Disk, free: set<TS>, from: TS, a: TS, b: TS)
    requires !f.Dnp? && OnDisk(f, from) && forall u :: u in free ==> OnDisk(f, u)
    ensures FirstPlace(f, free, a) && FirstPlace(f, free, b) ==> a == b
    ensures NextPlace(f, free, from, a) && NextPlace(f, free, from, b) ==> a == b
  {
  }
}
