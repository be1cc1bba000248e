/** Choosing sectors for new and growing files, and counting the free ones. */
module DxxAlloc {
  import opened Bits
  import opened Common
  import opened DxxGeometry
  import opened DxxBam
  import opened DxxCache
  import opened DxxDrive

  function Abs(x: int): nat { if x < 0 then -x else x }

  /** Track `t` is tried before track `u`: it is nearer to the directory, or as near and lower. */
  ghost predicate Sooner(f: Disk, t: nat, u: nat) {
    var d, e := Abs(DirTrack(f) - t), Abs(DirTrack(f) - u);
    d < e || (d == e && t < u)
  }

  /** Some sector of the track is free. */
  ghost predicate HasFree(f: Disk, img: Image, t: nat)
    requires ImageOk(f, img)
  {
    exists s: nat :: ValidSector(f, t, s) && IsFree(f, img, t, s)
  }

  /** A sector `s` with a free bit, and none below it. */
  ghost predicate LowestFree(f: Disk, img: Image, t: nat, s: nat)
    requires ImageOk(f, img)
  {
    && ValidSector(f, t, s) && IsFree(f, img, t, s)
    && forall q: nat :: q < s && ValidSector(f, t, q) ==> !IsFree(f, img, t, q)
  }

  lemma {:induction false} CountMeansFree(f: Disk, img: Image, t: nat, n: nat)
    requires ImageOk(f, img) && 1 <= t <= LastTrack(f) && n <= SectorsPerTrack(f, t)
    ensures NumFree(f, img, t, n) > 0 <==> exists s: nat :: s < n && ValidSector(f, t, s) && IsFree(f, img, t, s)
  {
    hide IsFree;
    if n > 0 {
      CountMeansFree(f, img, t, n - 1);
      assert ValidSector(f, t, n - 1);
    }
  }

  /** With true counters a track's count is positive exactly when some sector of it is free. */
  lemma CounterMeansFree(f: Disk, img: Image, t: nat)
    requires CountersOk(f, img) && 1 <= t <= LastTrack(f)
    ensures SectorsFree(f, img, t) > 0 <==> HasFree(f, img, t)
  {
    hide IsFree, Counter, NumFree;
    SectorsFreeIsCount(f, img, t);
    CountMeansFree(f, img, t, SectorsPerTrack(f, t));
  }

  /** The track the search looks at for a signed distance, as the byte it is computed in. */
  function TrackAt(f: Disk, distance: int): nat {
    (DirTrack(f) - distance) % 256
  }

  /** Every track before the one at `distance`, in search order, counts no free sector. */
  ghost predicate SearchedBefore(f: Disk, img: Image, distance: int)
    requires ImageOk(f, img)
  {
    forall t: nat :: 1 <= t <= LastTrack(f) && t != DirTrack(f) && Before(DirTrack(f) - t, distance) ==> SectorsFree(f, img, t) == 0
  }

  /** Distances are tried in the order 1, -1, 2, -2, and so on. */
  ghost predicate Before(d: int, e: int) {
    Abs(d) < Abs(e) || (Abs(d) == Abs(e) && d > e)
  }

  /**
   The first sector of a new file: the lowest free sector on the nearest track that counts free ones,
   leaving out the directory track.
   */
  method GetFirstSector(d: Drive, part: nat) returns (found: bool, track: nat, sector: nat)
    requires d.Valid() && part < |d.parts| && !d.parts[part].format.Dnp?
    modifies d
    ensures d.Valid() && d.V() == old(d.V()) && d.Formats() == old(d.Formats())
    ensures ImageOk(d.parts[part].format, d.V()[part])
    ensures found ==> LowestFree(d.parts[part].format, d.V()[part], track, sector) && track != DirTrack(d.parts[part].format)
    ensures CountersOk(d.parts[part].format, d.V()[part]) ==>
      var f, img := d.parts[part].format, d.V()[part];
      && (found <==> exists t: nat :: 1 <= t <= LastTrack(f) && t != DirTrack(f) && HasFree(f, img, t))
      && (found ==> forall t: nat :: 1 <= t <= LastTrack(f) && t != DirTrack(f) && HasFree(f, img, t) ==> !Sooner(f, t, track))
  {
    hide Views, CacheOk, IsFree, SectorsFree, CountersOk, HasFree;
    ViewsOk(d.parts, d.bam, d.bam2, part);
    ghost var img := d.V()[part];
    var f := d.parts[part].format;
    var distance := 1;
    found, track, sector := false, 0, 0;
    while distance < LastTrack(f)
      invariant d.Valid() && d.V() == old(d.V()) && d.Formats() == old(d.Formats())
      invariant distance != 0 && 0 < distance + LastTrack(f) && distance <= LastTrack(f)
      invariant SearchedBefore(f, img, distance)
      decreases LastTrack(f) - Abs(distance), distance > 0
    {
      var n := d.SectorsFreeOn(part, TrackAt(f, distance));
      assert d.parts[part].format == old(d.Formats())[part];
      if n > 0 {
        break;
      }
      FarTracks(f, img, distance);
      distance := -distance;
      if distance > 0 {
        distance := distance + 1;
      }
    }
    assert d.parts[part].format == old(d.Formats())[part];
    SearchResult(f, img, distance);
    if distance == LastTrack(f) {
      return;
    }
    track := TrackAt(f, distance);
    while sector < SectorsPerTrack(f, track)
      invariant d.Valid() && d.V() == old(d.V()) && d.Formats() == old(d.Formats())
      invariant forall q: nat :: q < sector && ValidSector(f, track, q) ==> !IsFree(f, img, track, q)
    {
      assert d.parts[part].format == old(d.Formats())[part];
      found := d.IsFreeSector(part, track, sector);
      assert d.parts[part].format == old(d.Formats())[part];
      if found {
        HasFreeAt(f, img, track, sector);
        return;
      }
      sector := sector + 1;
    }
    found := false;
    assert d.parts[part].format == old(d.Formats())[part];
    NotFree(f, img, track);
  }

  lemma HasFreeAt(f: Disk, img: Image, t: nat, s: nat)
    requires ImageOk(f, img) && ValidSector(f, t, s) && IsFree(f, img, t, s)
    ensures HasFree(f, img, t)
  {
  }

  lemma NotFree(f: Disk, img: Image, t: nat)
    requires ImageOk(f, img) && forall s: nat :: ValidSector(f, t, s) ==> !IsFree(f, img, t, s)
    ensures !HasFree(f, img, t)
  {
  }

  /** A track that counts no free sector moves the search past its distance. */
  lemma FarTracks(f: Disk, img: Image, distance: int)
    requires ImageOk(f, img) && !f.Dnp? && distance != 0 && 0 < distance + LastTrack(f) && distance < LastTrack(f)
    requires SearchedBefore(f, img, distance) && SectorsFree(f, img, TrackAt(f, distance)) == 0
    ensures SearchedBefore(f, img, if distance > 0 then -distance else -distance + 1)
  {
    hide SectorsFree;
    assert 1 <= DirTrack(f) - distance <= LastTrack(f) ==> TrackAt(f, distance) == DirTrack(f) - distance;
  }

  /** What the search over the tracks has established when it stops. */
  lemma SearchResult(f: Disk, img: Image, distance: int)
    requires ImageOk(f, img) && !f.Dnp? && distance != 0 && 0 < distance + LastTrack(f) && distance <= LastTrack(f)
    requires SearchedBefore(f, img, distance)
    requires distance == LastTrack(f) || SectorsFree(f, img, TrackAt(f, distance)) > 0
    ensures var track := TrackAt(f, distance);
      && (distance < LastTrack(f) ==> 1 <= track <= LastTrack(f) && track != DirTrack(f))
      && (CountersOk(f, img) ==>
           (&& (distance < LastTrack(f) ==> HasFree(f, img, track))
            && (distance == LastTrack(f) ==>
                 forall t: nat :: 1 <= t <= LastTrack(f) && t != DirTrack(f) ==> !HasFree(f, img, t))
            && (distance < LastTrack(f) ==>
                 forall t: nat :: 1 <= t <= LastTrack(f) && t != DirTrack(f) && HasFree(f, img, t) ==> !Sooner(f, t, track))))
  {
    hide HasFree, CountersOk;
    if CountersOk(f, img) {
      forall t: nat | 1 <= t <= LastTrack(f)
        ensures SectorsFree(f, img, t) > 0 <==> HasFree(f, img, t)
      {
        CounterMeansFree(f, img, t);
      }
    }
    if distance < LastTrack(f) {
      InRange(f, img, distance);
    }
  }

  lemma InRange(f: Disk, img: Image, distance: int)
    requires ImageOk(f, img) && !f.Dnp? && distance != 0 && 0 < distance + LastTrack(f) && distance < LastTrack(f)
    requires SectorsFree(f, img, TrackAt(f, distance)) > 0
    ensures 1 <= TrackAt(f, distance) <= LastTrack(f) && DirTrack(f) - TrackAt(f, distance) == distance
  {
  }

  // ----- the next sector of a file -----

  /** Tracks a growing file never moves to: the directory track, and the second map track of a D71. */
  predicate Skipped(f: Disk, t: nat) {
    t == DirTrack(f) || (f == D71 && t == 53)
  }

  /** All tracks from `a` up to but not including `b` that files move to count no free sector. */
  ghost predicate Full(f: Disk, img: Image, a: int, b: int)
    requires ImageOk(f, img)
  {
    forall t: nat :: a <= t < b && !Skipped(f, t) ==> SectorsFree(f, img, t) == 0
  }

  /** The position a search for track and sector has reached. */
  ghost predicate SearchState(f: Disk, img: Image, t0: nat, t: nat, tries: nat)
    requires ImageOk(f, img)
  {
    var D, last := DirTrack(f), LastTrack(f);
    && 1 <= t <= last && tries <= 3
    && (tries == 0 ==> (t0 < D <==> t < D) && (t0 == D <==> t == D))
    && (t0 == D ==> tries == 0)
    && (tries > 0 && t0 < D ==> (t < D <==> tries == 2))
    && (tries > 0 && t0 > D ==> (t < D <==> tries != 2))
    && (tries > 0 ==> t != D)
    && (0 < tries < 3 && t < D ==> Full(f, img, t + 1, D))
    && (0 < tries < 3 && t > D ==> Full(f, img, D + 1, t))
    && (tries == 0 && t < D ==> t <= t0 && Full(f, img, t + 1, t0 + 1))
    && (tries == 0 && t > D ==> t >= t0 && Full(f, img, t0, t))
    && (t0 < D && tries >= 2 ==> Full(f, img, D + 1, last + 1))
    && (t0 > D && tries >= 2 ==> Full(f, img, 1, D))
    && (tries == 3 ==> Full(f, img, 1, D) && Full(f, img, D + 1, last + 1))
    && (tries > 0 ==> if t0 < D then Full(f, img, 1, t0 + 1) else Full(f, img, t0, last + 1))
    && (f == D71 && t == 53 ==> tries == 0 && t0 == 53)
  }

  /**
   How late track `t` comes for a file on track `t0`: from there away from the directory track, then from the
   directory track to the other side, and last the tracks between.
   */
  ghost function Turn(f: Disk, t0: nat, t: nat): nat {
    var D := if f == D81 then 40 else 18;
    if D < t0 <= t || t <= t0 < D || t == t0 then Abs(t - t0)
    else if t < D <==> t0 < D then 512 + Abs(t - D)
    else 256 + Abs(t - D)
  }

  /** No track that files move to and that counts a free sector comes before `t`. */
  ghost predicate ComesFirst(f: Disk, img: Image, t0: nat, t: nat)
    requires ImageOk(f, img)
  {
    forall u: nat :: 1 <= u <= LastTrack(f) && !Skipped(f, u) && SectorsFree(f, img, u) > 0 ==> Turn(f, t0, t) <= Turn(f, t0, u)
  }

  lemma SearchedComesFirst(f: Disk, img: Image, t0: nat, t: nat, tries: nat)
    requires ImageOk(f, img) && !f.Dnp? && 1 <= t0 <= LastTrack(f) && SearchState(f, img, t0, t, tries) && tries < 3
    ensures ComesFirst(f, img, t0, t)
  {
    hide SectorsFree;
  }

  /** One step of the search away from a track without free sectors. */
  function NextTrack(f: Disk, t: nat): (int, bool)
    requires !f.Dnp? && 1 <= t <= LastTrack(f)
  {
    var D := DirTrack(f);
    var u := if t < D then t - 1 else if f == D71 && t + 1 == 53 then t + 2 else t + 1;
    if u < 1 then (D + 1, true) else if u > LastTrack(f) then (D - 1, true) else (u, false)
  }

  lemma SearchStep(f: Disk, img: Image, t0: nat, t: nat, tries: nat)
    requires ImageOk(f, img) && !f.Dnp? && 1 <= t0 <= LastTrack(f) && t0 != DirTrack(f)
    requires SearchState(f, img, t0, t, tries) && tries < 3 && SectorsFree(f, img, t) == 0
    ensures var (u, wrapped) := NextTrack(f, t);
      1 <= u <= LastTrack(f) && SearchState(f, img, t0, u, if wrapped then tries + 1 else tries)
  {
    hide SectorsFree;
  }

  /** The first track from `t` down to 1 that counts a free sector. */
  function Downward(f: Disk, img: Image, t: nat): Option<nat>
    requires ImageOk(f, img)
  {
    if t == 0 then None else if SectorsFree(f, img, t) > 0 then Some(t) else Downward(f, img, t - 1)
  }

  /** The first track from `t` up to the last one that counts a free sector, the second map track of a D71 left out. */
  function Upward(f: Disk, img: Image, t: nat): Option<nat>
    requires ImageOk(f, img)
    decreases LastTrack(f) + 1 - t
  {
    if t > LastTrack(f) then None
    else if SectorsFree(f, img, t) > 0 && !(f == D71 && t == 53) then Some(t)
    else Upward(f, img, t + 1)
  }

  /** Away from the directory track as far as there are tracks, and then from the other side of it, `sides` times in all. */
  function ChosenFrom(f: Disk, img: Image, t: nat, sides: nat): Option<nat>
    requires ImageOk(f, img)
    decreases sides
  {
    if sides == 0 then None
    else
      var here := if t < DirTrack(f) then Downward(f, img, t) else Upward(f, img, t);
      if here.Some? then here
      else ChosenFrom(f, img, if t < DirTrack(f) then DirTrack(f) + 1 else DirTrack(f) - 1, sides - 1)
  }

  /** The track on which a file that now ends on track `t0` goes on: its own if that counts a free sector. */
  function ChosenTrack(f: Disk, img: Image, t0: nat): Option<nat>
    requires ImageOk(f, img)
  {
    if SectorsFree(f, img, t0) > 0 then Some(t0)
    else if t0 == DirTrack(f) then None
    else ChosenFrom(f, img, t0, 3)
  }

  /** A step away from a track that counts nothing free does not change which track will be chosen. */
  lemma ChosenStep(f: Disk, img: Image, t: nat, sides: nat)
    requires ImageOk(f, img) && !f.Dnp? && 1 <= t <= LastTrack(f) && t != DirTrack(f)
      && SectorsFree(f, img, t) == 0 && sides > 0
    ensures var (u, wrapped) := NextTrack(f, t);
      0 <= u && ChosenFrom(f, img, t, sides) == ChosenFrom(f, img, u, if wrapped then sides - 1 else sides)
  {
    hide SectorsFree;
    if t < DirTrack(f) {
      assert Downward(f, img, t) == Downward(f, img, t - 1);
    } else {
      assert Upward(f, img, t) == Upward(f, img, t + 1);
      if f == D71 && t + 1 == 53 {
        assert Upward(f, img, 53) == Upward(f, img, 54);
      }
    }
  }

  lemma NoSides(f: Disk, img: Image, t: nat)
    requires ImageOk(f, img)
    ensures ChosenFrom(f, img, t, 0) == None
  {
  }

  lemma ChosenHere(f: Disk, img: Image, t: nat, sides: nat)
    requires ImageOk(f, img) && !f.Dnp? && 1 <= t <= LastTrack(f) && sides > 0 && SectorsFree(f, img, t) > 0
    requires !(f == D71 && t == 53)
    ensures ChosenFrom(f, img, t, sides) == Some(t)
  {
    hide SectorsFree;
  }

  /**
   The next sector of a file that now ends in `(track0, sector0)`, or the news that there is none. It is a used
   one if and only if the chosen track has no free sector, whatever it counts.
   */
  method GetNextSector(d: Drive, part: nat, track0: nat, sector0: nat) returns (found: bool, track: nat, sector: nat)
    requires d.Valid() && part < |d.parts| && !d.parts[part].format.Dnp?
    requires ValidSector(d.parts[part].format, track0, sector0)
    modifies d
    ensures d.Valid() && d.V() == old(d.V()) && d.Formats() == old(d.Formats())
    ensures ImageOk(d.parts[part].format, d.V()[part])
    ensures found ==> NextSectorOk(d.parts[part].format, d.V()[part], track0, track, sector)
    ensures !found ==> NothingLeft(d.parts[part].format, d.V()[part], track0)
    ensures var chosen := ChosenTrack(d.parts[part].format, d.V()[part], track0);
      && (found <==> chosen.Some?) && (found ==> track == chosen.value)
      && (found && !IsFree(d.parts[part].format, d.V()[part], track, sector)
          <==> chosen.Some? && !HasFree(d.parts[part].format, d.V()[part], chosen.value))
    ensures found ==> ComesFirst(d.parts[part].format, d.V()[part], track0, track)
    ensures found ==> ValidSector(d.parts[part].format, track, SearchPlace(d.parts[part].format, track0, sector0, track))
    ensures found ==>
      SearchFrom(d.parts[part].format, d.V()[part], track, SearchPlace(d.parts[part].format, track0, sector0, track), sector)
  {
    hide SearchFrom, Views, CacheOk, IsFree, SectorsFree, SearchState, ComesFirst, SearchPlace,
         MaxSector, DirInterleave, FileInterleave, HasFree, SectorsPerTrack, ChosenFrom;
    ViewsOk(d.parts, d.bam, d.bam2, part);
    ghost var img := d.V()[part];
    var f := d.parts[part].format;
    found, track, sector := false, track0, sector0;
    var interleave := if track == DirTrack(f) then DirInterleave(f) else FileInterleave(f);
    if track == DirTrack(f) {
      var n := d.SectorsFreeOn(part, track);
      assert d.parts[part].format == old(d.Formats())[part];
      if n == 0 {
        return;
      }
    }
    var tries := 0;
    ghost var moved := false;
    SearchBegins(f, img, track0);
    while tries < 3
      invariant d.Valid() && d.V() == old(d.V()) && d.Formats() == old(d.Formats())
      invariant 1 <= track <= LastTrack(f) && 0 <= tries <= 3 && SearchState(f, img, track0, track, tries)
      invariant track0 == DirTrack(f) ==> track == track0 && SectorsFree(f, img, track) > 0
      invariant sector <= MaxSector(f) && sector == if tries == 0 then sector0 else 0
      invariant if moved then SectorsFree(f, img, track0) == 0 && ChosenFrom(f, img, track0, 3) == ChosenFrom(f, img, track, 3 - tries)
                else track == track0 && tries == 0
      decreases 3 - tries, if track < DirTrack(f) then track else LastTrack(f) + 1 - track
    {
      assert d.parts[part].format == old(d.Formats())[part];
      var n := d.SectorsFreeOn(part, track);
      assert d.parts[part].format == old(d.Formats())[part];
      if n > 0 {
        break;
      }
      SearchEnds(f, img, track0, track, tries);
      SearchStep(f, img, track0, track, tries);
      ChosenStep(f, img, track, 3 - tries);
      moved := true;
      var (next, wrapped) := NextTrack(f, track);
      track := next;
      if wrapped {
        sector := 0;
        tries := tries + 1;
      }
    }
    assert d.parts[part].format == old(d.Formats())[part];
    SearchEnds(f, img, track0, track, tries);
    if tries == 3 {
      NoSides(f, img, track);
      return;
    }
    if moved {
      ChosenHere(f, img, track, 3 - tries);
    }
    CameRound(f, img, track0, track, tries);
    SearchedComesFirst(f, img, track0, track, tries);
    Interleaved(f, track0, sector0, track, sector, interleave);
    sector := sector + interleave;
    if sector >= SectorsPerTrack(f, track) {
      sector := sector - SectorsPerTrack(f, track);
      if sector != 0 {
        sector := sector - 1;
      }
    }
    found, sector := FindOnTrack(d, part, track, sector);
    assert d.parts[part].format == old(d.Formats())[part];
  }

  /**
   Where the search on a track begins: the interleave behind the file's sector, or behind 0 if the search for the
   track came to the end of a side. Beyond the end of the track it goes on at its start, one sector earlier.
   */
  function SearchPlace(f: Disk, track0: nat, sector0: nat, track: nat): int {
    var k := if f == D41 && track0 != 18 then 10 else if f == D71 && track0 != 18 then 6 else if f == D81 then 1 else 3;
    var cameRound := if track0 < (if f == D81 then 40 else 18) then track > track0 else track < track0;
    var s := (if cameRound then 0 else sector0) + k;
    var n := SectorsPerTrack(f, track);
    if s < n then s else if s == n then 0 else s - n - 1
  }

  /** The search ends a side exactly if the track it comes to is not further from the directory track than the file's. */
  lemma CameRound(f: Disk, img: Image, t0: nat, t: nat, tries: nat)
    requires ImageOk(f, img) && !f.Dnp? && SearchState(f, img, t0, t, tries) && tries < 3 && SectorsFree(f, img, t) > 0
    ensures tries > 0 <==> if t0 < DirTrack(f) then t > t0 else t < t0
  {
    hide SectorsFree;
  }

  /** The largest sector number on any track a file can be on. */
  function MaxSector(f: Disk): nat { if f == D81 then 39 else 20 }

  lemma Interleaved(f: Disk, track0: nat, sector0: nat, t: nat, s: nat, interleave: nat)
    requires !f.Dnp? && 1 <= t <= LastTrack(f) && sector0 <= MaxSector(f)
    requires s == if (if track0 < DirTrack(f) then t > track0 else t < track0) then 0 else sector0
    requires interleave == if track0 == DirTrack(f) then DirInterleave(f) else FileInterleave(f)
    ensures var n, p := SectorsPerTrack(f, t), SearchPlace(f, track0, sector0, t);
      && 0 <= p < n && ValidSector(f, t, p)
      && p == if s + interleave < n then s + interleave else if s + interleave == n then 0 else s + interleave - n - 1
  {
  }

  /** Sector `s` is the first free one of its track going round from `start`; without a free one it is 99 sectors on. */
  ghost predicate SearchFrom(f: Disk, img: Image, t: nat, start: nat, s: nat)
    requires ImageOk(f, img) && ValidSector(f, t, start)
  {
    if HasFree(f, img, t)
    then
      && ValidSector(f, t, s) && IsFree(f, img, t, s)
      && NoneFrom(f, img, t, start, (if s < start then s + SectorsPerTrack(f, t) else s) - start)
    else s == Around(start, 99, SectorsPerTrack(f, t))
  }

  /** The sector `k` further on, going round a track of `n` sectors. */
  function Around(start: nat, k: nat, n: nat): nat {
    if k == 0 then start
    else
      var s := Around(start, k - 1, n) + 1;
      if s >= n then 0 else s
  }

  lemma SearchBegins(f: Disk, img: Image, t0: nat)
    requires ImageOk(f, img) && !f.Dnp? && 1 <= t0 <= LastTrack(f)
    ensures SearchState(f, img, t0, t0, 0)
    ensures forall s: nat :: ValidSector(f, t0, s) ==> s <= MaxSector(f)
  {
    hide SectorsFree;
  }

  /** The found sector: on the directory track exactly if the file was, and free whenever its track has a free sector. */
  ghost predicate NextSectorOk(f: Disk, img: Image, track0: nat, track: nat, sector: nat)
    requires ImageOk(f, img)
  {
    && ValidSector(f, track, sector)
    && (track == DirTrack(f) <==> track0 == DirTrack(f))
    && (f == D71 && track == 53 ==> track0 == 53)
    && SectorsFree(f, img, track) > 0
    && (IsFree(f, img, track, sector) <==> HasFree(f, img, track))
  }

  /** From the directory track the search gives up if that track counts nothing free, from others if all others do. */
  ghost predicate NothingLeft(f: Disk, img: Image, track0: nat)
    requires ImageOk(f, img)
  {
    if track0 == DirTrack(f) then SectorsFree(f, img, track0) == 0
    else forall t: nat :: 1 <= t <= LastTrack(f) && !Skipped(f, t) ==> SectorsFree(f, img, t) == 0
  }

  lemma SearchEnds(f: Disk, img: Image, t0: nat, t: nat, tries: nat)
    requires ImageOk(f, img) && !f.Dnp? && SearchState(f, img, t0, t, tries)
    ensures tries == 3 ==> t0 != DirTrack(f) && NothingLeft(f, img, t0)
    ensures tries < 3 && t == DirTrack(f) ==> t0 == DirTrack(f)
    ensures tries < 3 && t0 == DirTrack(f) ==> t == DirTrack(f)
    ensures f == D71 && t == 53 ==> t0 == 53
  {
    hide SectorsFree;
  }

  /** With true counters the next sector is free, and the search gives up only when nothing is left. */
  lemma NextSectorFree(f: Disk, img: Image, track0: nat, track: nat, sector: nat)
    requires CountersOk(f, img) && NextSectorOk(f, img, track0, track, sector)
    ensures IsFree(f, img, track, sector)
  {
    hide IsFree, SectorsFree, CountersOk;
    CounterMeansFree(f, img, track);
  }

  lemma NothingLeftMeansFull(f: Disk, img: Image, track0: nat)
    requires ImageOk(f, img) && CountersOk(f, img) && NothingLeft(f, img, track0) && 1 <= track0 <= LastTrack(f)
    ensures if track0 == DirTrack(f) then !HasFree(f, img, track0)
            else forall t: nat :: 1 <= t <= LastTrack(f) && !Skipped(f, t) ==> !HasFree(f, img, t)
  {
    hide SectorsFree, CountersOk, HasFree;
    forall t: nat | 1 <= t <= LastTrack(f)
      ensures SectorsFree(f, img, t) > 0 <==> HasFree(f, img, t)
    {
      CounterMeansFree(f, img, t);
    }
  }

  /** A damaged map: no sector is free, but the counter of track 1 is not zero. */
  function DamagedImage(): (r: Image)
    ensures ImageOk(D41, r)
  {
    var zero: Sector := seq(256, _ => 0);
    WithCounter(D41, seq(TotalSectors(D41), _ => zero), 1, 1)
  }

  lemma NothingFree(t: nat, s: nat)
    requires ValidSector(D41, t, s)
    ensures !IsFree(D41, DamagedImage(), t, s) && SectorsFree(D41, DamagedImage(), 1) == 1
  {
    hide BamOf, BitOf, WithCounter, Counter, IsFree;
    var zero: Sector := seq(256, _ => 0);
    var blank: Image := seq(TotalSectors(D41), _ => zero);
    WithCounterBits(D41, blank, 1, 1, t, s);
    WithCounterBits(D41, blank, 1, 1, 1, 0);
    BlankUsed(blank, t, s);
  }

  lemma BlankUsed(img: Image, t: nat, s: nat)
    requires ImageOk(D41, img) && ValidSector(D41, t, s) && forall i, j :: 0 <= i < |img| && 0 <= j < 256 ==> img[i][j] == 0
    ensures !IsFree(D41, img, t, s)
  {
    hide BamOf, BitOf;
    BamInside(D41, t, s, Bitfield);
    assert MapByte(D41, img, BamOf(D41, t, Bitfield), s / 8) == 0;
    ZeroHasNoBits(BitOf(D41, s));
  }

  /** On it the search finds a sector for any file that is not on the directory track, and the sector is in use. */
  method TakesUsedSector(track0: nat, sector0: nat) returns (track: nat, sector: nat)
    requires ValidSector(D41, track0, sector0) && track0 != DirTrack(D41)
    ensures ValidSector(D41, track, sector) && !IsFree(D41, DamagedImage(), track, sector)
  {
    hide IsFree, DamagedImage, SectorsFree;
    var d := new Drive([Partition(D41, DamagedImage())]);
    var found;
    NothingFree(1, 0);
    found, track, sector := GetNextSector(d, 0, track0, sector0);
    NothingFree(track, sector);
  }

  /** None of the `n` sectors from `start` on, counted cyclically, is free. */
  ghost predicate NoneFrom(f: Disk, img: Image, t: nat, start: nat, n: nat)
    requires ImageOk(f, img)
  {
    forall q: nat :: ValidSector(f, t, q) && (q + (if q < start then SectorsPerTrack(f, t) else 0)) - start < n ==>
      !IsFree(f, img, t, q)
  }

  /**
   Steps over used sectors of a track, at most 99 times. The step counter is a byte that wraps below
   zero, so running out of steps is taken for success.
   */
  method FindOnTrack(d: Drive, part: nat, track: nat, start: nat) returns (ok: bool, sector: nat)
    requires d.Valid() && part < |d.parts| && !d.parts[part].format.Dnp?
    requires ValidSector(d.parts[part].format, track, start)
    modifies d
    ensures d.Valid() && d.V() == old(d.V()) && d.Formats() == old(d.Formats())
    ensures ok && ValidSector(d.parts[part].format, track, sector)
    ensures ImageOk(d.parts[part].format, d.V()[part])
    ensures IsFree(d.parts[part].format, d.V()[part], track, sector) <==> HasFree(d.parts[part].format, d.V()[part], track)
    ensures SearchFrom(d.parts[part].format, d.V()[part], track, start, sector)
  {
    hide Views, CacheOk, IsFree, HasFree, NoneFrom, Around;
    ViewsOk(d.parts, d.bam, d.bam2, part);
    ghost var img := d.V()[part];
    var f := d.parts[part].format;
    ok, sector := false, start;
    var tries := 99;
    NoneYet(f, img, track, start);
    AroundNone(start, SectorsPerTrack(f, track));
    while true
      invariant d.Valid() && d.V() == old(d.V()) && d.Formats() == old(d.Formats())
      invariant 0 <= tries <= 99 && ValidSector(f, track, sector)
      invariant NoneFrom(f, img, track, start, 99 - tries)
      invariant 99 - tries < SectorsPerTrack(f, track) ==>
        sector == if start + (99 - tries) < SectorsPerTrack(f, track) then start + (99 - tries)
          else start + (99 - tries) - SectorsPerTrack(f, track)
      invariant sector == Around(start, 99 - tries, SectorsPerTrack(f, track))
      decreases tries
    {
      assert d.parts[part].format == old(d.Formats())[part];
      var free := d.IsFreeSector(part, track, sector);
      assert d.parts[part].format == old(d.Formats())[part];
      if free {
        FreeFound(f, img, track, start, 99 - tries, sector);
        return tries != 0, sector;
      }
      if tries == 0 {
        NoneAtAll(f, img, track, start, 99);
        return true, sector;
      }
      OneMore(f, img, track, start, 99 - tries, sector);
      AroundOne(start, 99 - tries, SectorsPerTrack(f, track));
      tries := tries - 1;
      sector := sector + 1;
      if sector >= SectorsPerTrack(f, track) {
        sector := 0;
      }
    }
  }

  lemma AroundNone(start: nat, n: nat)
    ensures Around(start, 0, n) == start
  {
  }

  lemma AroundOne(start: nat, k: nat, n: nat)
    ensures Around(start, k + 1, n) == if Around(start, k, n) + 1 >= n then 0 else Around(start, k, n) + 1
  {
  }

  lemma NoneYet(f: Disk, img: Image, t: nat, start: nat)
    requires ImageOk(f, img) && ValidSector(f, t, start)
    ensures NoneFrom(f, img, t, start, 0)
  {
  }

  lemma OneMore(f: Disk, img: Image, t: nat, start: nat, n: nat, s: nat)
    requires ImageOk(f, img) && ValidSector(f, t, s) && ValidSector(f, t, start) && NoneFrom(f, img, t, start, n)
    requires !IsFree(f, img, t, s)
    requires n < SectorsPerTrack(f, t) ==> s == if start + n < SectorsPerTrack(f, t) then start + n else start + n - SectorsPerTrack(f, t)
    ensures NoneFrom(f, img, t, start, n + 1)
  {
    hide IsFree;
  }

  /** A free sector is met before the track has been gone round. */
  lemma FreeFound(f: Disk, img: Image, t: nat, start: nat, n: nat, s: nat)
    requires ImageOk(f, img) && !f.Dnp? && ValidSector(f, t, start) && ValidSector(f, t, s) && NoneFrom(f, img, t, start, n)
    requires n < SectorsPerTrack(f, t) ==> s == if start + n < SectorsPerTrack(f, t) then start + n else start + n - SectorsPerTrack(f, t)
    requires IsFree(f, img, t, s)
    ensures n < SectorsPerTrack(f, t) <= 40 && HasFree(f, img, t) && SearchFrom(f, img, t, start, s)
  {
    hide IsFree, HasFree, NoneFrom, Around;
    HasFreeAt(f, img, t, s);
    if n >= SectorsPerTrack(f, t) {
      NoneAtAll(f, img, t, start, n);
    }
  }

  lemma NoneAtAll(f: Disk, img: Image, t: nat, start: nat, n: nat)
    requires ImageOk(f, img) && !f.Dnp? && ValidSector(f, t, start) && NoneFrom(f, img, t, start, n)
    requires n >= SectorsPerTrack(f, t)
    ensures !HasFree(f, img, t)
  {
    hide IsFree;
  }

  // ----- counting all free blocks -----

  /**
   The blocks an image reports as free: what its tracks count, without the directory and map tracks. The format
   with variable size keeps only the first 64 sectors of its first track for itself.
   */
  ghost function FreeBlocksUpTo(f: Disk, img: Image, n: nat): nat
    requires ImageOk(f, img) && n <= LastTrack(f)
  {
    if n == 0 then 0
    else FreeBlocksUpTo(f, img, n - 1)
         + (if Uncounted(f, n) then 0 else if f.Dnp? && n == 1 then FreeBehind(f, img, 1, 64, 256) else SectorsFree(f, img, n))
  }

  /** The directory and map tracks. */
  ghost predicate Uncounted(f: Disk, t: nat) {
    if f.Dnp? then false else if f == D81 then t == 40 else t == 18 || t == 53
  }

  /** How many sectors of track `t` from `a` on and before `n` are free. */
  ghost function FreeBehind(f: Disk, img: Image, t: nat, a: nat, n: nat): nat
    requires ImageOk(f, img) && 1 <= t <= LastTrack(f) && n <= SectorsPerTrack(f, t)
  {
    if n <= a then 0 else FreeBehind(f, img, t, a, n - 1) + (if IsFree(f, img, t, n - 1) then 1 else 0)
  }

  lemma {:induction false} FreeBehindIs(f: Disk, img: Image, t: nat, a: nat, n: nat)
    requires ImageOk(f, img) && 1 <= t <= LastTrack(f) && a <= n <= SectorsPerTrack(f, t)
    ensures FreeBehind(f, img, t, a, n) == NumFree(f, img, t, n) - NumFree(f, img, t, a)
  {
    hide IsFree;
    if a < n {
      FreeBehindIs(f, img, t, a, n - 1);
    }
  }

  /** Counts the free sectors of the first track of an image of variable size. */
  method FreeOnFirst(d: Drive, part: nat) returns (blocks: nat)
    requires d.Valid() && part < |d.parts| && d.parts[part].format.Dnp? && LastTrack(d.parts[part].format) >= 1
    modifies d
    ensures d.Valid() && d.V() == old(d.V()) && d.Formats() == old(d.Formats())
    ensures d.parts[part].format == old(d.parts[part].format) && ImageOk(d.parts[part].format, d.V()[part])
    ensures blocks == FreeBehind(d.parts[part].format, d.V()[part], 1, 64, 256)
  {
    hide Views, CacheOk, IsFree;
    ViewsOk(d.parts, d.bam, d.bam2, part);
    ghost var img := d.V()[part];
    var f := d.parts[part].format;
    blocks := 0;
    for j := 64 to 256
      invariant d.Valid() && d.V() == old(d.V()) && d.Formats() == old(d.Formats())
      invariant blocks == FreeBehind(f, img, 1, 64, j)
    {
      assert d.parts[part].format == old(d.Formats())[part];
      var free := d.IsFreeSector(part, 1, j);
      if free {
        blocks := blocks + 1;
      }
    }
    assert d.parts[part].format == old(d.Formats())[part];
  }

  method FreeBlocks(d: Drive, part: nat) returns (blocks: nat)
    requires d.Valid() && part < |d.parts|
    modifies d
    ensures d.Valid() && d.V() == old(d.V()) && d.Formats() == old(d.Formats())
    ensures ImageOk(d.parts[part].format, d.V()[part])
    ensures blocks == FreeBlocksUpTo(d.parts[part].format, d.V()[part], LastTrack(d.parts[part].format))
  {
    hide Views, CacheOk, SectorsFree, FreeBehind;
    ViewsOk(d.parts, d.bam, d.bam2, part);
    ghost var img := d.V()[part];
    var f := d.parts[part].format;
    blocks := 0;
    var i := 1;
    while i <= LastTrack(f)
      invariant d.Valid() && d.V() == old(d.V()) && d.Formats() == old(d.Formats())
      invariant 1 <= i <= LastTrack(f) + 1 && blocks == FreeBlocksUpTo(f, img, i - 1)
    {
      if f.Dnp? || (if f == D81 then i != 40 else i != 18 && i != 53) {
        var n;
        assert d.parts[part].format == old(d.Formats())[part];
        if f.Dnp? && i == 1 {
          n := FreeOnFirst(d, part);
        } else {
          n := d.SectorsFreeOn(part, i);
        }
        assert d.parts[part].format == old(d.Formats())[part];
        blocks := blocks + n;
      }
      i := i + 1;
    }
    assert d.parts[part].format == old(d.Formats())[part];
  }

  /** With true counters the reported number depends only on which counted sectors are free. */
  lemma {:induction false} FreeBlocksSame(f: Disk, img: Image, img': Image, n: nat)
    requires ImageOk(f, img) && ImageOk(f, img') && CountersOk(f, img) && CountersOk(f, img') && n <= LastTrack(f)
    requires forall t: nat, s: nat :: ValidSector(f, t, s) && !Uncounted(f, t) ==> IsFree(f, img, t, s) == IsFree(f, img', t, s)
    ensures FreeBlocksUpTo(f, img, n) == FreeBlocksUpTo(f, img', n)
  {
    hide IsFree, SectorsFree, CountersOk, NumFree;
    if n > 0 {
      FreeBlocksSame(f, img, img', n - 1);
      if !Uncounted(f, n) {
        SectorsFreeIsCount(f, img, n);
        SectorsFreeIsCount(f, img', n);
        SameCount(f, img, img', n, SectorsPerTrack(f, n));
        if f.Dnp? && n == 1 {
          SameCount(f, img, img', 1, 64);
          FreeBehindIs(f, img, 1, 64, 256);
          FreeBehindIs(f, img', 1, 64, 256);
        }
      }
    }
  }

  lemma {:induction false} SameCount(f: Disk, img: Image, img': Image, t: nat, n: nat)
    requires ImageOk(f, img) && ImageOk(f, img') && 1 <= t <= LastTrack(f) && n <= SectorsPerTrack(f, t)
    requires forall s: nat :: ValidSector(f, t, s) ==> IsFree(f, img, t, s) == IsFree(f, img', t, s)
    ensures NumFree(f, img, t, n) == NumFree(f, img', t, n)
  {
    hide IsFree;
    if n > 0 {
      SameCount(f, img, img', t, n - 1);
      assert ValidSector(f, t, n - 1);
    }
  }
}
