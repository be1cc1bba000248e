/** Open files on a FAT volume: the position state that reading, writing and seeking keep up to date step by step. */
module FatFile {
  import opened Bits
  import opened Common
  import opened FatWindow
  import opened FatTable
  import opened FatChains
  import opened FatAlloc
  import opened FatLayout
  import opened FatDirect

  /** Position in the file, current cluster, current sector, and sectors left in the cluster. */
  datatype Pos = Pos(fptr: nat, clust: nat, sect: nat, csect: nat)

  /** At the top of the file, where the other fields do not matter yet. */
  ghost predicate AtTop(p: Pos) { p.fptr == 0 && p.csect == 1 }

  /** `sect` is the sector in cluster `k` with number `q` in the file. */
  ghost predicate InCluster(g: Geometry, chain: seq<nat>, k: nat, q: nat, p: Pos) {
    && k < |chain| && p.clust == chain[k] && 1 <= p.csect <= g.csize
    && p.sect == FirstSector(g, chain[k]) + (g.csize - p.csect)
    && q == Times(g.csize, k) + (g.csize - p.csect)
  }

  /** The current sector is the one of the byte just before the position. */
  ghost predicate Standing(g: Geometry, chain: seq<nat>, k: nat, p: Pos) {
    p.fptr > 0 && InCluster(g, chain, k, (p.fptr - 1) / 512, p)
  }

  /** The current sector is the one of the byte at the position. */
  ghost predicate Facing(g: Geometry, chain: seq<nat>, k: nat, p: Pos) {
    InCluster(g, chain, k, p.fptr / 512, p)
  }

  /** The position is the start of cluster `k`, which has been entered though the sector before it is current. */
  ghost predicate Entered(g: Geometry, chain: seq<nat>, k: nat, p: Pos) {
    && 0 < k < |chain| && p.clust == chain[k] && p.csect == g.csize + 1
    && p.sect + 1 == FirstSector(g, chain[k])
    && p.fptr == 512 * Times(g.csize, k)
  }

  /** After a write that found the volume full: at the end of the chain, with no sector left. */
  ghost predicate Stuck(g: Geometry, chain: seq<nat>, p: Pos) {
    && p.csect == 0 && p.fptr == 512 * Times(g.csize, |chain|)
    && (chain != [] ==> p.clust == chain[|chain| - 1] && p.sect + 1 == FirstSector(g, p.clust) + g.csize)
  }

  ghost predicate Ready(g: Geometry, chain: seq<nat>, k: nat, p: Pos) {
    AtTop(p) || Standing(g, chain, k, p) || Entered(g, chain, k, p)
  }

  lemma SameSectorFaces(g: Geometry, chain: seq<nat>, k: nat, p: Pos)
    requires Standing(g, chain, k, p) && p.fptr % 512 != 0
    ensures Facing(g, chain, k, p)
  {
    assert (p.fptr - 1) / 512 == p.fptr / 512;
  }

  /** At a sector boundary the next sector of the cluster is one further on. */
  lemma NextSectorFaces(g: Geometry, chain: seq<nat>, k: nat, p: Pos, p': Pos)
    requires Standing(g, chain, k, p) || Entered(g, chain, k, p)
    requires p.fptr % 512 == 0 && p.csect > 1
    requires p' == Pos(p.fptr, p.clust, p.sect + 1, p.csect - 1)
    ensures Facing(g, chain, k, p')
  {
    if Standing(g, chain, k, p) {
      assert (p.fptr - 1) / 512 + 1 == p.fptr / 512;
    }
  }

  /** At a cluster boundary the first sector of the next cluster is next. */
  lemma NextClusterFaces(g: Geometry, chain: seq<nat>, k: nat, p: Pos, p': Pos)
    requires Standing(g, chain, k, p) && p.fptr % 512 == 0 && p.csect == 1 && k + 1 < |chain| && g.csize >= 1
    requires p' == Pos(p.fptr, chain[k + 1], FirstSector(g, chain[k + 1]), g.csize)
    ensures Facing(g, chain, k + 1, p')
  {
    assert (p.fptr - 1) / 512 + 1 == p.fptr / 512;
  }

  lemma TopFaces(g: Geometry, chain: seq<nat>, p: Pos, p': Pos)
    requires AtTop(p) && chain != [] && g.csize >= 1
    requires p' == Pos(0, chain[0], FirstSector(g, chain[0]), g.csize)
    ensures Facing(g, chain, 0, p')
  {
  }

  /** After a transfer within the current sector the position still belongs to it. */
  lemma TransferStands(g: Geometry, chain: seq<nat>, k: nat, p: Pos, n: nat)
    requires Facing(g, chain, k, p) && 0 < n && p.fptr % 512 + n <= 512
    ensures Standing(g, chain, k, p.(fptr := p.fptr + n))
  {
    assert (p.fptr + n - 1) / 512 == p.fptr / 512;
  }

  /** The current sector is the one the byte at the position lies in. */
  lemma FacingSector(view: seq<Disk>, g: Geometry, chain: seq<nat>, k: nat, p: Pos)
    requires GeometryOk(view, g) && ClustersOk(g) && Clusters(g, chain) && Distinct(chain) && Facing(g, chain, k, p)
    ensures p.fptr < 512 * |Sectors(g, chain)| && Sectors(g, chain)[p.fptr / 512] == p.sect
    ensures InVolume(g, p.sect) && Writable(g, p.sect) && FatStart(g, g.nFats) <= p.sect < g.end
    ensures DataSectors(g, Sectors(g, chain)) && OnDrive(view, g, Sectors(g, chain))
  {
    SectorAt(g, chain, k, g.csize - p.csect);
    ChainSectors(view, g, chain);
    FatStartsGrow(g, 0, g.nFats);
  }

  /** Bytes of the window are bytes of the file. */
  lemma PieceIs(view: seq<Disk>, g: Geometry, S: seq<nat>, i: nat, n: nat, data: Sector)
    requires OnDrive(view, g, S) && i < 512 * |S| && i % 512 + n <= 512
    requires view[g.drive][S[i / 512]] == data
    ensures i + n <= 512 * |S| && data[i % 512..i % 512 + n] == BytesOf(view, g, S)[i..i + n]
  {
    var F := BytesOf(view, g, S);
    forall j | i <= j < i + n
      ensures j < 512 * |S| && F[j] == data[j - i + i % 512]
    {
      assert j / 512 == i / 512 && j % 512 == j - i + i % 512;
    }
  }

  // ----- which sector is asked of the window -----

  /**
   From a sector boundary, the next sector and how many there are from it to the end of its cluster, if it is known
   without a look at the table.
   */
  function Onward(g: Geometry, org: nat, p: Pos): (nat, nat) {
    if p.csect > 1 then (p.sect + 1, p.csect - 1)
    else if p.fptr == 0 && 2 <= org then (FirstSector(g, org), g.csize)
    else (0, 0)
  }

  /** The sector that a transfer of `n` bytes asks of the window before it looks at the table; whole sectors go past it. */
  function FirstAsked(g: Geometry, org: nat, p: Pos, n: nat): Option<nat> {
    if n == 0 then None
    else if p.fptr % 512 != 0 then Some(p.sect)
    else
      var (s, count) := Onward(g, org, p);
      if n % 512 != 0 && n / 512 < count then Some(s + n / 512) else None
  }

  /** After whole sectors of one cluster the rest of a transfer asks for the same sector. */
  lemma AskedOn(g: Geometry, org: nat, p: Pos, p': Pos, n: nat, m: nat)
    requires p.fptr % 512 == 0 && n >= 512 && Onward(g, org, p).1 > 0 && m == Least(n / 512, Onward(g, org, p).1)
    requires p'.fptr == p.fptr + 512 * m && p'.sect == Onward(g, org, p).0 + m - 1 && p'.csect == Onward(g, org, p).1 - (m - 1)
    ensures FirstAsked(g, org, p', n - 512 * m) == FirstAsked(g, org, p, n)
    ensures FirstAsked(g, org, p, n).Some? ==> FirstAsked(g, org, p, n).value == Onward(g, org, p).0 + m && m < Onward(g, org, p).1
    ensures n - 512 * m >= 512 ==> p'.csect == 1
  {
    assert (n - 512 * m) / 512 == n / 512 - m && (n - 512 * m) % 512 == n % 512;
    assert p'.fptr % 512 == 0;
  }

  /** From the current sector to the end of the cluster the file goes on sector by sector. */
  lemma FacingRun(g: Geometry, chain: seq<nat>, k: nat, p: Pos)
    requires Facing(g, chain, k, p)
    ensures Consecutive(Sectors(g, chain), p.fptr / 512, p.sect, p.csect)
  {
    var S, q := Sectors(g, chain), p.fptr / 512;
    forall j | q <= j < q + p.csect
      ensures j < |S| && S[j] == p.sect + (j - q)
    {
      SectorAt(g, chain, k, g.csize - p.csect + (j - q));
    }
    SectorAt(g, chain, k, g.csize - 1);
  }

  /** After a transfer of whole sectors the position is at the end of the last one. */
  lemma RunStands(g: Geometry, chain: seq<nat>, k: nat, p: Pos, m: nat)
    requires Facing(g, chain, k, p) && p.fptr % 512 == 0 && 1 <= m <= p.csect
    ensures Standing(g, chain, k, Pos(p.fptr + 512 * m, p.clust, p.sect + m - 1, p.csect - (m - 1)))
  {
    assert (p.fptr + 512 * m - 1) / 512 == p.fptr / 512 + m - 1;
  }

  /** A sector and the bytes an outdated window has of it. */
  datatype Held = Held(sect: nat, data: Sector)

  /** The bytes of a file, with those of the window in the sector it is asked for first. */
  ghost function FoundBytes(view: seq<Disk>, g: Geometry, S: seq<nat>, held: Option<Held>, asked: Option<nat>): (r: seq<byte>)
    requires OnDrive(view, g, S)
    ensures |r| == 512 * |S|
  {
    if held.Some? && asked == Some(held.value.sect)
    then BytesOf(Written(view, g, held.value.sect, held.value.data), g, S)
    else BytesOf(view, g, S)
  }

  /** They are the file's own where another sector than the one asked for is. */
  lemma FoundAt(view: seq<Disk>, g: Geometry, S: seq<nat>, held: Option<Held>, asked: Option<nat>, i: nat)
    requires GeometryOk(view, g) && OnDrive(view, g, S) && i < 512 * |S|
    requires held.Some? ==> FatStart(g, g.nFats) <= held.value.sect < g.end
    ensures FoundBytes(view, g, S, held, asked)[i] ==
      if held.Some? && asked == Some(held.value.sect) && S[i / 512] == held.value.sect then held.value.data[i % 512]
      else BytesOf(view, g, S)[i]
  {
    hide Written, BytesOf;
    if held.Some? {
      SectorReplaced(view, g, S, held.value.sect, held.value.data, i);
    }
  }

  /** A stretch without the sector asked for. */
  lemma FoundElsewhere(view: seq<Disk>, g: Geometry, S: seq<nat>, held: Option<Held>, asked: Option<nat>, a: nat, b: nat)
    requires GeometryOk(view, g) && OnDrive(view, g, S) && a <= b <= 512 * |S|
    requires held.Some? ==> FatStart(g, g.nFats) <= held.value.sect < g.end
    requires asked.Some? ==> forall q :: 0 <= q < |S| && a < 512 * (q + 1) && 512 * q < b ==> S[q] != asked.value
    ensures FoundBytes(view, g, S, held, asked)[a..b] == BytesOf(view, g, S)[a..b]
  {
    hide BytesOf, FoundBytes;
    forall i | a <= i < b
      ensures FoundBytes(view, g, S, held, asked)[i] == BytesOf(view, g, S)[i]
    {
      FoundAt(view, g, S, held, asked, i);
    }
  }

  datatype Result = Ok | RwError | Denied

  class FileHandle {
    const fs: FatFs
    var fptr: nat
    var fsize: nat
    var orgClust: nat
    var currClust: nat
    var currSect: nat
    var csect: nat
    const canRead: bool
    const canWrite: bool
    var written: bool
    var error: bool
    /** The clusters of the file. */
    ghost var chain: seq<nat>
    /** The index of the current cluster. */
    ghost var at: nat

    /** A handle as opening a file leaves it. */
    constructor (fs: FatFs, orgClust: nat, fsize: nat, canRead: bool, canWrite: bool, ghost chain: seq<nat>)
      requires fs.Valid() && ClustersOk(fs.G()) && ChainOk(fs.T(), chain, orgClust)
      requires fsize <= 512 * |Sectors(fs.G(), chain)| && fsize < 0x1_0000_0000
      ensures this.fs == fs && this.canRead == canRead && this.canWrite == canWrite && this.chain == chain
      ensures Valid() && Ready(fs.G(), chain, at, P()) && this.fsize == fsize && fptr == 0 && !error && !written
    {
      this.fs, this.canRead, this.canWrite, this.chain, this.at := fs, canRead, canWrite, chain, 0;
      this.fptr, this.fsize, this.orgClust, this.csect := 0, fsize, orgClust, 1;
      this.currClust, this.currSect, this.written, this.error := 0, 0, false, false;
    }

    ghost function P(): Pos
      reads this
    {
      Pos(fptr, currClust, currSect, csect)
    }

    /** The volume is in order, the chain is the file's, and the size fits it. */
    ghost predicate Sound()
      reads this, fs.w
    {
      && fs.Valid() && ClustersOk(fs.G()) && ChainOk(fs.T(), chain, orgClust)
      && fsize <= 512 * |Sectors(fs.G(), chain)| && fsize < 0x1_0000_0000
    }

    ghost predicate Valid()
      reads this, fs.w
    {
      Sound() && fptr <= fsize
    }

    /** All bytes of the file's clusters, those behind the end of the file included. */
    ghost function Bytes(): (r: seq<byte>)
      requires Sound()
      reads this, fs.w
      ensures |r| == 512 * |Sectors(fs.G(), chain)|
    {
      ChainThere(fs.w.V(), fs.G(), fs.T(), chain, orgClust);
      BytesOf(fs.w.V(), fs.G(), Sectors(fs.G(), chain))
    }

    /** What the window holds of this volume if that was written past it. */
    ghost function Leftover(): Option<Held>
      requires fs.v < |fs.w.vols|
      reads fs.w
    {
      if !fs.w.Fresh() && fs.w.buf.fs == fs.v then Some(Held(fs.w.buf.sect, fs.w.buf.data)) else None
    }

    /** The file's bytes as a transfer finds them that first asks the window for that sector. */
    ghost function FoundBy(asked: Option<nat>): (r: seq<byte>)
      requires Sound()
      reads this, fs.w
      ensures |r| == |Bytes()|
      ensures Leftover() == None || asked != Some(Leftover().value.sect) ==> r == Bytes()
    {
      ChainThere(fs.w.V(), fs.G(), fs.T(), chain, orgClust);
      FoundBytes(fs.w.V(), fs.G(), Sectors(fs.G(), chain), Leftover(), asked)
    }

    /** The file's bytes as a transfer of `n` bytes from the position finds them. */
    ghost function Found(n: nat): (r: seq<byte>)
      requires Sound()
      reads this, fs.w
      ensures |r| == |Bytes()|
    {
      FoundBy(FirstAsked(fs.G(), orgClust, P(), n))
    }

    // ----- reading -----

    /** Takes the next sector of the current cluster, or none if that was the last one. */
    method CountDown() returns (more: bool)
      modifies this`csect
      ensures csect == (old(csect) - 1) % 256 && more == (csect != 0)
    {
      csect := (csect - 1) % 256;
      more := csect != 0;
    }

    /** Enters a cluster at its first sector, and returns that. */
    method Enter(clust: nat) returns (sect: nat)
      requires fs.Valid() && 2 <= clust < fs.G().maxClust
      modifies this`currClust, this`csect
      ensures currClust == clust && csect == fs.G().csize && sect == FirstSector(fs.G(), clust)
    {
      currClust := clust;
      ClustToSectIs(fs.G(), clust);
      sect := ClustToSect(fs.G(), clust);
      csect := fs.G().csize;
    }

    /** At a sector boundary, moves to the sector that the next byte to read is in; behind the chain that is an error. */
    method AdvanceReading() returns (ok: bool)
      requires Sound() && fptr % 512 == 0 && Ready(fs.G(), chain, at, P())
      modifies this`csect, this`currClust, this`currSect, this`at, this`error, fs.w
      ensures Sound() && fs.w.V() == old(fs.w.V())
      ensures ok <==> fptr < 512 * |Sectors(fs.G(), chain)|
      ensures ok ==> Facing(fs.G(), chain, at, P()) && error == old(error) && !fs.w.buf.dirty
      ensures ok ==> var next := old(Onward(fs.G(), orgClust, P()));
        if next.1 > 0 then
          (currSect, csect) == next && Leftover() == old(Leftover()) else fs.OnTable()
      ensures old(fs.w.Fresh()) ==> fs.w.Fresh()
      ensures !ok ==> error
    {
      hide Standing, Entered, Facing, EndedChain, View, BufOk, Table, Sectors, ChainOk, Orderly, Apparent, FirstSector,
        InFirstFat;
      ghost var g, p := fs.G(), P();
      ReadyCounts(g, chain, at, p);
      ChainThere(fs.w.V(), g, fs.T(), chain, orgClust);
      var sect: nat;
      var more := CountDown();
      if more {
        sect := currSect + 1;
        NextSectorFaces(g, chain, at, p, Pos(p.fptr, p.clust, p.sect + 1, p.csect - 1));
        FacingInside(g, chain, at, Pos(p.fptr, p.clust, p.sect + 1, p.csect - 1));
        ok := true;
      } else {
        ok, sect := NextCluster(p);
        if !ok {
          return;
        }
      }
      fs.w.MoveWindow(fs.v, 0);
      currSect := sect;
    }

    /** At a cluster boundary, follows the chain to the next cluster. */
    method NextCluster(ghost p: Pos) returns (ok: bool, sect: nat)
      requires Sound() && fptr % 512 == 0 && p == Pos(fptr, currClust, currSect, 1)
      requires if fptr == 0 then AtTop(p) else Standing(fs.G(), chain, at, p)
      modifies this`csect, this`currClust, this`at, this`error, fs.w
      ensures Sound() && fs.w.V() == old(fs.w.V())
      ensures ok <==> fptr < 512 * |Sectors(fs.G(), chain)|
      ensures ok ==> Facing(fs.G(), chain, at, Pos(fptr, currClust, sect, csect)) && error == old(error)
      ensures ok && fptr != 0 ==> fs.OnTable()
      ensures fptr == 0 ==> fs.w.buf == old(fs.w.buf) && fs.w.disks == old(fs.w.disks)
      ensures ok && fptr == 0 ==> 2 <= orgClust && sect == FirstSector(fs.G(), orgClust) && csect == fs.G().csize
      ensures old(fs.w.Fresh()) ==> fs.w.Fresh()
      ensures !ok ==> error
    {
      hide Standing, Facing, EndedChain, View, BufOk, Table, Sectors, ChainOk, Orderly, Apparent, FirstSector;
      ghost var g, t := fs.G(), fs.T();
      var clust;
      sect := 0;
      if fptr == 0 {
        clust := orgClust;
        TopChain(g, t, chain, orgClust);
      } else {
        AnotherCluster(g, t, chain, orgClust, at, p);
        clust := fs.GetCluster(currClust);
      }
      if clust < 2 || clust >= fs.G().maxClust {
        error := true;
        return false, sect;
      }
      sect := Enter(clust);
      if fptr == 0 {
        TopFaces(g, chain, p, Pos(0, clust, sect, csect));
        at := 0;
      } else {
        NextClusterFaces(g, chain, at, p, Pos(fptr, clust, sect, csect));
        at := at + 1;
      }
      ok := true;
    }

    /**
     Reads up to `btr` bytes. The bytes are those at the position, as far as the file goes, with what an outdated
     window has of the sector that is first asked of it; the position moves on by as many.
     */
    method Read(btr: nat) returns (res: Result, out: seq<byte>)
      requires Valid() && (Ready(fs.G(), chain, at, P()) || Stuck(fs.G(), chain, P()))
      modifies this`csect, this`currClust, this`currSect, this`at, this`fptr, this`error, fs.w
      ensures Valid() && fs.w.V() == old(fs.w.V()) && error == old(error) && (old(fs.w.Fresh()) ==> fs.w.Fresh())
      ensures res == if old(error) then RwError else if !canRead then Denied else Ok
      ensures res == Ok ==> var end := Least(old(fptr) + btr, fsize);
        out == old(Found(Least(btr, fsize - fptr)))[old(fptr)..end] && fptr == end
      ensures res != Ok ==> out == [] && P() == old(P())
      ensures old(Ready(fs.G(), chain, at, P())) ==> Ready(fs.G(), chain, at, P())
      ensures old(Stuck(fs.G(), chain, P())) ==> Stuck(fs.G(), chain, P())
      ensures if out == [] then P() == old(P()) && at == old(at) else Standing(fs.G(), chain, at, P())
    {
      hide Standing, Entered, Facing, EndedChain, View, BufOk, Table, Sectors, ChainOk, BytesOf, Stuck, AtTop, Orderly,
        Apparent, FirstAsked;
      out := [];
      if error {
        return RwError, out;
      }
      if !canRead {
        return Denied, out;
      }
      res := Ok;
      var left := Least(btr, fsize - fptr);
      StuckAtEnd(fs.G(), chain, at, P(), fsize);
      ghost var F, end, ready := Found(left), fptr + left, Ready(fs.G(), chain, at, P());
      assert F[fptr..fptr] == [];
      while left != 0
        invariant Sound() && fs.w.V() == old(fs.w.V()) && error == old(error) && res == Ok
        invariant 0 <= left && fptr == old(fptr) + |out| && fptr + left == end <= fsize
        invariant out == F[old(fptr)..fptr] && Found(left)[fptr..end] == F[fptr..end]
        invariant ready || left == 0
        invariant ready ==> Ready(fs.G(), chain, at, P())
        invariant !ready ==> P() == old(P())
        invariant if out == [] then P() == old(P()) && at == old(at) else Standing(fs.G(), chain, at, P())
        invariant old(fs.w.Fresh()) ==> fs.w.Fresh()
        decreases left
      {
        ghost var E, pos := Found(left), fptr;
        var piece;
        res, piece := ReadPiece(left);
        OnWith(F, E, Found(left - |piece|), old(fptr), pos, fptr, end);
        out := out + piece;
        left := left - |piece|;
      }
    }

    /** Reads as much of the wanted bytes as is in one sector, or all whole sectors that are left of a cluster. */
    method ReadPiece(left: nat) returns (res: Result, piece: seq<byte>)
      requires Sound() && Ready(fs.G(), chain, at, P()) && 0 < left && fptr + left <= fsize
      modifies this`csect, this`currClust, this`currSect, this`at, this`fptr, this`error, fs.w
      ensures Sound() && fs.w.V() == old(fs.w.V()) && error == old(error) && (old(fs.w.Fresh()) ==> fs.w.Fresh())
      ensures res == Ok && 0 < |piece| <= left && fptr == old(fptr) + |piece| && Standing(fs.G(), chain, at, P())
      ensures piece == old(Found(left))[old(fptr)..fptr]
      ensures Found(left - |piece|)[fptr..old(fptr) + left] == old(Found(left))[fptr..old(fptr) + left]
    {
      hide Entered, Facing, EndedChain, View, BufOk, Table, Sectors, ChainOk, BytesOf, InCluster, AtTop, Writable, Orderly,
        Apparent, FirstSector, InFirstFat, Standing, FirstAsked, FoundBytes, Onward, FileHandle.Leftover, Consecutive;
      ghost var g, p := fs.G(), P();
      var ok := ApproachReading(left);
      if !ok {
        return RwError, [];
      }
      res := Ok;
      if fptr % 512 == 0 && left >= 512 {
        piece := ReadRun(left);
        FoundOverRun(p, left, |piece| / 512);
      } else {
        piece := ReadThrough(left);
        FirstAskedIs(g, orgClust, P(), left - |piece|);
        NotHeld(left - |piece|);
      }
    }

    /** Comes to the sector of the next byte. */
    method ApproachReading(ghost n: nat) returns (ok: bool)
      requires Sound() && Ready(fs.G(), chain, at, P()) && 0 < n && fptr + n <= fsize
      modifies this`csect, this`currClust, this`currSect, this`at, this`error, fs.w
      ensures Sound() && fs.w.V() == old(fs.w.V()) && error == old(error) && (old(fs.w.Fresh()) ==> fs.w.Fresh())
      ensures ok && Facing(fs.G(), chain, at, P())
      ensures old(Found(n)) == FoundBy(FirstAsked(fs.G(), orgClust, old(P()), n))
      ensures var next := old(Onward(fs.G(), orgClust, P()));
        if fptr % 512 == 0 && n >= 512 then
          !fs.w.buf.dirty && if next.1 == 0 then fs.w.Fresh() else (currSect, csect) == next
        else old(Found(n)) == FoundBy(Some(currSect))
    {
      hide Entered, Facing, EndedChain, View, BufOk, Table, Sectors, ChainOk, BytesOf, InCluster, AtTop, Writable, Orderly,
        Apparent, FirstSector, InFirstFat, Standing, FirstAsked, FoundBytes, Onward;
      ghost var g, p := fs.G(), P();
      ok := true;
      FirstAskedIs(g, orgClust, p, n);
      if fptr % 512 == 0 {
        ok := AdvanceReading();
      } else {
        NotAtTop(g, chain, at, P());
        SameSectorFaces(g, chain, at, P());
      }
    }

    /** If the window holds the current sector, a transfer that goes on behind it finds the plain bytes. */
    lemma NotHeld(n: nat)
      requires Sound() && fptr > 0 && (n == 0 || fptr % 512 == 0) && (fs.w.Fresh() || fs.w.Holds(fs.v, currSect))
      ensures Found(n) == Bytes()
    {
      FirstAskedIs(fs.G(), orgClust, P(), n);
    }

    /** A run of whole sectors does not change what the rest of a transfer finds. */
    lemma FoundOverRun(p: Pos, left: nat, m: nat)
      requires Sound() && p.fptr % 512 == 0 && left >= 512 && 1 <= m && fptr == p.fptr + 512 * m && 512 * m <= left
      requires 512 * (p.fptr / 512 + m) <= |Bytes()|
      requires var next := Onward(fs.G(), orgClust, p);
        if next.1 > 0 then
          && m == Least(left / 512, next.1) && currSect == next.0 + m - 1 && csect == next.1 - (m - 1)
          && Consecutive(Sectors(fs.G(), chain), p.fptr / 512, next.0, m)
        else fs.w.Fresh()
      ensures Found(left - 512 * m) == FoundBy(FirstAsked(fs.G(), orgClust, p, left))
      ensures FoundBy(FirstAsked(fs.G(), orgClust, p, left))[p.fptr..fptr] == Bytes()[p.fptr..fptr]
    {
      hide EndedChain, View, BufOk, Table, Sectors, ChainOk, BytesOf, Orderly, Apparent, FirstSector, FoundBytes, FirstAsked,
        Onward;
      ghost var g, S, asked := fs.G(), Sectors(fs.G(), chain), FirstAsked(fs.G(), orgClust, p, left);
      ChainThere(fs.w.V(), g, fs.T(), chain, orgClust);
      var next := Onward(g, orgClust, p);
      FirstAskedIs(g, orgClust, p, left);
      if next.1 > 0 {
        AskedOn(g, orgClust, p, P(), left, m);
        LeftoverPlace();
        VolumeHere(fs.w.V(), fs.w.vols, fs.v);
        if asked.Some? {
          DifferentSectors(g, S, p.fptr / 512, next.0, m, asked.value);
          FoundElsewhere(fs.w.V(), g, S, Leftover(), asked, p.fptr, fptr);
        }
      }
    }

    /** What is left over is of a data sector. */
    lemma LeftoverPlace()
      requires fs.Valid()
      ensures Leftover().Some? ==> FatStart(fs.G(), fs.G().nFats) <= Leftover().value.sect < fs.G().end
    {
    }

    /** Copies bytes of the current sector out of the window. */
    method ReadThrough(left: nat) returns (piece: seq<byte>)
      requires Sound() && Facing(fs.G(), chain, at, P()) && 0 < left && fptr + left <= fsize
      modifies this`fptr, fs.w
      ensures Sound() && fs.w.V() == old(fs.w.V()) && (old(fs.w.Fresh()) ==> fs.w.Fresh())
      ensures 0 < |piece| <= left && fptr == old(fptr) + |piece| && (|piece| < left ==> fptr % 512 == 0)
      ensures Standing(fs.G(), chain, at, P()) && piece == old(FoundBy(Some(currSect)))[old(fptr)..fptr]
      ensures fs.w.Fresh() || (fs.w.Holds(fs.v, currSect) && Leftover() == old(Leftover()))
      ensures |piece| < left ==> Bytes()[fptr..old(fptr) + left] == old(FoundBy(Some(currSect)))[fptr..old(fptr) + left]
    {
      hide Entered, Facing, EndedChain, View, BufOk, Table, Sectors, ChainOk, BytesOf, InCluster, AtTop, Writable, Orderly,
        Apparent, FirstSector, Written, FoundBytes;
      ghost var g := fs.G();
      ChainThere(fs.w.V(), g, fs.T(), chain, orgClust);
      FacingSector(fs.w.V(), g, chain, at, P());
      var n := Least(512 - fptr % 512, left);
      ThroughWindow(n);
      BehindWindow(fptr + left);
      ghost var F := FoundBy(Some(currSect));
      fs.w.MoveWindow(fs.v, currSect);
      piece := fs.w.buf.data[fptr % 512..fptr % 512 + n];
      TransferStands(g, chain, at, P(), n);
      fptr := fptr + n;
    }

    /** What the window will hold of the current sector is that stretch of the bytes found. */
    lemma ThroughWindow(n: nat)
      requires Sound() && Facing(fs.G(), chain, at, P()) && n <= 512 - fptr % 512 && fs.v < |fs.w.vols|
      requires InVolume(fs.G(), currSect)
      ensures fptr + n <= |Bytes()|
      ensures fs.w.Shown(fs.v, currSect)[fptr % 512..fptr % 512 + n] == FoundBy(Some(currSect))[fptr..fptr + n]
    {
      hide Facing, EndedChain, View, BufOk, Table, Sectors, ChainOk, BytesOf, Orderly, Apparent, Written;
      ghost var g, S, view := fs.G(), Sectors(fs.G(), chain), fs.w.V();
      ChainThere(view, g, fs.T(), chain, orgClust);
      FacingSector(view, g, chain, at, P());
      VolumeHere(view, fs.w.vols, fs.v);
      if Leftover().Some? && Leftover().value.sect == currSect {
        WrittenThere(view, g, currSect, fs.w.buf.data);
        PieceIs(Written(view, g, currSect, fs.w.buf.data), g, S, fptr, n, fs.w.buf.data);
      } else {
        PieceIs(view, g, S, fptr, n, view[g.drive][currSect]);
      }
    }

    /** Behind the current sector the bytes found are the file's. */
    lemma BehindWindow(end: nat)
      requires Sound() && Facing(fs.G(), chain, at, P()) && end <= |Bytes()|
      ensures var next: nat := fptr - fptr % 512 + 512;
        next <= end ==> FoundBy(Some(currSect))[next..end] == Bytes()[next..end]
    {
      hide Facing, EndedChain, View, BufOk, Table, Sectors, ChainOk, BytesOf, Orderly, Apparent, Written, FoundBytes;
      ghost var g, S, view := fs.G(), Sectors(fs.G(), chain), fs.w.V();
      ChainThere(view, g, fs.T(), chain, orgClust);
      FacingSector(view, g, chain, at, P());
      fs.VolumeOk();
      LeftoverPlace();
      var next: nat := fptr - fptr % 512 + 512;
      if next <= end {
        OtherSectorsBehind(g, S, fptr / 512);
        FoundElsewhere(view, g, S, Leftover(), Some(currSect), next, end);
      }
    }

    /** Reads whole sectors past the window, as many as are wanted and left of the cluster. */
    method ReadRun(left: nat) returns (piece: seq<byte>)
      requires Sound() && Facing(fs.G(), chain, at, P()) && fptr % 512 == 0 && 512 <= left && fptr + left <= fsize
        && !fs.w.buf.dirty
      modifies this`fptr, this`csect, this`currSect
      ensures Sound() && Standing(fs.G(), chain, at, P())
      ensures var m := Least(left / 512, old(csect));
        && 1 <= m && |piece| == 512 * m && fptr == old(fptr) + 512 * m
        && currSect == old(currSect) + m - 1 && csect == old(csect) - (m - 1)
        && Consecutive(Sectors(fs.G(), chain), old(fptr) / 512, old(currSect), m)
      ensures piece == Bytes()[old(fptr)..fptr]
    {
      hide Entered, Facing, EndedChain, View, BufOk, Table, Sectors, ChainOk, BytesOf, InCluster, AtTop, Writable, Orderly,
        Apparent, FirstSector, Standing;
      ghost var g := fs.G();
      ChainThere(fs.w.V(), g, fs.T(), chain, orgClust);
      FacingRun(g, chain, at, P());
      FacingCount(g, chain, at, P());
      var cc := Least(left / 512, csect);
      FewerConsecutive(Sectors(g, chain), fptr / 512, currSect, csect, cc);
      RunInside(fs.w.V(), g, Sectors(g, chain), fptr / 512, currSect, cc);
      piece := fs.w.ReadPast(fs.v, currSect, cc);
      RunRead(fs.w.V(), g, Sectors(g, chain), fptr / 512, currSect, cc, piece);
      RunStands(g, chain, at, P(), cc);
      csect := csect - (cc - 1);
      currSect := currSect + cc - 1;
      fptr := fptr + 512 * cc;
    }

    // ----- writing -----

    /**
     At a cluster boundary, follows the chain to the next cluster or makes the chain longer. When the volume
     is full nothing changes but the sector counter, which stays zero.
     */
    method NextOrNewCluster(ghost p: Pos) returns (r: Advance, sect: nat)
      requires Sound() && fptr % 512 == 0 && p == Pos(fptr, currClust, currSect, 1) && csect == 0
      requires if fptr == 0 then AtTop(p) else Standing(fs.G(), chain, at, p)
      modifies this`csect, this`currClust, this`at, this`error, this`orgClust, this`chain, fs, fs.w
      ensures fs.Valid() && (r != Failed ==> Sound() && error == old(error))
      ensures r == Moved ==> Facing(fs.G(), chain, at, Pos(fptr, currClust, sect, csect)) && old(chain) <= chain
      ensures r == Moved ==> Grew(old(fs.w.V()), fs.w.V(), fs.G(), old(chain), chain) && TableOnly(old(fs.w.V()), fs.w.V(), fs.G())
      ensures r == FullUp ==> fs.w.V() == old(fs.w.V()) && chain == old(chain) && NoneFree(fs.T()) && csect == 0
      ensures r == FullUp ==> Stuck(fs.G(), chain, Pos(fptr, currClust, currSect, csect))
      ensures r == Failed ==> error && TableBroken(old(fs.T()))
      ensures r == Moved ==> if fptr == 0 && 2 <= old(orgClust) then
          && sect == FirstSector(fs.G(), orgClust) && csect == fs.G().csize && orgClust == old(orgClust) && chain == old(chain)
          && fs.w.buf == old(fs.w.buf) && fs.w.disks == old(fs.w.disks)
        else fs.OnTable()
      ensures r == FullUp && fptr == 0 ==> orgClust == old(orgClust) == 0
      ensures old(fs.w.Fresh()) ==> fs.w.Fresh()
    {
      hide Standing, Facing, View, BufOk, Table, Sectors, ChainOk, Grew, NoneFree, Stuck, AtTop, TableOnly, Orderly,
        Apparent, FirstSector, InFirstFat;
      sect := 0;
      var clust;
      if fptr == 0 {
        clust := FirstCluster(p);
      } else {
        clust := FollowingCluster(p);
      }
      if clust == 0 {
        return FullUp, sect;
      }
      if clust == 1 || clust >= fs.G().maxClust {
        error := true;
        return Failed, sect;
      }
      sect := Enter(clust);
      if fptr == 0 {
        TopFaces(fs.G(), chain, p, Pos(0, clust, sect, csect));
        at := 0;
      } else {
        NextClusterFaces(fs.G(), chain, at, p, Pos(fptr, clust, sect, csect));
        at := at + 1;
      }
      r := Moved;
    }

    /** The first cluster of the file, which gets one if it has none. */
    method FirstCluster(ghost p: Pos) returns (clust: nat)
      requires Sound() && fptr == 0 && AtTop(p) && p == Pos(fptr, currClust, currSect, 1) && csect == 0
      modifies this`orgClust, this`chain, fs, fs.w
      ensures fs.Valid() && (clust != 1 ==> Sound())
      ensures clust >= 2 ==> chain != [] && clust == chain[0] && clust < fs.G().maxClust
      ensures clust >= 2 ==>
        Grew(old(fs.w.V()), fs.w.V(), fs.G(), old(chain), chain) && TableOnly(old(fs.w.V()), fs.w.V(), fs.G()) && old(chain) <= chain
      ensures clust == 0 ==> fs.w.V() == old(fs.w.V()) && chain == old(chain) && NoneFree(fs.T())
      ensures clust == 0 ==> Stuck(fs.G(), chain, Pos(fptr, currClust, currSect, csect)) && orgClust == old(orgClust) == 0
      ensures clust == 1 ==> TableBroken(old(fs.T()))
      ensures clust >= 2 ==> orgClust == clust && if old(orgClust) == 0 then fs.OnTable() else
        orgClust == old(orgClust) && chain == old(chain) && fs.w.buf == old(fs.w.buf) && fs.w.disks == old(fs.w.disks)
      ensures old(orgClust) == 0 || 2 <= old(orgClust)
      ensures old(fs.w.Fresh()) ==> fs.w.Fresh()
    {
      hide EndedChain, View, BufOk, Table, ChainOk, Stretched, Grew, NoneFree, Stuck, CountRight, AtTop, TableOnly,
        Sectors, Orderly, Apparent, InFirstFat;
      ghost var g, t, view := fs.G(), fs.T(), fs.w.V();
      TopChain(g, t, chain, orgClust);
      clust := orgClust;
      if clust == 0 {
        ghost var last := fs.lastClust;
        clust := CreateChain(fs, 0);
        FirstTaken(view, fs.w.V(), g, t, fs.T(), clust, last, orgClust, p);
        OneClusterSize(g, clust);
        orgClust := clust;
        if clust >= 2 {
          chain := [clust];
        }
      } else {
        GrewNot(view, g, chain);
        TableOnlySame(view, g);
      }
    }

    /** The cluster after the current one; the chain gets longer if that is its last. */
    method FollowingCluster(ghost p: Pos) returns (clust: nat)
      requires Sound() && fptr % 512 == 0 && Standing(fs.G(), chain, at, p)
        && p == Pos(fptr, currClust, currSect, 1) && csect == 0
      modifies this`chain, fs, fs.w
      ensures fs.Valid() && (clust != 1 ==> Sound())
      ensures clust >= 2 ==> at + 1 < |chain| && clust == chain[at + 1] && clust < fs.G().maxClust && Standing(fs.G(), chain, at, p)
      ensures clust >= 2 ==>
        Grew(old(fs.w.V()), fs.w.V(), fs.G(), old(chain), chain) && TableOnly(old(fs.w.V()), fs.w.V(), fs.G()) && old(chain) <= chain
      ensures clust == 0 ==> fs.w.V() == old(fs.w.V()) && chain == old(chain) && NoneFree(fs.T())
      ensures clust == 0 ==> Stuck(fs.G(), chain, Pos(fptr, currClust, currSect, csect))
      ensures clust == 1 ==> TableBroken(old(fs.T()))
      ensures (clust >= 2 ==> fs.OnTable()) && (old(fs.w.Fresh()) ==> fs.w.Fresh())
    {
      hide EndedChain, View, BufOk, Table, ChainOk, Stretched, Grew, NoneFree, Stuck, CountRight, Standing,
        TableOnly, Sectors, Orderly, Apparent, InFirstFat;
      ghost var g, t, view := fs.G(), fs.T(), fs.w.V();
      AnotherCluster(g, t, chain, orgClust, at, p);
      ghost var last := fs.lastClust;
      clust := CreateChain(fs, currClust);
      NextTaken(view, fs.w.V(), g, t, fs.T(), chain, orgClust, at, clust, last, p);
      MoreSize(g, chain, clust);
      StandingMore(g, chain, chain + [clust], at, p);
      if clust >= 2 && at + 1 == |chain| {
        chain := chain + [clust];
      }
    }

    /** At a sector boundary, moves to the sector that the next byte to write goes to. */
    method AdvanceWriting() returns (r: Advance)
      requires Sound() && fptr % 512 == 0 && Ready(fs.G(), chain, at, P())
      modifies this`csect, this`currClust, this`currSect, this`at, this`error, this`orgClust, this`chain, fs, fs.w
      ensures fs.Valid() && (r != Failed ==> Sound() && error == old(error))
      ensures r == Moved ==> Facing(fs.G(), chain, at, P()) && Grew(old(fs.w.V()), fs.w.V(), fs.G(), old(chain), chain)
      ensures r == Moved ==> old(chain) <= chain && old(Bytes()) <= Bytes()
      ensures r == FullUp ==> fs.w.V() == old(fs.w.V()) && chain == old(chain) && NoneFree(fs.T()) && Stuck(fs.G(), chain, P())
      ensures r == FullUp ==> csect == 0 && (fptr == 0 ==> orgClust == 0) && old(Onward(fs.G(), orgClust, P())).1 == 0
      ensures r == Failed ==> error && TableBroken(old(fs.T()))
      ensures r == Moved ==> !fs.w.buf.dirty
      ensures r == Moved ==> var next := old(Onward(fs.G(), orgClust, P()));
        if next.1 > 0 then
          && (currSect, csect) == next && Leftover() == old(Leftover()) && fs.w.buf == old(fs.w.buf).(dirty := false)
          && fs.w.Fresh() == old(fs.w.Fresh()) && fs.w.V() == old(fs.w.V()) && chain == old(chain) && orgClust == old(orgClust)
        else fs.OnTable()
      ensures old(fs.w.Fresh()) ==> fs.w.Fresh()
    {
      hide Standing, Entered, Facing, View, BufOk, Table, Sectors, ChainOk, Grew, NoneFree, Stuck, TableOnly,
        BytesOf, TableBroken, Orderly, Apparent, FirstSector, InFirstFat;
      ghost var g, p, view, chain0, t, org := fs.G(), P(), fs.w.V(), chain, fs.T(), orgClust;
      ReadyCounts(g, chain, at, p);
      var sect: nat;
      r := Moved;
      var more := CountDown();
      if more {
        sect := currSect + 1;
        NextSectorFaces(g, chain, at, p, Pos(p.fptr, p.clust, p.sect + 1, p.csect - 1));
        GrewNot(view, g, chain);
        TableOnlySame(view, g);
      } else {
        r, sect := NextOrNewCluster(p);
        if r != Moved {
          return;
        }
      }
      BytesKept(view, fs.w.V(), g, t, fs.T(), chain0, chain, org, orgClust);
      fs.w.MoveWindow(fs.v, 0);
      currSect := sect;
    }

    /** Whether the window will agree with the disks after the data are written: unless they are one run of sectors, it does. */
    ghost predicate WillAgree(data: seq<byte>)
      requires fs.v < |fs.w.vols|
      reads this, fs.w
    {
      var next := Onward(fs.G(), orgClust, P());
      if data == [] then fs.w.Fresh()
      else OneRun(next, fptr, |data|) ==> AgreesAfter(fs.w.Fresh(), fs.w.buf, fs.v, next.0, data)
    }

    /**
     After a part of a transfer the window agrees with the disks, and what comes next will not change that; but
     if so far sectors were written past it, one run of them, it depends on those.
     */
    ghost predicate Settled(next: (nat, nat), start: nat, data: seq<byte>, bw: nat, before: bool, buf: Buf)
      requires bw <= |data|
      reads this, fs.w
    {
      || (&& fs.w.Fresh() && !OneRun(next, start, |data|)
          && (fs.w.Holds(fs.v, currSect) || (fptr % 512 == 0 && (|data| - bw >= 512 ==> csect == 1))))
      || (&& start % 512 == 0 && next.1 > 0 && bw == 512 * Least(|data| / 512, next.1) && fs.w.buf == buf.(dirty := false)
          && fptr % 512 == 0 && (|data| - bw >= 512 ==> csect == 1)
          && (fs.w.Fresh() <==> AgreesAfter(before, buf, fs.v, next.0, data[..bw])))
    }

    /**
     What a piece leaves: the window on the sector, with the bytes of the disk, if it was less than a sector; else the
     window as it was, or on the table.
     */
    ghost predicate PieceLeaves(whole: bool, next: (nat, nat), before: bool, buf: Buf, data: seq<byte>, n: nat)
      requires n <= |data|
      reads this, fs.w
    {
      if !whole then fs.w.Fresh() && fs.w.Holds(fs.v, currSect)
      else
        && fptr % 512 == 0 && (|data| - n >= 512 ==> csect == 1)
        && if next.1 == 0 then fs.w.Fresh() else
             && n == 512 * Least(|data| / 512, next.1) && fs.w.buf == buf.(dirty := false)
             && (fs.w.Fresh() <==> AgreesAfter(before, buf, fs.v, next.0, data[..n]))
    }

    lemma SameLeaves(next: (nat, nat), before: bool, buf: Buf, before': bool, buf': Buf, data: seq<byte>, n: nat)
      requires n <= |data| && PieceLeaves(true, next, before', buf', data, n)
      requires next.1 > 0 ==> before' == before && buf' == buf.(dirty := false)
      ensures PieceLeaves(true, next, before, buf, data, n)
    {
      SameAgrees(before, buf, fs.v, next.0, data[..n]);
    }

    lemma PartLeaves(next: (nat, nat), before: bool, buf: Buf, data: seq<byte>, n: nat)
      requires n <= |data| && fs.w.Fresh() && fs.w.Holds(fs.v, currSect)
      ensures PieceLeaves(false, next, before, buf, data, n)
    {
    }

    /** Writes as much of the data as goes into one sector, or all its whole sectors for which there is room in a cluster. */
    method WritePiece(data: seq<byte>) returns (r: Advance, n: nat)
      requires Sound() && Ready(fs.G(), chain, at, P()) && 0 < |data|
      modifies this`csect, this`currClust, this`currSect, this`at, this`error, this`orgClust, this`chain, this`fptr, fs, fs.w
      ensures fs.Valid() && (r != Failed ==> Sound() && error == old(error)) && n <= |data| && fptr == old(fptr) + n
      ensures r == Moved ==> 0 < n && Standing(fs.G(), chain, at, P()) && fptr <= 512 * |Sectors(fs.G(), chain)|
      ensures r != Failed ==> Grew(old(fs.w.V()), fs.w.V(), fs.G(), old(chain), chain)
      ensures r != Failed ==> Spliced(old(Found(|data|)), Found(|data| - n), old(fptr), data[..n])
      ensures r == FullUp ==> n == 0 && NoneFree(fs.T()) && Stuck(fs.G(), chain, P()) && Found(|data|) == Bytes()
      ensures r == Failed ==> error && n == 0 && TableBroken(old(fs.T()))
      ensures r == Moved ==>
        PieceLeaves(old(fptr) % 512 == 0 && |data| >= 512, old(Onward(fs.G(), orgClust, P())), old(fs.w.Fresh()), old(fs.w.buf), data, n)
    {
      hide Entered, Facing, EndedChain, View, BufOk, Table, Sectors, ChainOk, BytesOf, InCluster, Grew, NoneFree,
        Stuck, TableBroken, Standing, Spliced, FoundBytes, FirstAsked, Onward, Orderly, Apparent, AgreesAfter, InFirstFat,
        FileHandle.FoundBy, FileHandle.Bytes, FileHandle.Found, FileHandle.PieceLeaves;
      ghost var E, view, chain0, g, p := Found(|data|), fs.w.V(), chain, fs.G(), P();
      ghost var next, before, buf := Onward(g, orgClust, p), fs.w.Fresh(), fs.w.buf;
      n := 0;
      r := Approach(|data|);
      if r == FullUp {
        StuckEnd(g, chain, P());
        NothingSpliced(E, fptr, data);
      }
      if r != Moved {
        return;
      }
      ghost var asked := FirstAsked(g, old(orgClust), p, |data|);
      ghost var view1, chain1, agreed, held := fs.w.V(), chain, fs.w.Fresh(), fs.w.buf;
      if fptr % 512 == 0 && |data| >= 512 {
        n := WholePiece(data, p, old(orgClust), E);
        SameLeaves(next, before, buf, agreed, held, data, n);
      } else {
        n := PartPiece(data, asked, E);
        PartLeaves(next, before, buf, data, n);
      }
      ChainThere(fs.w.V(), g, fs.T(), chain, orgClust);
      GrewMore(view, view1, fs.w.V(), g, chain0, chain1, chain);
    }

    /** Comes to the sector that the next byte goes to. */
    method Approach(ghost n: nat) returns (r: Advance)
      requires Sound() && Ready(fs.G(), chain, at, P()) && 0 < n
      modifies this`csect, this`currClust, this`currSect, this`at, this`error, this`orgClust, this`chain, fs, fs.w
      ensures fs.Valid() && (r != Failed ==> Sound() && error == old(error))
      ensures r == Moved ==> Facing(fs.G(), chain, at, P()) && Grew(old(fs.w.V()), fs.w.V(), fs.G(), old(chain), chain)
      ensures r == Moved ==> old(Found(n)) <= FoundBy(FirstAsked(fs.G(), old(orgClust), old(P()), n))
      ensures r == Moved ==> var next, whole := old(Onward(fs.G(), orgClust, P())), fptr % 512 == 0 && n >= 512;
        && (whole ==> !fs.w.buf.dirty)
        && (whole ==> if next.1 == 0 then fs.OnTable() else
              && (currSect, csect) == next && orgClust == old(orgClust)
              && fs.w.Fresh() == old(fs.w.Fresh()) && fs.w.buf == old(fs.w.buf).(dirty := false))
        && (!whole ==> fs.w.Fresh() || FirstAsked(fs.G(), old(orgClust), old(P()), n) == Some(currSect))
      ensures r == FullUp ==> Grew(old(fs.w.V()), fs.w.V(), fs.G(), old(chain), chain)
      ensures r == FullUp ==> NoneFree(fs.T()) && Stuck(fs.G(), chain, P()) && old(Found(n)) == Found(n) == Bytes()
      ensures r == Failed ==> error && TableBroken(old(fs.T()))
    {
      hide Entered, Facing, EndedChain, View, BufOk, Table, Sectors, ChainOk, BytesOf, InCluster, Grew, NoneFree,
        Stuck, TableBroken, Standing, FoundBytes, FirstAsked, Onward, Orderly, Apparent, InFirstFat;
      ghost var g, p := fs.G(), P();
      r := Moved;
      GrewNot(fs.w.V(), g, chain);
      FirstAskedIs(g, orgClust, p, n);
      if fptr % 512 == 0 {
        r := AdvanceWriting();
        if r == FullUp {
          StuckEnd(g, chain, P());
          StuckAsks(g, orgClust, P(), n);
        }
      } else {
        NotAtTop(g, chain, at, P());
        SameSectorFaces(g, chain, at, P());
      }
    }

    /** The next piece of a transfer, and what it means for the window. */
    method WriteNext(data: seq<byte>, bw: nat, ghost next: (nat, nat), ghost start: nat, ghost before: bool, ghost buf: Buf,
                     ghost F: seq<byte>, ghost view: seq<Disk>, ghost chain0: seq<nat>)
      returns (r: Advance, n: nat)
      requires Sound() && Ready(fs.G(), chain, at, P()) && bw < |data| && fptr == start + bw
      requires GeometryOk(view, fs.G()) && Grew(view, fs.w.V(), fs.G(), chain0, chain)
      requires Spliced(F, Found(|data| - bw), start, data[..bw])
      requires bw == 0 ==> next == Onward(fs.G(), orgClust, P()) && start == fptr && before == fs.w.Fresh() && buf == fs.w.buf
      requires bw > 0 ==> fptr > 0 && Settled(next, start, data, bw, before, buf)
      modifies this`csect, this`currClust, this`currSect, this`at, this`error, this`orgClust, this`chain, this`fptr, fs, fs.w
      ensures fs.Valid() && (r != Failed ==> Sound() && error == old(error)) && bw + n <= |data| && fptr == old(fptr) + n
      ensures r == Moved ==> 0 < n && Standing(fs.G(), chain, at, P()) && fptr <= 512 * |Sectors(fs.G(), chain)|
      ensures r == Moved ==> Settled(next, start, data, bw + n, before, buf)
      ensures r != Failed ==> Grew(view, fs.w.V(), fs.G(), chain0, chain)
      ensures r != Failed ==> Spliced(F, Found(|data| - bw - n), start, data[..bw + n])
      ensures r == FullUp ==> n == 0 && NoneFree(fs.T()) && Stuck(fs.G(), chain, P()) && Found(|data| - bw) == Bytes()
      ensures r == Failed ==> error && n == 0 && TableBroken(Table(view, fs.G()))
    {
      hide Entered, EndedChain, View, BufOk, Table, Sectors, ChainOk, BytesOf, Grew, NoneFree, Stuck, TableBroken,
        Standing, AtTop, Spliced, FirstAsked, FoundBytes, FileHandle.Found, Orderly, Apparent, AgreesAfter;
      assert data[0..] == data;
      ghost var wasHeld, wasSect, wasBuf := fs.w.Holds(fs.v, currSect), currSect, fs.w.buf;
      ghost var F1, view1, chain1, t1, org1, g := Found(|data| - bw), fs.w.V(), chain, fs.T(), orgClust, fs.G();
      r, n := WritePiece(data[bw..]);
      assert data[bw..][..n] == data[bw..bw + n];
      assert data[..bw] + data[bw..bw + n] == data[..bw + n];
      if r == Failed {
        WasBroken(view, view1, g, chain0, chain1, Table(view, g), t1, org1);
        return;
      }
      ChainThere(fs.w.V(), g, fs.T(), chain, orgClust);
      GrewMore(view, view1, fs.w.V(), g, chain0, chain1, chain);
      SplicedMore(F, F1, Found(|data| - bw - n), start, data[..bw], data[bw..bw + n]);
      if bw > 0 && wasHeld {
        AgreesBehind(wasBuf, fs.v, wasSect + 1, data[bw..bw + n]);
      }
    }

    /**
     Writes data at the position. If the volume gets full, only a part is written and the position is stuck
     behind it. All other bytes of the file stay, but for those an outdated window has of the sector first asked of it.
     */
    method Write(data: seq<byte>) returns (res: Result, bw: nat)
      requires Valid() && Ready(fs.G(), chain, at, P()) && |data| < 0x1_0000_0000
      modifies this`csect, this`currClust, this`currSect, this`at, this`error, this`orgClust, this`chain, this`fptr, this`fsize,
               this`written, fs, fs.w
      ensures fs.Valid() && bw <= |data|
      ensures res == if old(error) then RwError else if !canWrite then Denied else if error then RwError else Ok
      ensures res == RwError && !old(error) ==> TableBroken(old(fs.T()))
      ensures written == (old(written) || (res == Ok && old(fsize) + |data| < 0x1_0000_0000))
      ensures (old(error) || !canWrite || old(fsize) + |data| >= 0x1_0000_0000) ==>
        Valid() && fs.w.V() == old(fs.w.V()) && bw == 0
        && P() == old(P()) && at == old(at) && error == old(error) && fsize == old(fsize) && chain == old(chain)
        && fs.w.Fresh() == old(fs.w.Fresh())
      ensures res == Ok && old(fsize) + |data| < 0x1_0000_0000 ==>
        && Valid() && fptr == old(fptr) + bw && fsize == Most(old(fsize), fptr)
        && Spliced(old(Found(|data|)), Bytes(), old(fptr), data[..bw])
        && Grew(old(fs.w.V()), fs.w.V(), fs.G(), old(chain), chain)
        && (bw == |data| ==> if data == [] then P() == old(P()) && at == old(at) && chain == old(chain)
            else Standing(fs.G(), chain, at, P()))
        && (bw < |data| ==> NoneFree(fs.T()) && Stuck(fs.G(), chain, P()))
        && (bw == |data| ==> (fs.w.Fresh() <==> old(WillAgree(data))))
        && (bw == |data| && data != [] ==>
              HeldAfter(fs.w.buf, fs.v, P(), old(fs.w.buf), old(Onward(fs.G(), orgClust, P())), old(fptr), |data|))
    {
      hide Entered, EndedChain, View, BufOk, Table, Sectors, ChainOk, BytesOf, Grew, NoneFree, Stuck, TableBroken,
        Standing, AtTop, Spliced, FirstAsked, FoundBytes, FileHandle.Found, Orderly, Apparent, AgreesAfter, Onward, OneRun,
        FileHandle.Settled, FileHandle.Leftover, FileHandle.FoundBy, FileHandle.Bytes, HeldAfter;
      bw := 0;
      if error {
        return RwError, bw;
      }
      if !canWrite {
        return Denied, bw;
      }
      if fsize + |data| >= 0x1_0000_0000 {
        return Ok, bw;
      }
      ghost var F, view, chain0, g := Found(|data|), fs.w.V(), chain, fs.G();
      ghost var next := Onward(g, orgClust, P());
      GrewNot(view, g, chain);
      NothingFound(data);
      var r := Moved;
      while bw < |data|
        invariant r == Moved && bw <= |data| && Sound() && !error && fsize == old(fsize) && written == old(written)
        invariant if bw == 0 then P() == old(P()) && at == old(at) && chain == old(chain) else Standing(g, chain, at, P())
        invariant fptr == old(fptr) + bw <= 512 * |Sectors(g, chain)|
        invariant Grew(view, fs.w.V(), g, chain0, chain) && Spliced(F, Found(|data| - bw), old(fptr), data[..bw])
        invariant bw == 0 ==> fs.w.Fresh() == old(fs.w.Fresh()) && fs.w.buf == old(fs.w.buf) && orgClust == old(orgClust)
        invariant bw > 0 ==> Settled(next, old(fptr), data, bw, old(fs.w.Fresh()), old(fs.w.buf))
        decreases |data| - bw
      {
        var n;
        r, n := WriteNext(data, bw, next, old(fptr), old(fs.w.Fresh()), old(fs.w.buf), F, view, chain0);
        if r == Failed {
          return RwError, bw;
        }
        bw := bw + n;
        if r == FullUp {
          break;
        }
      }
      if bw == |data| {
        NothingFound(data);
        AllSettled(next, old(fptr), data, old(fs.w.Fresh()), old(fs.w.buf));
      }
      FitsChain(F, Bytes(), old(fptr), data[..bw]);
      Finish();
      res := Ok;
    }

    /**
     What a write does that follows one that found the volume full: the sector counter is 0, counts down to 255,
     and so the data go to the next sector in line, whatever that belongs to.
     */
    method WriteBehind(data: seq<byte>)
      requires Valid() && Stuck(fs.G(), chain, P()) && chain != [] && canWrite && !error
      requires 0 < |data| < 512 && fsize + |data| < 0x1_0000_0000 && currSect + 1 < fs.G().end
      modifies this`csect, this`currSect, this`fptr, this`fsize, this`written, fs.w
      ensures fs.Valid() && csect == 255 && currSect == old(currSect) + 1 && fptr == fsize == old(fptr) + |data|
      ensures FatStart(fs.G(), fs.G().nFats) <= currSect < fs.G().end && fs.G().drive < |old(fs.w.V())|
      ensures InVolume(fs.G(), currSect) && fs.w.V() ==
        Written(old(fs.w.V()), fs.G(), currSect, Patch(old(fs.w.Shown(fs.v, currSect + 1)), 0, data))
      ensures currSect in Sectors(fs.G(), chain) <==> currClust + 1 in chain
      ensures fsize > 512 * |Sectors(fs.G(), chain)| && written
    {
      hide EndedChain, View, BufOk, Table, Sectors, ChainOk, Written;
      fs.VolumeOk();
      BehindSector(fs.w.V(), fs.G(), fs.T(), chain, orgClust, P());
      var more := CountDown();
      fs.w.MoveWindow(fs.v, 0);
      currSect := currSect + 1;
      fs.VolumeOk();
      WritableInside(fs.w.V(), fs.G(), currSect);
      fs.w.MoveWindow(fs.v, currSect);
      fs.w.Store(0, data);
      fptr := fptr + |data|;
      if fptr > fsize {
        fsize := fptr;
      }
      written := true;
    }

    /** At the end of the transfer it is as was to be expected. */
    lemma AllSettled(next: (nat, nat), start: nat, data: seq<byte>, before: bool, buf: Buf)
      requires data != [] ==> Settled(next, start, data, |data|, before, buf)
      ensures data != [] ==>
        (fs.w.Fresh() <==> OneRun(next, start, |data|) ==> AgreesAfter(before, buf, fs.v, next.0, data))
      ensures data != [] ==> HeldAfter(fs.w.buf, fs.v, P(), buf, next, start, |data|)
    {
      assert data[..|data|] == data;
    }

    /** Before a transfer, and after it, the bytes found are plain. */
    lemma NothingFound(data: seq<byte>)
      requires Sound() && fptr <= |Bytes()|
      ensures Spliced(Found(|data|), Found(|data|), fptr, data[..0]) && Found(0) == Bytes()
    {
      hide Sectors, BytesOf, View, BufOk, Table;
    }

    /** Updates the size, if the file got longer, and marks the file as written. */
    method Finish()
      requires Sound() && fptr <= 512 * |Sectors(fs.G(), chain)| && fptr < 0x1_0000_0000
      modifies this`fsize, this`written
      ensures Valid() && fsize == Most(old(fsize), fptr) && Bytes() == old(Bytes()) && P() == old(P()) && written
    {
      if fptr > fsize {
        fsize := fptr;
      }
      written := true;
    }

    /** Puts the data, or what of it goes into the current sector, into the window. */
    method StoreThrough(data: seq<byte>) returns (n: nat)
      requires Sound() && Facing(fs.G(), chain, at, P()) && 0 < |data|
      modifies this`fptr, fs.w
      ensures Sound() && 0 < n <= |data| && fptr == old(fptr) + n && Standing(fs.G(), chain, at, P())
      ensures fptr <= 512 * |Sectors(fs.G(), chain)| && (n < |data| ==> fptr % 512 == 0)
      ensures Grew(old(fs.w.V()), fs.w.V(), fs.G(), chain, chain)
      ensures Spliced(old(FoundBy(Some(currSect))), Bytes(), old(fptr), data[..n])
      ensures fs.w.Fresh() && fs.w.Holds(fs.v, currSect)
    {
      hide Entered, Facing, EndedChain, View, BufOk, Table, Sectors, ChainOk, BytesOf, InCluster, Written, Grew, AtTop,
        Orderly, Apparent, FoundBytes;
      ghost var F, view, g := FoundBy(Some(currSect)), fs.w.V(), fs.G();
      ghost var S := Sectors(g, chain);
      ChainThere(view, g, fs.T(), chain, orgClust);
      FacingSector(view, g, chain, at, P());
      n := Least(512 - fptr % 512, |data|);
      StoredFound(n, data[..n]);
      StoredGrew(Patch(fs.w.Shown(fs.v, currSect), fptr % 512, data[..n]));
      fs.w.MoveWindow(fs.v, currSect);
      fs.w.Store(fptr % 512, data[..n]);
      SplicedBy(F, fptr, data[..n]);
      TransferStands(g, chain, at, P(), n);
      fptr := fptr + n;
    }

    /** Other contents of the current sector are no change outside the file. */
    lemma StoredGrew(data: Sector)
      requires Sound() && Facing(fs.G(), chain, at, P())
      ensures var view' := Written(fs.w.V(), fs.G(), currSect, data);
        GeometryOk(view', fs.G()) && Table(view', fs.G()) == fs.T() && Grew(fs.w.V(), view', fs.G(), chain, chain)
    {
      hide Facing, EndedChain, View, BufOk, Table, Sectors, ChainOk, Orderly, Apparent, Written, Grew;
      ChainThere(fs.w.V(), fs.G(), fs.T(), chain, orgClust);
      FacingSector(fs.w.V(), fs.G(), chain, at, P());
      fs.VolumeOk();
      DataChange(fs.w.V(), fs.G(), currSect, data);
      DataGrew(fs.w.V(), fs.G(), chain, currSect, data);
    }

    /** Putting bytes into what the window shows of the current sector is putting them into the bytes found. */
    lemma StoredFound(n: nat, bytes: seq<byte>)
      requires Sound() && Facing(fs.G(), chain, at, P()) && n <= 512 - fptr % 512 && fs.v < |fs.w.vols| && |bytes| == n
      requires InVolume(fs.G(), currSect)
      ensures fptr + n <= |Bytes()|
      ensures var view' := Written(fs.w.V(), fs.G(), currSect, Patch(fs.w.Shown(fs.v, currSect), fptr % 512, bytes));
        var F, S := FoundBy(Some(currSect)), Sectors(fs.G(), chain);
        OnDrive(view', fs.G(), S) && BytesOf(view', fs.G(), S) == F[..fptr] + bytes + F[fptr + n..]
    {
      hide Facing, EndedChain, View, BufOk, Table, Sectors, ChainOk, BytesOf, Orderly, Apparent, Written;
      ghost var g, S, view := fs.G(), Sectors(fs.G(), chain), fs.w.V();
      ChainThere(view, g, fs.T(), chain, orgClust);
      FacingSector(view, g, chain, at, P());
      VolumeHere(view, fs.w.vols, fs.v);
      if Leftover().Some? && Leftover().value.sect == currSect {
        var held := fs.w.buf.data;
        WrittenThere(view, g, currSect, held);
        DataChange(view, g, currSect, held);
        OnDriveStill(view, g, S, currSect, held);
        StoreInSectors(Written(view, g, currSect, held), g, S, fptr, bytes);
        WrittenOver(view, g, currSect, held, Patch(held, fptr % 512, bytes));
      } else {
        StoreInSectors(view, g, S, fptr, bytes);
      }
    }

    /** Writes within a sector that is the one first asked for, or with a window that agrees with the disk. */
    method PartPiece(data: seq<byte>, ghost asked: Option<nat>, ghost E: seq<byte>) returns (n: nat)
      requires Sound() && Facing(fs.G(), chain, at, P()) && 0 < |data| && (fs.w.Fresh() || asked == Some(currSect))
      requires E <= FoundBy(asked)
      modifies this`fptr, fs.w
      ensures Sound() && 0 < n <= |data| && fptr == old(fptr) + n && Standing(fs.G(), chain, at, P())
      ensures fptr <= 512 * |Sectors(fs.G(), chain)|
      ensures Grew(old(fs.w.V()), fs.w.V(), fs.G(), chain, chain)
      ensures Spliced(E, Found(|data| - n), old(fptr), data[..n])
      ensures fs.w.Fresh() && fs.w.Holds(fs.v, currSect)
    {
      hide Entered, Facing, EndedChain, View, BufOk, Table, Sectors, ChainOk, BytesOf, InCluster, Grew, AtTop, Orderly,
        Apparent, FoundBytes, FirstAsked, Spliced, Standing;
      ghost var E1 := FoundBy(asked);
      n := StoreThrough(data);
      PrefixSpliced(E, E1, Found(|data| - n), old(fptr), data[..n]);
    }

    /** Writes whole sectors, having come from `p` to the sector of the first. */
    method WholePiece(data: seq<byte>, ghost p: Pos, ghost org: nat, ghost E: seq<byte>) returns (n: nat)
      requires Sound() && Facing(fs.G(), chain, at, P()) && fptr % 512 == 0 && 512 <= |data| && !fs.w.buf.dirty
      requires p.fptr == fptr && var next := Onward(fs.G(), org, p);
        if next.1 > 0 then (currSect, csect) == next && org == orgClust else fs.OnTable()
      requires E <= FoundBy(FirstAsked(fs.G(), org, p, |data|))
      modifies this`fptr, this`csect, this`currSect, fs.w`disks
      ensures Sound() && Standing(fs.G(), chain, at, P()) && fptr <= 512 * |Sectors(fs.G(), chain)|
      ensures 512 <= n <= |data| && n % 512 == 0 && fptr == old(fptr) + n && (|data| - n >= 512 ==> csect == 1)
      ensures Grew(old(fs.w.V()), fs.w.V(), fs.G(), chain, chain)
      ensures Spliced(E, Found(|data| - n), old(fptr), data[..n])
      ensures PieceLeaves(true, Onward(fs.G(), org, p), old(fs.w.Fresh()), old(fs.w.buf), data, n)
    {
      hide Entered, Facing, EndedChain, View, BufOk, Table, Sectors, ChainOk, BytesOf, InCluster, WrittenRun, Grew, AtTop,
        Orderly, Apparent, FoundBytes, Standing, Outdated, Spliced, FirstAsked, Onward, AgreesAfter;
      ghost var g, asked := fs.G(), FirstAsked(fs.G(), org, p, |data|);
      ghost var next, m := Onward(fs.G(), org, p), Least(|data| / 512, csect);
      FirstAskedIs(g, org, p, |data|);
      ChainThere(fs.w.V(), g, fs.T(), chain, orgClust);
      FacingSector(fs.w.V(), g, chain, at, P());
      FacingCount(g, chain, at, P());
      if next.1 > 0 {
        AskedOn(g, org, p, Pos(fptr + 512 * m, currClust, currSect + m - 1, csect - (m - 1)), |data|, m);
      }
      ghost var E1 := FoundBy(asked);
      n := StoreRun(data, asked);
      if next.1 == 0 {
        TableAgrees(g, fs.w.buf, fs.v, old(currSect), data[..n]);
      }
      PrefixSpliced(E, E1, Found(|data| - n), old(fptr), data[..n]);
    }

    /** Writes whole sectors past the window, as many as there are and as are left of the cluster. */
    method StoreRun(data: seq<byte>, ghost asked: Option<nat>) returns (n: nat)
      requires Sound() && Facing(fs.G(), chain, at, P()) && fptr % 512 == 0 && 512 <= |data| && !fs.w.buf.dirty
      requires asked.Some? ==> asked.value >= currSect + Least(|data| / 512, csect)
      modifies this`fptr, this`csect, this`currSect, fs.w`disks
      ensures Sound() && Standing(fs.G(), chain, at, P()) && fptr <= 512 * |Sectors(fs.G(), chain)|
      ensures n == 512 * Least(|data| / 512, old(csect)) && 512 <= n <= |data| && fptr == old(fptr) + n
      ensures currSect == old(currSect) + n / 512 - 1 && csect == old(csect) - (n / 512 - 1)
      ensures Grew(old(fs.w.V()), fs.w.V(), fs.G(), chain, chain)
      ensures Spliced(old(FoundBy(asked)), FoundBy(asked), old(fptr), data[..n])
      ensures fs.w.Fresh() <==> AgreesAfter(old(fs.w.Fresh()), fs.w.buf, fs.v, old(currSect), data[..n])
    {
      hide Entered, Facing, EndedChain, View, BufOk, Table, Sectors, ChainOk, BytesOf, InCluster, WrittenRun, Grew, AtTop,
        Orderly, Apparent, FoundBytes, Standing, Outdated, Spliced;
      ghost var F, view, g, S := Bytes(), fs.w.V(), fs.G(), Sectors(fs.G(), chain);
      ghost var held := Leftover();
      ChainThere(view, g, fs.T(), chain, orgClust);
      FacingRun(g, chain, at, P());
      FacingCount(g, chain, at, P());
      var cc := Least(|data| / 512, csect);
      FewerConsecutive(S, fptr / 512, currSect, csect, cc);
      VolumeHere(view, fs.w.vols, fs.v);
      RunInside(view, g, S, fptr / 512, currSect, cc);
      n := 512 * cc;
      RunStored(view, g, S, fptr / 512, currSect, data[..n]);
      RunGrew(view, g, chain, fptr / 512, currSect, data[..n]);
      LeftoverPlace();
      fs.w.WritePast(fs.v, currSect, data[..n]);
      RunStands(g, chain, at, P(), cc);
      LeftoverPlace();
      if asked.Some? {
        DifferentSectors(g, S, fptr / 512, currSect, cc, asked.value);
      }
      RunFound(view, fs.w.V(), g, S, fptr, data[..n], held, Leftover(), asked);
      csect := csect - (cc - 1);
      currSect := currSect + cc - 1;
      fptr := fptr + n;
    }
  }

  /**
   Whether the window agrees with the disks after sectors from `s` on were written past it: if it holds one of
   them, exactly if the bytes are the same, and else if it did before.
   */
  ghost predicate AgreesAfter(before: bool, buf: Buf, v: nat, s: nat, data: seq<byte>) {
    if buf.fs == v && s <= buf.sect < s + |data| / 512 then !Outdated(buf, v, s, data) else before
  }

  /** A transfer that is one run of sectors and nothing else: from `start`, where `next` says what comes. */
  ghost predicate OneRun(next: (nat, nat), start: nat, n: nat) {
    start % 512 == 0 && n % 512 == 0 && 0 < n && n / 512 <= next.1
  }

  /** What the window holds after a transfer: the current sector if that was left halfway, and what it held after one run. */
  ghost predicate HeldAfter(now: Buf, v: nat, p: Pos, buf: Buf, next: (nat, nat), start: nat, n: nat) {
    && (p.fptr % 512 != 0 ==> p.sect != 0 && now.fs == v && now.sect == p.sect)
    && (OneRun(next, start, n) ==> now == buf.(dirty := false))
  }

  lemma AgreesBehind(buf: Buf, v: nat, s: nat, data: seq<byte>)
    requires buf.sect < s
    ensures AgreesAfter(true, buf, v, s, data)
  {
  }

  lemma SameAgrees(before: bool, buf: Buf, v: nat, s: nat, data: seq<byte>)
    ensures AgreesAfter(before, buf.(dirty := false), v, s, data) == AgreesAfter(before, buf, v, s, data)
  {
  }

  lemma TableAgrees(g: Geometry, buf: Buf, v: nat, s: nat, data: seq<byte>)
    requires InFirstFat(g, buf.sect) && FatStart(g, g.nFats) <= s && 0 < g.nFats
    ensures AgreesAfter(true, buf, v, s, data)
  {
    FatStartsGrow(g, 1, g.nFats);
  }

  lemma OnDriveStill(view: seq<Disk>, g: Geometry, S: seq<nat>, s: nat, data: Sector)
    requires GeometryOk(view, g) && OnDrive(view, g, S)
    ensures OnDrive(Written(view, g, s, data), g, S)
  {
  }

  lemma WrittenOver(view: seq<Disk>, g: Geometry, s: nat, a: Sector, b: Sector)
    requires g.drive < |view|
    ensures Written(Written(view, g, s, a), g, s, b) == Written(view, g, s, b)
  {
    WrittenTwice(view[g.drive], g, s, a, b);
  }

  /** A handle that found the volume full looks at the table first. */
  lemma StuckAsks(g: Geometry, org: nat, p: Pos, n: nat)
    requires p.csect == 0 && p.fptr % 512 == 0 && (p.fptr == 0 ==> org == 0)
    ensures FirstAsked(g, org, p, n) == None
  {
  }

  /** Writing sectors of the file one behind the other is no change outside it. */
  lemma RunGrew(view: seq<Disk>, g: Geometry, chain: seq<nat>, q: nat, s: nat, data: seq<byte>)
    requires GeometryOk(view, g) && FatOk(g) && DataSectors(g, Sectors(g, chain)) && OnDrive(view, g, Sectors(g, chain))
    requires |data| % 512 == 0 && |data| > 0 && Consecutive(Sectors(g, chain), q, s, |data| / 512)
    ensures Grew(view, WrittenRun(view, g, s, data), g, chain, chain)
  {
    hide Table, Sectors, WrittenRun, BytesOf;
    RunStored(view, g, Sectors(g, chain), q, s, data);
    RunOthers(view, g, Sectors(g, chain), q, s, data);
  }

  lemma RunMembers(S: seq<nat>, q: nat, s: nat, n: nat)
    requires Consecutive(S, q, s, n)
    ensures forall a :: s <= a < s + n ==> a in S
  {
    forall a | s <= a < s + n
      ensures a in S
    {
      assert S[q + (a - s)] == a;
    }
  }

  lemma RunOthers(view: seq<Disk>, g: Geometry, S: seq<nat>, q: nat, s: nat, data: seq<byte>)
    requires GeometryOk(view, g) && DataSectors(g, S) && OnDrive(view, g, S)
    requires |data| % 512 == 0 && |data| > 0 && Consecutive(S, q, s, |data| / 512)
    ensures OthersSame(view, WrittenRun(view, g, s, data), g, S)
  {
    hide WrittenRun;
    var view' := WrittenRun(view, g, s, data);
    RunInside(view, g, S, q, s, |data| / 512);
    RunMembers(S, q, s, |data| / 512);
    forall d: nat, a: nat {:trigger InTable(g, d, a)} | d < |view| && !InTable(g, d, a)
      ensures |view'[d]| == |view[d]| && (a < |view[d]| && !(d == g.drive && a in S) ==> view'[d][a] == view[d][a])
    {
      if a < |view[d]| && !(d == g.drive && a in S) {
        RunElsewhere(view, g, s, data, d, a);
      }
    }
  }

  /**
   What the rest of a transfer finds after sectors were written past the window: the same, with those sectors in
   it. The window cannot have become outdated in a sector that was not written.
   */
  lemma RunFound(view: seq<Disk>, view': seq<Disk>, g: Geometry, S: seq<nat>, pos: nat, bytes: seq<byte>,
                 held: Option<Held>, held': Option<Held>, asked: Option<nat>)
    requires GeometryOk(view, g) && GeometryOk(view', g) && OnDrive(view, g, S) && OnDrive(view', g, S)
    requires pos + |bytes| <= 512 * |S|
    requires BytesOf(view', g, S) == BytesOf(view, g, S)[..pos] + bytes + BytesOf(view, g, S)[pos + |bytes|..]
    requires held.Some? ==> FatStart(g, g.nFats) <= held.value.sect < g.end
    requires held'.Some? ==> FatStart(g, g.nFats) <= held'.value.sect < g.end
    requires asked.Some? ==>
      forall q :: 0 <= q < |S| && pos < 512 * (q + 1) && 512 * q < pos + |bytes| ==> S[q] != asked.value
    requires asked.Some? ==>
      ((held.Some? && asked.value == held.value.sect) || (held'.Some? && asked.value == held'.value.sect) ==> held == held')
    ensures Spliced(FoundBytes(view, g, S, held, asked), FoundBytes(view', g, S, held', asked), pos, bytes)
  {
    hide BytesOf, FoundBytes;
    var E, E', F' := FoundBytes(view, g, S, held, asked), FoundBytes(view', g, S, held', asked), BytesOf(view', g, S);
    FoundElsewhere(view', g, S, held', asked, pos, pos + |bytes|);
    assert F'[pos..pos + |bytes|] == bytes;
    forall i | 0 <= i < |E| && (i < pos || i >= pos + |bytes|)
      ensures E'[i] == E[i]
    {
      FoundAt(view, g, S, held, asked, i);
      FoundAt(view', g, S, held', asked, i);
    }
  }

  /** The sector in line behind a chain is the first one of the cluster with the next number. */
  lemma BehindSector(view: seq<Disk>, g: Geometry, t: seq<nat>, chain: seq<nat>, org: nat, p: Pos)
    requires GeometryOk(view, g) && ClustersOk(g) && |t| == g.maxClust && ChainOk(t, chain, org)
      && Stuck(g, chain, p) && chain != []
    ensures FatStart(g, g.nFats) <= p.sect + 1 && p.fptr == 512 * |Sectors(g, chain)|
    ensures p.sect + 1 in Sectors(g, chain) <==> p.clust + 1 in chain
  {
    hide Sectors, FatStart;
    ChainThere(view, g, t, chain, org);
    var c := p.clust + 1;
    assert p.sect + 1 == FirstSector(g, c);
    FirstAbove(g, c);
    if k :| 0 <= k < |chain| && chain[k] == c {
      SectorAt(g, chain, k, 0);
    }
    if q :| 0 <= q < |Sectors(g, chain)| && Sectors(g, chain)[q] == FirstSector(g, c) {
      var k, j := SectorOf(g, chain, q);
      if chain[k] < c {
        SectorsApart(g, chain[k], c);
      } else if c < chain[k] {
        SectorsApart(g, c, chain[k]);
      }
    }
  }

  lemma FacingCount(g: Geometry, chain: seq<nat>, k: nat, p: Pos)
    requires Facing(g, chain, k, p)
    ensures 1 <= p.csect <= g.csize
  {
  }

  /** One piece more, and the rest found as before. */
  lemma OnWith(F: seq<byte>, E: seq<byte>, E': seq<byte>, start: nat, a: nat, b: nat, end: nat)
    requires start <= a <= b <= end <= |F| == |E| == |E'|
    requires E[a..end] == F[a..end] && E'[b..end] == E[b..end]
    ensures E'[b..end] == F[b..end] && F[start..a] + E[a..b] == F[start..b]
  {
    forall i | a <= i < end
      ensures E[i] == F[i]
    {
      assert E[a..end][i - a] == F[a..end][i - a];
    }
  }

  /** A run of sectors of the file has nothing of a sector behind it. */
  lemma DifferentSectors(g: Geometry, S: seq<nat>, q: nat, s: nat, m: nat, x: nat)
    requires Consecutive(S, q, s, m) && x >= s + m
    ensures forall i :: 0 <= i < |S| && 512 * q < 512 * (i + 1) && 512 * i < 512 * (q + m) ==> S[i] != x
  {
  }

  lemma OtherSectorsBehind(g: Geometry, S: seq<nat>, q: nat)
    requires DataSectors(g, S) && q < |S|
    ensures forall i :: q < i < |S| ==> S[i] != S[q]
  {
  }

  /** What is asked for from within a sector, and from a place where the table is asked first. */
  lemma FirstAskedIs(g: Geometry, org: nat, p: Pos, n: nat)
    ensures n == 0 ==> FirstAsked(g, org, p, n) == None
    ensures n > 0 && p.fptr % 512 != 0 ==> FirstAsked(g, org, p, n) == Some(p.sect)
    ensures p.fptr % 512 == 0 && Onward(g, org, p).1 == 0 ==> FirstAsked(g, org, p, n) == None
    ensures p.fptr % 512 == 0 && Onward(g, org, p).1 > 0 && 0 < n < 512 ==> FirstAsked(g, org, p, n) == Some(Onward(g, org, p).0)
    ensures p.fptr > 0 && p.fptr % 512 == 0 ==> FirstAsked(g, org, p, n) != Some(p.sect)
  {
  }

  lemma WrittenThere(view: seq<Disk>, g: Geometry, s: nat, data: Sector)
    requires GeometryOk(view, g) && FatStart(g, g.nFats) <= s < g.end
    ensures s < |view[g.drive]| && Written(view, g, s, data)[g.drive][s] == data
  {
    DataSectorWritten(view, g, s, data, s);
  }

  /** A run of the file's sectors lies on the volume, behind the tables. */
  lemma RunInside(view: seq<Disk>, g: Geometry, S: seq<nat>, q: nat, s: nat, n: nat)
    requires GeometryOk(view, g) && DataSectors(g, S) && OnDrive(view, g, S) && Consecutive(S, q, s, n) && n > 0
    ensures FatStart(g, g.nFats) <= s && g.start <= s && s + n <= g.end && s + n <= |view[g.drive]|
  {
    FatStartsGrow(g, 0, g.nFats);
    assert S[q] == s && S[q + n - 1] == s + n - 1;
  }

  lemma StuckEnd(g: Geometry, chain: seq<nat>, p: Pos)
    requires Stuck(g, chain, p)
    ensures p.fptr == 512 * |Sectors(g, chain)|
  {
  }

  lemma NothingSpliced(F: seq<byte>, pos: nat, data: seq<byte>)
    requires pos <= |F|
    ensures Spliced(F, F, pos, data[..0])
  {
  }

  lemma PrefixSpliced(F: seq<byte>, F1: seq<byte>, F': seq<byte>, pos: nat, bytes: seq<byte>)
    requires F <= F1 && Spliced(F1, F', pos, bytes)
    ensures Spliced(F, F', pos, bytes)
  {
  }

  lemma SplicedBy(F: seq<byte>, pos: nat, bytes: seq<byte>)
    requires pos + |bytes| <= |F|
    ensures Spliced(F, F[..pos] + bytes + F[pos + |bytes|..], pos, bytes)
  {
  }

  /** A write after a write. */
  lemma SplicedMore(F: seq<byte>, F1: seq<byte>, F2: seq<byte>, pos: nat, a: seq<byte>, b: seq<byte>)
    requires Spliced(F, F1, pos, a) && Spliced(F1, F2, pos + |a|, b)
    ensures Spliced(F, F2, pos, a + b)
  {
    forall i | 0 <= i < |a + b|
      ensures F2[pos + i] == (a + b)[i]
    {
      if i < |a| {
        assert F1[pos..pos + |a|][i] == a[i];
      } else {
        assert F2[pos + |a|..pos + |a| + |b|][i - |a|] == b[i - |a|];
      }
    }
    assert F2[pos..pos + |a + b|] == a + b;
  }

  lemma PrefixMembers(y: seq<nat>, z: seq<nat>)
    requires y <= z
    ensures forall e :: e in y ==> e in z
  {
    forall e | e in y
      ensures e in z
    {
      var i :| 0 <= i < |y| && y[i] == e;
      assert z[i] == e;
    }
  }

  lemma OthersMore(a: seq<Disk>, b: seq<Disk>, c: seq<Disk>, g: Geometry, S: seq<nat>, S': seq<nat>)
    requires OthersSame(a, b, g, S) && OthersSame(b, c, g, S') && S <= S'
    ensures OthersSame(a, c, g, S')
  {
    PrefixMembers(S, S');
  }

  /** Writing a sector of the file is no change outside it. */
  lemma DataGrew(view: seq<Disk>, g: Geometry, chain: seq<nat>, s: nat, data: Sector)
    requires GeometryOk(view, g) && ClustersOk(g) && s in Sectors(g, chain) && FatStart(g, g.nFats) <= s < g.end
    requires GeometryOk(Written(view, g, s, data), g) && Table(Written(view, g, s, data), g) == Table(view, g)
    ensures Grew(view, Written(view, g, s, data), g, chain, chain)
  {
    hide Table, Sectors, Written;
    DataOthers(view, g, Sectors(g, chain), s, data);
  }

  lemma DataOthers(view: seq<Disk>, g: Geometry, S: seq<nat>, s: nat, data: Sector)
    requires GeometryOk(view, g) && s in S && FatStart(g, g.nFats) <= s < g.end
    ensures OthersSame(view, Written(view, g, s, data), g, S)
  {
    hide Written;
    var view' := Written(view, g, s, data);
    forall d: nat, a: nat {:trigger InTable(g, d, a)} | d < |view| && !InTable(g, d, a)
      ensures |view'[d]| == |view[d]| && (a < |view[d]| && !(d == g.drive && a in S) ==> view'[d][a] == view[d][a])
    {
      if d != g.drive {
        WrittenDrive(view, g, s, data, d);
      } else if a < |view[d]| {
        DataSectorWritten(view, g, s, data, a);
      }
    }
  }

  /** A table change and a longer chain leave the bytes there were. */
  lemma BytesKept(view: seq<Disk>, view': seq<Disk>, g: Geometry, t: seq<nat>, t': seq<nat>, chain: seq<nat>, chain': seq<nat>,
                  org: nat, org': nat)
    requires GeometryOk(view, g) && GeometryOk(view', g) && ClustersOk(g) && TableOnly(view, view', g)
      && chain <= chain'
    requires |t| == g.maxClust == |t'| && ChainOk(t, chain, org) && ChainOk(t', chain', org')
    ensures OnDrive(view, g, Sectors(g, chain)) && OnDrive(view', g, Sectors(g, chain'))
      && |Sectors(g, chain)| <= |Sectors(g, chain')|
    ensures BytesOf(view, g, Sectors(g, chain)) <= BytesOf(view', g, Sectors(g, chain'))
  {
    hide BytesOf, Sectors, TableOnly;
    ChainThere(view, g, t, chain, org);
    ChainThere(view', g, t', chain', org');
    SectorsPrefix(g, chain, chain');
    MoreSectors(view', g, Sectors(g, chain), Sectors(g, chain'));
    TableChange(view, view', g, Sectors(g, chain));
  }

  lemma {:induction false} SectorsPrefix(g: Geometry, chain: seq<nat>, chain': seq<nat>)
    requires chain <= chain'
    ensures Sectors(g, chain) <= Sectors(g, chain')
  {
    if |chain| < |chain'| {
      SectorsPrefix(g, chain, chain'[..|chain'| - 1]);
      MoreSize(g, chain'[..|chain'| - 1], chain'[|chain'| - 1]);
      assert chain' == chain'[..|chain'| - 1] + [chain'[|chain'| - 1]];
    } else {
      assert chain == chain';
    }
  }

  lemma GrewMore(a: seq<Disk>, b: seq<Disk>, c: seq<Disk>, g: Geometry, x: seq<nat>, y: seq<nat>, z: seq<nat>)
    requires Grew(a, b, g, x, y) && Grew(b, c, g, y, z) && Distinct(z)
    ensures Grew(a, c, g, x, z)
  {
    hide Table, Sectors, OthersSame;
    SectorsPrefix(g, y, z);
    OthersMore(a, b, c, g, Sectors(g, y), Sectors(g, z));
    var t, t' := Table(a, g), Table(b, g);
    forall i | |x| <= i < |z|
      ensures IsCluster(t, z[i]) && t[z[i]] == 0
    {
      if i < |y| {
        assert z[i] == y[i];
      } else {
        assert z[i] !in y;
      }
    }
    PrefixMembers(y, z);
  }

  /** `F'` is `F` with `bytes` at `pos`; it may be longer. */
  ghost predicate Spliced(F: seq<byte>, F': seq<byte>, pos: nat, bytes: seq<byte>) {
    && |F| <= |F'| && pos + |bytes| <= |F'| && F'[pos..pos + |bytes|] == bytes
    && forall i :: 0 <= i < |F| && (i < pos || i >= pos + |bytes|) ==> F'[i] == F[i]
  }

  lemma OneClusterSize(g: Geometry, c: nat)
    ensures |Sectors(g, [])| == 0
  {
  }

  lemma MoreSize(g: Geometry, chain: seq<nat>, c: nat)
    ensures |Sectors(g, chain)| <= |Sectors(g, chain + [c])| && Sectors(g, chain) <= Sectors(g, chain + [c])
  {
    assert (chain + [c])[..|chain|] == chain;
  }

  lemma StandingMore(g: Geometry, chain: seq<nat>, chain': seq<nat>, k: nat, p: Pos)
    requires Standing(g, chain, k, p) && chain <= chain'
    ensures Standing(g, chain', k, p)
  {
    assert chain'[k] == chain[k];
  }

  datatype Advance = Moved | FullUp | Failed

  /** Some cluster has the entry 1, which no chain can have. */
  ghost predicate TableBroken(t: seq<nat>) {
    exists c :: IsCluster(t, c) && t[c] == 1
  }

  /**
   The chain may have got longer by clusters that were free. Nothing else in the table changed, and outside
   the table only sectors of the chain did.
   */
  ghost predicate Grew(view: seq<Disk>, view': seq<Disk>, g: Geometry, chain: seq<nat>, chain': seq<nat>) {
    && GeometryOk(view, g) && GeometryOk(view', g) && FatOk(g) && chain <= chain'
    && var t, t' := Table(view, g), Table(view', g);
    && (forall i :: |chain| <= i < |chain'| ==> IsCluster(t, chain'[i]) && t[chain'[i]] == 0)
    && (forall c :: 0 <= c < |t| && c !in chain' ==> t'[c] == t[c])
    && OthersSame(view, view', g, Sectors(g, chain'))
  }

  ghost predicate OthersSame(view: seq<Disk>, view': seq<Disk>, g: Geometry, S: seq<nat>) {
    && |view'| == |view|
    && forall d: nat, a: nat {:trigger InTable(g, d, a)} :: d < |view| && !InTable(g, d, a) ==>
      |view'[d]| == |view[d]| && (a < |view[d]| && !(d == g.drive && a in S) ==> view'[d][a] == view[d][a])
  }

  lemma GrewNot(view: seq<Disk>, g: Geometry, chain: seq<nat>)
    requires GeometryOk(view, g) && FatOk(g)
    ensures Grew(view, view, g, chain, chain)
  {
  }

  /** A new chain of one cluster. */
  lemma FirstTaken(view: seq<Disk>, view': seq<Disk>, g: Geometry, t: seq<nat>, t': seq<nat>, clust: nat,
      last: nat, orgClust: nat, p: Pos)
    requires GeometryOk(view, g) && GeometryOk(view', g) && ClustersOk(g) && t == Table(view, g)
      && t' == Table(view', g)
    requires TableOnly(view, view', g) && Stretched(t, t', 0, clust, last) && ChainOk(t, [], orgClust)
    requires t' == t ==> view' == view
    ensures clust >= 2 ==> ChainOk(t', [clust], clust) && Grew(view, view', g, [], [clust]) && clust < g.maxClust
    ensures clust == 0 ==> view' == view && NoneFree(t) && ChainOk(t', [], clust)
    ensures clust == 0 && p.fptr == 0 ==> Stuck(g, [], p.(csect := 0))
    ensures clust == 1 ==> TableBroken(t)
  {
    hide Table;
    if clust >= 2 {
      assert [clust][|[clust]| - 1] == clust;
      TableOnlyOthers(view, view', g, Sectors(g, [clust]));
    }
  }

  lemma TableOnlyOthers(view: seq<Disk>, view': seq<Disk>, g: Geometry, S: seq<nat>)
    requires TableOnly(view, view', g)
    ensures OthersSame(view, view', g, S)
  {
  }

  /** The cluster after number `k` of a chain: the next one, or a new one at the end. */
  lemma NextTaken(view: seq<Disk>, view': seq<Disk>, g: Geometry, t: seq<nat>, t': seq<nat>, chain: seq<nat>, orgClust: nat,
                  k: nat, clust: nat, last: nat, p: Pos)
    requires GeometryOk(view, g) && GeometryOk(view', g) && ClustersOk(g) && t == Table(view, g)
      && t' == Table(view', g)
    requires ChainOk(t, chain, orgClust) && k < |chain| && TableOnly(view, view', g)
      && Stretched(t, t', chain[k], clust, last)
    requires if k + 1 < |chain| then t[chain[k]] == chain[k + 1] && 2 <= chain[k + 1] < g.maxClust else t[chain[k]] >= g.maxClust
    requires t' == t ==> view' == view
    requires Standing(g, chain, k, p) && p.fptr % 512 == 0 && p.csect == 1
    ensures k + 1 < |chain| ==> clust == chain[k + 1] && ChainOk(t', chain, orgClust) && Grew(view, view', g, chain, chain)
    ensures k + 1 == |chain| && clust >= 2 ==>
      ChainOk(t', chain + [clust], orgClust) && Grew(view, view', g, chain, chain + [clust]) && clust < g.maxClust
    ensures clust == 0 ==> view' == view && NoneFree(t) && Stuck(g, chain, p.(csect := 0))
    ensures clust == 1 ==> TableBroken(t)
  {
    hide Table, Sectors;
    if k + 1 < |chain| {
      GrewNot(view, g, chain);
    } else {
      if clust >= 2 {
        Lengthened(t, t', chain, clust);
        TableOnlyOthers(view, view', g, Sectors(g, chain + [clust]));
      }
      assert (p.fptr - 1) / 512 + 1 == p.fptr / 512;
      assert Times(g.csize, k + 1) == Times(g.csize, k) + g.csize;
    }
  }

  /** Linking a free cluster behind the last one makes a longer proper chain. */
  lemma Lengthened(t: seq<nat>, t': seq<nat>, chain: seq<nat>, c: nat)
    requires |t'| == |t| && 2 <= |t| && EndedChain(t, chain) && IsCluster(t, c) && t[c] == 0
    requires t'[c] >= |t| && t'[chain[|chain| - 1]] == c
    requires forall d :: 0 <= d < |t| && d != c && d != chain[|chain| - 1] ==> t'[d] == t[d]
    ensures EndedChain(t', chain + [c]) && c !in chain
  {
    var chain' := chain + [c];
    var n := |chain| - 1;
    forall i | 0 <= i < |chain|
      ensures chain[i] != c && (i < n ==> t'[chain[i]] == t[chain[i]] == chain[i + 1])
    {
      if i < n {
        assert chain[i] != chain[n] && t[chain[i]] == chain[i + 1];
      }
    }
    forall i, j | 0 <= i < j < |chain'|
      ensures chain'[i] != chain'[j]
    {
    }
  }

  function Most(a: nat, b: nat): nat { if a < b then b else a }

  lemma FitsChain(F: seq<byte>, F': seq<byte>, pos: nat, bytes: seq<byte>)
    requires Spliced(F, F', pos, bytes)
    ensures pos + |bytes| <= |F'|
  {
  }

  /** A broken entry found after some clusters were taken was broken before. */
  lemma WasBroken(view: seq<Disk>, view': seq<Disk>, g: Geometry, chain: seq<nat>, chain': seq<nat>,
      t: seq<nat>, t': seq<nat>, org: nat)
    requires Grew(view, view', g, chain, chain') && t == Table(view, g) && t' == Table(view', g) && |t'| >= 2
    requires ChainOk(t', chain', org) && TableBroken(t')
    ensures TableBroken(t)
  {
    hide Table, OthersSame, ChainOk;
    var c :| IsCluster(t', c) && t'[c] == 1;
    LinksNotBroken(t', chain', org);
    assert c !in chain';
  }

  lemma LinksNotBroken(t: seq<nat>, chain: seq<nat>, org: nat)
    requires |t| >= 2 && ChainOk(t, chain, org)
    ensures forall i :: 0 <= i < |chain| ==> chain[i] < |t| && t[chain[i]] != 1
  {
    forall i | 0 <= i < |chain|
      ensures chain[i] < |t| && t[chain[i]] != 1
    {
      if i < |chain| - 1 {
        assert t[chain[i]] == chain[i + 1];
      }
    }
  }

  lemma NotAtTop(g: Geometry, chain: seq<nat>, k: nat, p: Pos)
    requires Ready(g, chain, k, p) && p.fptr % 512 != 0
    ensures Standing(g, chain, k, p)
  {
  }

  lemma StuckAtEnd(g: Geometry, chain: seq<nat>, k: nat, p: Pos, fsize: nat)
    requires fsize <= 512 * |Sectors(g, chain)| && p.fptr <= fsize && ClustersOk(g)
    ensures Stuck(g, chain, p) ==> p.fptr == fsize && !Ready(g, chain, k, p)
  {
  }

  lemma ReadyCounts(g: Geometry, chain: seq<nat>, k: nat, p: Pos)
    requires ClustersOk(g) && Ready(g, chain, k, p)
    ensures 1 <= p.csect <= 129
    ensures p.fptr == 0 ==> p.csect == 1 && AtTop(p)
    ensures p.fptr != 0 && p.csect == 1 ==> Standing(g, chain, k, p)
    ensures p.fptr != 0 && p.csect > 1 ==> Standing(g, chain, k, p) || Entered(g, chain, k, p)
  {
    TimesGrow(g.csize, 0, k);
    if 0 < k {
      TimesGrow(g.csize, 1, k);
    }
  }

  lemma FacingInside(g: Geometry, chain: seq<nat>, k: nat, p: Pos)
    requires Facing(g, chain, k, p)
    ensures p.fptr < 512 * |Sectors(g, chain)|
  {
    SectorAt(g, chain, k, g.csize - p.csect);
  }

  /** A file with sectors has a first cluster, one without has none. */
  lemma TopChain(g: Geometry, t: seq<nat>, chain: seq<nat>, orgClust: nat)
    requires |t| == g.maxClust && ChainOk(t, chain, orgClust) && g.csize >= 1
    ensures chain != [] <==> 0 < |Sectors(g, chain)|
    ensures chain != [] ==> orgClust == chain[0] && 2 <= orgClust < g.maxClust
    ensures chain == [] ==> orgClust == 0
  {
    TimesGrow(g.csize, 0, |chain|);
  }

  /** At the end of a cluster the table says which is next, if the position is not the end of the chain. */
  lemma AnotherCluster(g: Geometry, t: seq<nat>, chain: seq<nat>, orgClust: nat, k: nat, p: Pos)
    requires |t| == g.maxClust && ChainOk(t, chain, orgClust) && g.csize >= 1
    requires Standing(g, chain, k, p) && p.fptr % 512 == 0 && p.csect == 1
    ensures k < |chain| && p.clust == chain[k] && 2 <= chain[k] < g.maxClust
    ensures k + 1 < |chain| <==> p.fptr < 512 * |Sectors(g, chain)|
    ensures if k + 1 < |chain| then t[chain[k]] == chain[k + 1] && 2 <= chain[k + 1] < g.maxClust else t[chain[k]] >= g.maxClust
  {
    assert (p.fptr - 1) / 512 + 1 == p.fptr / 512;
    assert Times(g.csize, k + 1) == Times(g.csize, k) + g.csize;
    TimesGrow(g.csize, k + 1, |chain|);
  }

  /** The chain starts where the file says, and ends as it should. */
  ghost predicate ChainOk(t: seq<nat>, chain: seq<nat>, orgClust: nat) {
    if chain == [] then orgClust == 0 else EndedChain(t, chain) && orgClust == chain[0]
  }

  lemma ChainThere(view: seq<Disk>, g: Geometry, t: seq<nat>, chain: seq<nat>, orgClust: nat)
    requires GeometryOk(view, g) && ClustersOk(g) && |t| == g.maxClust && ChainOk(t, chain, orgClust)
    ensures Clusters(g, chain) && Distinct(chain)
    ensures DataSectors(g, Sectors(g, chain)) && OnDrive(view, g, Sectors(g, chain))
  {
    ChainSectors(view, g, chain);
  }
}