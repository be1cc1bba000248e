/** Seeking in an open file, by small steps from the current cluster, and how it goes with reading and writing. */
module FatSeek {
  import opened Bits
  import opened Common
  import opened FatWindow
  import opened FatTable
  import opened FatChains
  import opened FatAlloc
  import opened FatLayout
  import opened FatFile

  /** The bytes in a cluster. */
  function ClusterSize(g: Geometry): (z: nat)
    ensures g.csize >= 1 ==> z > 0
  {
    512 * g.csize
  }

  // ----- quotients -----

  lemma {:induction false} TimesScaled(c: nat, k: nat)
    ensures Times(512 * c, k) == 512 * Times(c, k)
  {
    if k > 0 {
      TimesScaled(c, k - 1);
    }
  }

  /** A quotient says between which two multiples a number lies. */
  lemma QuotientBounds(x: nat, z: nat)
    requires z > 0
    ensures Times(z, x / z) <= x < Times(z, x / z) + z && (x / z) * z == Times(z, x / z)
  {
    TimesIsProduct(z, x / z);
    DivMod(x, z);
  }

  /** The number of the cluster that byte `x` is in, with clusters of `z` bytes. */
  function ClusterOf(x: nat, z: nat): (k: nat)
    requires z > 0
  {
    x / z
  }

  lemma DivMod(x: nat, z: nat)
    requires z > 0
    ensures x == (x / z) * z + x % z && x % z < z
  {
  }

  lemma QuotientUnique(x: nat, z: nat, k: nat)
    requires z > 0 && Times(z, k) <= x < Times(z, k) + z
    ensures x / z == k
  {
    QuotientBounds(x, z);
    if x / z < k {
      TimesGrow(z, x / z, k);
    } else if k < x / z {
      TimesGrow(z, k, x / z);
    }
  }

  // ----- what a seek relies on -----

  /** The current cluster is the one of the byte just before the position: cluster number `k` of the file. */
  ghost predicate Current(g: Geometry, chain: seq<nat>, k: nat, p: Pos) {
    && p.fptr > 0 && k < |chain| && p.clust == chain[k]
    && 512 * Times(g.csize, k) < p.fptr <= 512 * Times(g.csize, k) + ClusterSize(g)
  }

  lemma StandingIsCurrent(g: Geometry, chain: seq<nat>, k: nat, p: Pos)
    requires Standing(g, chain, k, p)
    ensures Current(g, chain, k, p)
  {
  }

  lemma StuckIsCurrent(g: Geometry, chain: seq<nat>, p: Pos)
    requires Stuck(g, chain, p) && p.fptr > 0 && g.csize >= 1
    ensures chain != [] && Current(g, chain, |chain| - 1, p)
  {
  }

  /** The start of the cluster that holds the byte before a position. */
  function ClusterStart(fptr: nat, z: nat): nat
    requires fptr > 0 && z > 0
  {
    TimesIsProduct(z, (fptr - 1) / z);
    ((fptr - 1) / z) * z
  }

  lemma CurrentQuotient(g: Geometry, chain: seq<nat>, k: nat, p: Pos)
    requires Current(g, chain, k, p) && g.csize >= 1
    ensures (p.fptr - 1) / ClusterSize(g) == k
    ensures k * ClusterSize(g) == ClusterStart(p.fptr, ClusterSize(g)) == 512 * Times(g.csize, k)
  {
    TimesScaled(g.csize, k);
    QuotientUnique(p.fptr - 1, ClusterSize(g), k);
    TimesIsProduct(ClusterSize(g), k);
  }

  /** The position `n` bytes further on, with the same sector. */
  function Ahead(p: Pos, n: nat): Pos { p.(fptr := p.fptr + n) }

  /**
   Where a seek goes wrong: from the start of a cluster that was reached from inside it. The current cluster
   is one ahead of the one that the position alone suggests.
   */
  lemma EnteredIsAhead(g: Geometry, chain: seq<nat>, k: nat, p: Pos)
    requires Entered(g, chain, k, p) && g.csize >= 1
    ensures p.fptr > 0 && Current(g, chain, k, Ahead(p, ClusterSize(g)))
    ensures (p.fptr - 1) / ClusterSize(g) == k - 1 && p.fptr == 512 * Times(g.csize, k - 1) + ClusterSize(g)
  {
    TimesGrow(g.csize, k - 1, k);
    TimesScaled(g.csize, k - 1);
    QuotientUnique(p.fptr - 1, ClusterSize(g), k - 1);
  }

  /** The quotient that a seek takes, with the current cluster none or one ahead of it. */
  lemma AheadQuotient(g: Geometry, chain: seq<nat>, k: nat, p: Pos, ahead: nat)
    requires g.csize >= 1 && p.fptr > 0 && (ahead == 0 || ahead == ClusterSize(g))
      && Current(g, chain, k, Ahead(p, ahead))
    ensures ((p.fptr - 1) / ClusterSize(g)) * ClusterSize(g) + ahead == 512 * Times(g.csize, k)
    ensures 0 <= (p.fptr - 1) / ClusterSize(g) == if ahead == 0 then k else k - 1
    ensures ((p.fptr - 1) / ClusterSize(g)) * ClusterSize(g) <= p.fptr - 1
  {
    var q := (p.fptr - 1) / ClusterSize(g);
    CurrentQuotient(g, chain, k, Ahead(p, ahead));
    QuotientBounds(p.fptr - 1, ClusterSize(g));
    if ahead != 0 {
      QuotientUnique(p.fptr - 1 + ahead, ClusterSize(g), q + 1);
      TimesScaled(g.csize, k);
    }
  }

  /** Sector fields that are right one cluster further on are right nowhere for the position itself. */
  lemma AheadNowhere(g: Geometry, chain: seq<nat>, k: nat, p: Pos)
    requires g.csize >= 1 && Distinct(chain) && p.fptr > 0 && Ready(g, chain, k, Ahead(p, ClusterSize(g)))
    ensures Nowhere(g, chain, p)
  {
    hide Ready;
    forall j: nat
      ensures !Ready(g, chain, j, p)
    {
      AheadElsewhere(g, chain, k, p, j);
    }
  }

  lemma AheadElsewhere(g: Geometry, chain: seq<nat>, k: nat, p: Pos, j: nat)
    requires g.csize >= 1 && Distinct(chain) && p.fptr > 0 && Ready(g, chain, k, Ahead(p, ClusterSize(g)))
    ensures !Ready(g, chain, j, p)
  {
  }

  /** The current cluster and sector are those of the position under no reading of it. */
  ghost predicate Nowhere(g: Geometry, chain: seq<nat>, p: Pos) {
    forall k: nat :: !Ready(g, chain, k, p)
  }

  /** The position at the wanted offset of cluster `k`, counted from 1, as the last lines of a seek set it. */
  function PosIn(g: Geometry, fptr: nat, clust: nat, ofs: nat): Pos
    requires 2 <= clust < g.maxClust && 0 < ofs <= ClusterSize(g)
  {
    var csect := (ofs - 1) / 512;
    Pos(fptr, clust, ClustToSect(g, clust) + csect, g.csize - csect)
  }

  lemma PosInStands(g: Geometry, chain: seq<nat>, k: nat, fptr: nat, ofs: nat)
    requires k < |chain| && Clusters(g, chain) && 0 < ofs <= ClusterSize(g) && fptr == 512 * Times(g.csize, k) + ofs
    ensures Standing(g, chain, k, PosIn(g, fptr, chain[k], ofs))
  {
    ClustToSectIs(g, chain[k]);
    var c := (ofs - 1) / 512;
    assert fptr - 1 == 512 * Times(g.csize, k) + (ofs - 1);
    assert (fptr - 1) / 512 == Times(g.csize, k) + c;
  }

  // ----- walking along the chain -----

  /** What every part of a seek keeps: the file's bytes, other files, and everything but the position. */
  ghost predicate Walked(view: seq<Disk>, view': seq<Disk>, g: Geometry, chain: seq<nat>, chain': seq<nat>) {
    Grew(view, view', g, chain, chain') && TableOnly(view, view', g)
  }

  lemma WalkedMore(a: seq<Disk>, b: seq<Disk>, c: seq<Disk>, g: Geometry, x: seq<nat>, y: seq<nat>, z: seq<nat>)
    requires Walked(a, b, g, x, y) && Walked(b, c, g, y, z) && Distinct(z)
    ensures Walked(a, c, g, x, z) && x <= z
  {
    hide Grew, TableOnly;
    GrewMore(a, b, c, g, x, y, z);
    TableOnlyTransitive(a, b, c, g);
    GrewChain(a, c, g, x, z);
  }

  lemma GrewChain(a: seq<Disk>, c: seq<Disk>, g: Geometry, x: seq<nat>, z: seq<nat>)
    requires Grew(a, c, g, x, z)
    ensures x <= z
  {
  }

  lemma WalkedNot(a: seq<Disk>, g: Geometry, x: seq<nat>)
    requires GeometryOk(a, g) && FatOk(g)
    ensures Walked(a, a, g, x, x)
  {
    GrewNot(a, g, x);
    TableOnlySame(a, g);
  }

  /** The next cluster of the file: followed when reading, made if need be when writing. */
  method NextOf(h: FileHandle, clust: nat, ghost k: nat) returns (next: nat)
    requires h.Sound() && k < |h.chain| && clust == h.chain[k]
    modifies h`chain, h.fs, h.fs.w
    ensures old(h.fs.w.Fresh()) ==> h.fs.w.Fresh()
    ensures h.fs.Valid() && (next != 1 ==> h.Sound())
    ensures 2 <= next < h.fs.G().maxClust ==> k + 1 < |h.chain| && next == h.chain[k + 1]
    ensures next >= h.fs.G().maxClust ==> !h.canWrite && k + 1 == |h.chain|
    ensures next != 1 ==> Walked(old(h.fs.w.V()), h.fs.w.V(), h.fs.G(), old(h.chain), h.chain) && old(h.chain) <= h.chain
    ensures next == 0 ==> NoneFree(h.fs.T()) && k + 1 == |h.chain| && h.chain == old(h.chain)
    ensures next == 1 ==> TableBroken(old(h.fs.T()))
  {
    hide View, BufOk, Table, Stretched, Grew, NoneFree, TableOnly, Sectors, CountRight;
    ghost var g, t, view, chain := h.fs.G(), h.fs.T(), h.fs.w.V(), h.chain;
    WalkedNot(view, g, chain);
    ChainThere(view, g, t, chain, h.orgClust);
    ChainStep(g, t, chain, h.orgClust, k);
    if h.canWrite {
      ghost var last := h.fs.lastClust;
      next := CreateChain(h.fs, clust);
      StepTaken(view, h.fs.w.V(), g, t, h.fs.T(), chain, h.orgClust, k, next, last);
      MoreSize(g, chain, next);
      if next >= 2 && k + 1 == |chain| {
        h.chain := chain + [next];
      }
    } else {
      next := h.fs.GetCluster(clust);
    }
  }

  lemma ChainStep(g: Geometry, t: seq<nat>, chain: seq<nat>, orgClust: nat, k: nat)
    requires |t| == g.maxClust && ChainOk(t, chain, orgClust) && k < |chain|
    ensures 2 <= chain[k] < g.maxClust
    ensures if k + 1 < |chain| then t[chain[k]] == chain[k + 1] && 2 <= chain[k + 1] < g.maxClust else t[chain[k]] >= g.maxClust
  {
  }

  /** The cluster after number `k` of a chain: the next one, or a new one at the end. */
  lemma StepTaken(view: seq<Disk>, view': seq<Disk>, g: Geometry, t: seq<nat>, t': seq<nat>, chain: seq<nat>, orgClust: nat,
                  k: nat, clust: nat, last: nat)
    requires GeometryOk(view, g) && GeometryOk(view', g) && ClustersOk(g) && t == Table(view, g)
      && t' == Table(view', g)
    requires ChainOk(t, chain, orgClust) && k < |chain| && TableOnly(view, view', g)
      && Stretched(t, t', chain[k], clust, last)
    requires if k + 1 < |chain| then t[chain[k]] == chain[k + 1] && 2 <= chain[k + 1] < g.maxClust else t[chain[k]] >= g.maxClust
    requires t' == t ==> view' == view
    ensures k + 1 < |chain| ==> clust == chain[k + 1] && ChainOk(t', chain, orgClust) && Grew(view, view', g, chain, chain)
    ensures k + 1 == |chain| && clust >= 2 ==>
      ChainOk(t', chain + [clust], orgClust) && Grew(view, view', g, chain, chain + [clust]) && clust < g.maxClust
    ensures clust == 0 ==> view' == view && NoneFree(t) && k + 1 == |chain|
    ensures clust == 1 ==> TableBroken(t)
  {
    hide Table, Sectors;
    if k + 1 < |chain| {
      GrewNot(view, g, chain);
    } else if clust >= 2 {
      Lengthened(t, t', chain, clust);
      TableOnlyOthers(view, view', g, Sectors(g, chain + [clust]));
    }
  }

  /**
   The walk has reached cluster number `at`, with `ofs` bytes still to go. A walk that started wrong is one
   cluster ahead of its position.
   */
  ghost predicate AtCluster(h: FileHandle, clust: nat, ofs: nat, target: nat, ahead: nat)
    requires h.fs.v < |h.fs.w.vols|
    reads h
  {
    && h.at < |h.chain| && clust == h.chain[h.at] && 0 < ofs
    && h.fptr + ahead == 512 * Times(h.fs.G().csize, h.at) && h.fptr + ofs == target
  }

  ghost predicate FullUpTo(h: FileHandle, ofs: nat)
    reads h, h.fs.w
    requires h.fs.Valid()
  {
    NoneFree(h.fs.T()) && h.at == |h.chain| - 1 && ofs == ClusterSize(h.fs.G())
  }

  /** Skips whole clusters until the rest lies in the current one, or the volume is full. */
  method SkipClusters(h: FileHandle, first: nat, ofs0: nat, ghost target: nat, ghost ahead: nat) returns (res: Result, ofs: nat)
    requires h.Sound() && AtCluster(h, first, ofs0, target, ahead) && (h.canWrite || target <= h.fsize)
    modifies h`chain, h`at, h`currClust, h`fptr, h`error, h.fs, h.fs.w
    ensures old(h.fs.w.Fresh()) ==> h.fs.w.Fresh()
    ensures h.fs.Valid() && (res == Ok ==> h.Sound() && h.error == old(h.error))
    ensures res == Ok ==> h.at < |h.chain| && h.currClust == h.chain[h.at] && 0 < ofs <= ClusterSize(h.fs.G())
    ensures res == Ok ==> h.fptr + ahead == 512 * Times(h.fs.G().csize, h.at)
    ensures res == Ok ==> h.fptr + ofs == target || (h.fptr + ofs < target && FullUpTo(h, ofs))
    ensures res == Ok ==> Walked(old(h.fs.w.V()), h.fs.w.V(), h.fs.G(), old(h.chain), h.chain) && old(h.chain) <= h.chain
    ensures res != Ok ==> res == RwError && h.error && (TableBroken(old(h.fs.T())) || (ahead > 0 && !h.canWrite))
  {
    hide View, BufOk, Orderly, Apparent, Table, NoneFree, Sectors, Walked, TableBroken, ChainOk, FatOk, EndedChain, Times;
    var g := h.fs.G();
    ghost var view, chain := h.fs.w.V(), h.chain;
    var clust: nat := first;
    ofs := ofs0;
    res := Ok;
    WalkedNot(view, g, chain);
    while true
      invariant h.Sound() && AtCluster(h, clust, ofs, target, ahead) && res == Ok && h.error == old(h.error)
      invariant old(h.fs.w.Fresh()) ==> h.fs.w.Fresh()
      invariant Walked(view, h.fs.w.V(), g, chain, h.chain) && chain <= h.chain
      decreases ofs
    {
      h.currClust := clust;
      if ofs <= ClusterSize(g) {
        break;
      }
      ghost var k, view1, chain1, t1, org1 := h.at, h.fs.w.V(), h.chain, h.fs.T(), h.orgClust;
      RoomAhead(g, h.chain, k, h.fptr, ofs, target, h.fsize, ahead);
      clust := NextOf(h, clust, k);
      if clust != 1 {
        ChainThere(h.fs.w.V(), g, h.fs.T(), h.chain, h.orgClust);
        WalkedMore(view, view1, h.fs.w.V(), g, chain, chain1, h.chain);
      }
      if clust == 0 {
        ofs := ClusterSize(g);
        break;
      }
      if clust < 2 || clust >= h.fs.G().maxClust {
        if clust == 1 {
          WalkedBroken(view, view1, g, chain, chain1, Table(view, g), t1, org1);
        }
        h.error := true;
        return RwError, ofs;
      }
      ofs := PassCluster(h, ofs, ahead);
    }
  }

  /** Moves the position over a whole cluster. */
  method PassCluster(h: FileHandle, ofs: nat, ghost ahead: nat) returns (rest: nat)
    requires h.fs.v < |h.fs.w.vols| && h.fptr + ahead == 512 * Times(h.fs.G().csize, h.at)
      && ofs > ClusterSize(h.fs.G())
    modifies h`fptr, h`at
    ensures h.fptr + ahead == 512 * Times(h.fs.G().csize, h.at) && h.at == old(h.at) + 1
    ensures h.fptr + rest == old(h.fptr) + ofs && rest == ofs - ClusterSize(h.fs.G())
  {
    h.fptr := h.fptr + ClusterSize(h.fs.G());
    h.at := h.at + 1;
    rest := ofs - ClusterSize(h.fs.G());
  }

  lemma WalkedBroken(view: seq<Disk>, view': seq<Disk>, g: Geometry, chain: seq<nat>, chain': seq<nat>,
      t: seq<nat>, t': seq<nat>, org: nat)
    requires GeometryOk(view, g) && GeometryOk(view', g) && FatOk(g)
    requires Walked(view, view', g, chain, chain') && t == Table(view, g) && t' == Table(view', g)
    requires ChainOk(t', chain', org) && TableBroken(t')
    ensures TableBroken(t)
  {
    hide Grew, Table;
    WasBroken(view, view', g, chain, chain', t, t', org);
  }

  /** With more than a cluster to go inside the file there is a next cluster. */
  lemma RoomAhead(g: Geometry, chain: seq<nat>, k: nat, fptr: nat, ofs: nat, target: nat, fsize: nat, ahead: nat)
    requires k < |chain| && fptr + ahead == 512 * Times(g.csize, k) && fptr + ofs == target && ofs > ClusterSize(g)
    requires fsize <= 512 * |Sectors(g, chain)|
    ensures target <= fsize && ahead == 0 ==> k + 1 < |chain|
  {
    assert Times(g.csize, k + 1) == Times(g.csize, k) + g.csize;
  }

  // ----- seeking -----

  /** Gives a file without clusters its first one. */
  method FirstOf(h: FileHandle) returns (clust: nat)
    requires h.Sound() && h.chain == []
    modifies h`chain, h`orgClust, h.fs, h.fs.w
    ensures old(h.fs.w.Fresh()) ==> h.fs.w.Fresh()
    ensures h.fs.Valid() && (clust != 1 ==> h.Sound())
    ensures clust >= 2 ==> h.chain == [clust]
    ensures clust != 1 ==> Walked(old(h.fs.w.V()), h.fs.w.V(), h.fs.G(), [], h.chain)
    ensures clust == 0 ==> h.chain == [] && NoneFree(h.fs.T())
    ensures clust == 1 ==> TableBroken(old(h.fs.T()))
  {
    hide View, BufOk, Table, Stretched, Grew, NoneFree, TableOnly, Sectors, CountRight, EndedChain;
    ghost var g, t, view, org := h.fs.G(), h.fs.T(), h.fs.w.V(), h.orgClust;
    ghost var last := h.fs.lastClust;
    clust := CreateChain(h.fs, 0);
    FirstTaken(view, h.fs.w.V(), g, t, h.fs.T(), clust, last, org, Pos(0, 0, 0, 0));
    OneClusterSize(g, clust);
    WalkedNot(view, g, []);
    if clust != 1 {
      h.orgClust := clust;
    }
    if clust >= 2 {
      h.chain := [clust];
    }
  }

  /** The position after a seek across clusters: in cluster `at`, at its byte `ofs`, counted from 1. */
  ghost predicate Arrived(h: FileHandle, ofs: nat, target: nat, ahead: nat)
    reads h, h.fs.w
  {
    && h.Sound() && 0 < ofs <= ClusterSize(h.fs.G()) && h.at < |h.chain| && h.currClust == h.chain[h.at]
    && h.fptr + ahead == 512 * Times(h.fs.G().csize, h.at) + ofs
    && (h.fptr == target || (h.fptr < target && FullUpTo(h, ofs)))
  }

  /** The volume is full, and the file has no clusters at all. */
  ghost predicate NowhereToGo(h: FileHandle)
    reads h, h.fs.w
  {
    h.Sound() && h.chain == [] && h.fptr == 0 && NoneFree(h.fs.T())
  }

  /** Seeks to another cluster: onward from the current one, or from the top of the file. */
  method SeekFar(h: FileHandle, target: nat, ghost ahead: nat) returns (res: Result, ofs: nat)
    requires h.Sound() && 0 < target && (h.canWrite || target <= h.fsize) && Leaves(h, target, ahead)
    modifies h, h.fs, h.fs.w
    ensures h.written == old(h.written) && h.fsize == old(h.fsize)
    ensures old(h.fs.w.Fresh()) ==> h.fs.w.Fresh()
    ensures h.fs.Valid() && (res == Ok ==> h.error == old(h.error) && h.fsize == old(h.fsize))
    ensures res == Ok ==> Arrived(h, ofs, target, ahead) || (NowhereToGo(h) && ahead == 0)
    ensures res == Ok ==> Walked(old(h.fs.w.V()), h.fs.w.V(), h.fs.G(), old(h.chain), h.chain) && old(h.chain) <= h.chain
    ensures res != Ok ==> res == RwError && h.error && (TableBroken(old(h.fs.T())) || (ahead > 0 && !h.canWrite))
  {
    hide View, BufOk, Orderly, Apparent, Table, NoneFree, Sectors, Walked, TableBroken, ChainOk, FatOk, EndedChain, Times;
    ghost var g, view, chain := h.fs.G(), h.fs.w.V(), h.chain;
    TopChain(g, h.fs.T(), chain, h.orgClust);
    WalkedNot(view, g, chain);
    assert Times(g.csize, 0) == 0 by {
      TimesNone(g.csize);
    }
    var clust := StartSeek(h, target, ahead);
    ofs := target - h.fptr;
    res := Ok;
    if clust == 0 {
      clust := FirstOf(h);
      if clust == 1 {
        h.error := true;
        return RwError, ofs;
      }
    }
    if clust != 0 {
      ghost var view1, chain1, t1, org1 := h.fs.w.V(), h.chain, h.fs.T(), h.orgClust;
      res, ofs := SkipClusters(h, clust, ofs, target, ahead);
      if res != Ok {
        if TableBroken(t1) {
          WalkedBroken(view, view1, g, chain, chain1, Table(view, g), t1, org1);
        }
        return;
      }
      ChainThere(h.fs.w.V(), g, h.fs.T(), h.chain, h.orgClust);
      WalkedMore(view, view1, h.fs.w.V(), g, chain, chain1, h.chain);
      h.fptr := h.fptr + ofs;
    }
  }

  /** A seek onward leaves from the cluster that belongs to the position, or from the one after it. */
  ghost predicate Leaves(h: FileHandle, target: nat, ahead: nat)
    requires h.fs.v < |h.fs.w.vols|
    reads h
  {
    && (ahead == 0 || (ahead == ClusterSize(h.fs.G()) && h.fptr > 0 && target > h.fptr))
    && (h.fptr > 0 && target > h.fptr ==> Current(h.fs.G(), h.chain, h.at, Ahead(h.P(), ahead)))
  }

  /** Where a seek starts: at the current cluster to go onward, else at the first one. */
  method StartSeek(h: FileHandle, target: nat, ghost ahead: nat) returns (clust: nat)
    requires h.Sound() && 0 < target && Leaves(h, target, ahead)
    modifies h`csect, h`fptr, h`at
    ensures h.Sound() && h.fptr < target && (clust == 0 <==> h.chain == []) && (clust == 0 ==> h.fptr == h.at == 0)
    ensures clust != 0 ==> AtCluster(h, clust, target - h.fptr, target, ahead)
    ensures clust == 0 ==> ahead == 0
  {
    hide View, BufOk, Table, Sectors, EndedChain;
    ghost var g := h.fs.G();
    TopChain(g, h.fs.T(), h.chain, h.orgClust);
    h.csect := 1;
    if h.fptr != 0 && target > h.fptr {
      AheadQuotient(g, h.chain, h.at, h.P(), ahead);
      ChainThere(h.fs.w.V(), g, h.fs.T(), h.chain, h.orgClust);
      h.fptr := ((h.fptr - 1) / ClusterSize(h.fs.G())) * ClusterSize(h.fs.G());
      clust := h.currClust;
    } else {
      h.fptr, h.at := 0, 0;
      clust := h.orgClust;
    }
  }

  /** The sector fields for the byte `ofs` of the current cluster, counted from 1; byte 0 is before its first sector. */
  method SetSector(h: FileHandle, ofs: nat)
    requires h.fs.Valid() && ClustersOk(h.fs.G())
    modifies h`currSect, h`csect
    ensures 2 <= h.currClust < h.fs.G().maxClust && 0 < ofs <= ClusterSize(h.fs.G()) ==>
      h.P() == PosIn(h.fs.G(), h.fptr, h.currClust, ofs)
    ensures 2 <= h.currClust < h.fs.G().maxClust && ofs == 0 ==>
      h.currSect + 1 == ClustToSect(h.fs.G(), h.currClust) && h.csect == h.fs.G().csize + 1
  {
    hide ClustToSect, AsChar, View, BufOk;
    SectPositive(h.fs.w.V(), h.fs.G(), h.currClust);
    CharIs(h.fs.G().csize, ofs);
    var csect := AsChar(((ofs - 1) % 0x1_0000_0000) / 512);
    var sect := ClustToSect(h.fs.G(), h.currClust) + csect;
    h.currSect := if sect < 0 then sect + 0x1_0000_0000 else sect;
    h.csect := (h.fs.G().csize - csect) % 256;
  }

  lemma SectPositive(view: seq<Disk>, g: Geometry, c: nat)
    requires GeometryOk(view, g) && ClustersOk(g)
    ensures 2 <= c < g.maxClust ==> ClustToSect(g, c) > 0
  {
    FatStartsGrow(g, 1, g.nFats);
    if 2 <= c < g.maxClust {
      ClustToSectIs(g, c);
      FirstAbove(g, c);
    }
  }

  lemma CharIs(csize: nat, ofs: nat)
    requires 1 <= csize <= 128
    ensures 0 < ofs <= 512 * csize ==> AsChar(((ofs - 1) % 0x1_0000_0000) / 512) == (ofs - 1) / 512 < csize
    ensures ofs == 0 ==> AsChar(((ofs - 1) % 0x1_0000_0000) / 512) == -1
  {
  }

  lemma TimesNone(z: nat)
    ensures Times(z, 0) == 0
  {
  }

  /** The signed byte with the low bits of a number. */
  function AsChar(x: nat): (r: int)
    ensures -128 <= r < 128
  {
    if x % 256 < 128 then x % 256 else x % 256 - 256
  }

  /** Where a seek to `ofs` leads: readers stop at the end of the file. */
  function Target(fsize: nat, canWrite: bool, ofs: nat): nat {
    if ofs > fsize && !canWrite then fsize else ofs
  }

  /** The program takes the target to be in the same cluster. Position 0 less one is the highest number there is. */
  ghost predicate SameCluster(g: Geometry, fptr: nat, target: nat)
    requires g.csize >= 1
  {
    target / ClusterSize(g) == ((fptr - 1) % 0x1_0000_0000) / ClusterSize(g)
  }

  /**
   The seeks that go right from where the position stands. From the top, a target in the cluster of the highest
   number must find that cluster still current; a cluster entered at its start must be left for a cluster
   before the one before it.
   */
  ghost predicate SeekSafe(g: Geometry, chain: seq<nat>, k: nat, p: Pos, target: nat)
    requires g.csize >= 1
  {
    || target == 0
    || (p.fptr == 0 && (SameCluster(g, 0, target) ==> StillCurrent(g, chain, p, target)))
    || Standing(g, chain, k, p)
    || (Entered(g, chain, k, p) && (target == p.fptr || target < 512 * Times(g.csize, k - 1)))
    || (Stuck(g, chain, p) && p.fptr > 0)
  }

  ghost predicate StillCurrent(g: Geometry, chain: seq<nat>, p: Pos, target: nat)
    requires g.csize >= 1
  {
    ClusterOf(target, ClusterSize(g)) < |chain| && p.clust == chain[ClusterOf(target, ClusterSize(g))]
  }

  ghost predicate Safe(h: FileHandle, ofs: nat)
    requires h.Sound()
    reads h, h.fs.w
  {
    SeekSafe(h.fs.G(), h.chain, h.at, h.P(), Target(h.fsize, h.canWrite, ofs))
  }

  /** How many bytes the current cluster is ahead of the position that a seek takes it for. */
  function Lead(g: Geometry, p: Pos, safe: bool): nat {
    if safe || p.fptr == 0 then 0 else ClusterSize(g)
  }

  /** The number of the current cluster. */
  ghost function Seat(g: Geometry, chain: seq<nat>, k: nat, p: Pos, target: nat): nat
    requires g.csize >= 1
  {
    if p.fptr == 0 then ClusterOf(target, ClusterSize(g)) else if Stuck(g, chain, p) && chain != [] then |chain| - 1 else k
  }

  /** What both branches of a seek start from. */
  lemma Leaving(g: Geometry, chain: seq<nat>, k: nat, p: Pos, target: nat, ahead: nat)
    requires ClustersOk(g) && p.fptr < 0x1_0000_0000 && target != 0 && (Ready(g, chain, k, p) || Stuck(g, chain, p))
    requires ahead == Lead(g, p, SeekSafe(g, chain, k, p, target))
    ensures var j := Seat(g, chain, k, p, target);
      if SameCluster(g, p.fptr, target) then
        if p.fptr > 0 || StillCurrent(g, chain, p, target)
          then InSeat(g, chain, j, p.clust, target, ahead) && (p.fptr == 0 ==> SeekSafe(g, chain, k, p, target))
          else !SeekSafe(g, chain, k, p, target)
      else
        && (ahead == 0 || (p.fptr > 0 && target > p.fptr)) && (p.fptr == 0 ==> SeekSafe(g, chain, k, p, target))
        && (p.fptr > 0 && target > p.fptr ==> Current(g, chain, j, Ahead(p, ahead)))
  {
    hide SameCluster;
    if p.fptr == 0 {
      TimesGrow(g.csize, 0, k);
    } else {
      if Stuck(g, chain, p) {
        StuckAlone(g, chain, k, p);
      }
      var j := Seat(g, chain, k, p, target);
      if SeekSafe(g, chain, k, p, target) {
        SafeSeek(g, chain, j, p, target);
      } else {
        UnsafeSeek(g, chain, k, p, target);
        QuotientNext(target, ClusterSize(g));
      }
    }
  }

  lemma QuotientNext(x: nat, z: nat)
    requires z > 0
    ensures (x + z) / z == x / z + 1
  {
    QuotientBounds(x, z);
    QuotientUnique(x + z, z, x / z + 1);
  }

  lemma StuckAlone(g: Geometry, chain: seq<nat>, k: nat, p: Pos)
    requires g.csize >= 1 && p.fptr > 0 && Stuck(g, chain, p)
    ensures chain != [] && !Ready(g, chain, k, p)
  {
  }

  /** A seek inside the cluster taken to be the same stays in it, and one onward leaves from the right cluster. */
  lemma SafeSeek(g: Geometry, chain: seq<nat>, k: nat, p: Pos, target: nat)
    requires ClustersOk(g) && SeekSafe(g, chain, k, p, target) && 0 < p.fptr < 0x1_0000_0000 && target != 0
    requires Stuck(g, chain, p) ==> k == |chain| - 1
    ensures SameCluster(g, p.fptr, target) ==> k < |chain| && p.clust == chain[k] && target / ClusterSize(g) == k
    ensures target > p.fptr ==> Current(g, chain, k, p)
  {
    if Standing(g, chain, k, p) {
      StandingIsCurrent(g, chain, k, p);
      CurrentQuotient(g, chain, k, p);
    } else if Stuck(g, chain, p) {
      StuckIsCurrent(g, chain, p);
      CurrentQuotient(g, chain, k, p);
    } else {
      EnteredSeek(g, chain, k, p, target);
    }
  }

  lemma EnteredSeek(g: Geometry, chain: seq<nat>, k: nat, p: Pos, target: nat)
    requires g.csize >= 1 && Entered(g, chain, k, p) && p.fptr < 0x1_0000_0000
    requires target == p.fptr || target < 512 * Times(g.csize, k - 1)
    ensures !SameCluster(g, p.fptr, target) && target <= p.fptr
  {
    EnteredIsAhead(g, chain, k, p);
    TimesScaled(g.csize, k - 1);
    TimesScaled(g.csize, k);
    QuotientBounds(target, ClusterSize(g));
    if target == p.fptr {
      QuotientUnique(target, ClusterSize(g), k);
    }
  }

  lemma UnsafeIsEntered(g: Geometry, chain: seq<nat>, k: nat, p: Pos, target: nat)
    requires g.csize >= 1 && !SeekSafe(g, chain, k, p, target) && 0 < p.fptr
      && (Ready(g, chain, k, p) || Stuck(g, chain, p))
    ensures Entered(g, chain, k, p) && target != p.fptr && 512 * Times(g.csize, k - 1) <= target
  {
    hide Standing, Stuck;
    assert !AtTop(p);
    assert Entered(g, chain, k, p);
  }

  /** All other seeks are from an entered cluster, and are taken to start in the one before it. */
  lemma UnsafeSeek(g: Geometry, chain: seq<nat>, k: nat, p: Pos, target: nat)
    requires ClustersOk(g) && !SeekSafe(g, chain, k, p, target) && 0 < p.fptr < 0x1_0000_0000
    requires Ready(g, chain, k, p) || Stuck(g, chain, p)
    ensures k < |chain| && p.clust == chain[k] && Current(g, chain, k, Ahead(p, ClusterSize(g)))
    ensures if target > p.fptr then !SameCluster(g, p.fptr, target) else SameCluster(g, p.fptr, target)
    ensures SameCluster(g, p.fptr, target) ==> target / ClusterSize(g) == k - 1
  {
    hide SeekSafe, Standing, Stuck, InCluster, Sectors, SameCluster, ClusterSize;
    UnsafeIsEntered(g, chain, k, p, target);
    EnteredIsAhead(g, chain, k, p);
    SameIs(g, p.fptr, target);
    ScaledTimes(g, k - 1);
    QuotientBounds(target, ClusterSize(g));
    if target < p.fptr {
      QuotientUnique(target, ClusterSize(g), k - 1);
    }
  }

  lemma SameIs(g: Geometry, fptr: nat, target: nat)
    requires g.csize >= 1 && 0 < fptr < 0x1_0000_0000
    ensures SameCluster(g, fptr, target) <==> target / ClusterSize(g) == (fptr - 1) / ClusterSize(g)
  {
  }

  lemma ScaledTimes(g: Geometry, k: nat)
    ensures Times(ClusterSize(g), k) == 512 * Times(g.csize, k)
  {
    TimesScaled(g.csize, k);
  }

  /** A cluster is entered at its start exactly from inside it, from its end, or when it was still current from the top. */
  ghost predicate EnteredWhen(g: Geometry, chain: seq<nat>, k: nat, p: Pos, fptr0: nat, target: nat)
    requires g.csize >= 1
  {
    Entered(g, chain, k, p) <==> target > 0 && RestOf(target, ClusterSize(g)) == 0 && SameCluster(g, fptr0, target)
  }

  /** From a later position that is at the start of the cluster with the byte before that position. */
  lemma EnteredFrom(g: Geometry, fptr: nat, target: nat)
    requires g.csize >= 1 && 0 < fptr < 0x1_0000_0000
    ensures RestOf(target, ClusterSize(g)) == 0 && SameCluster(g, fptr, target) <==> target == ClusterStart(fptr, ClusterSize(g))
  {
    var z := ClusterSize(g);
    QuotientBounds(fptr - 1, z);
    QuotientBounds(target, z);
    if target == ClusterStart(fptr, z) {
      QuotientUnique(target, z, (fptr - 1) / z);
    }
  }

  /** Where a seek ends: at the target, or at the end of the chain because there is no free cluster for more. */
  ghost predicate Ends(g: Geometry, t: seq<nat>, chain: seq<nat>, k: nat, p: Pos, fptr0: nat, target: nat, ahead: nat)
    requires g.csize >= 1
  {
    || (p.fptr == target && Ready(g, chain, k, Ahead(p, ahead)) && (ahead == 0 ==> EnteredWhen(g, chain, k, p, fptr0, target)))
    || (p.fptr < target && NoneFree(t) && p.fptr + ahead == 512 * |Sectors(g, chain)|
        && (chain == [] ==> ahead == 0) && (chain != [] ==> Standing(g, chain, k, Ahead(p, ahead))))
  }

  /** The result of a seek that did not fail; one that went wrong has the sector `ahead` bytes ahead. */
  ghost predicate Sought(h: FileHandle, fptr0: nat, fsize0: nat, target: nat, ahead: nat)
    reads h, h.fs.w
  {
    && h.Valid() && h.fsize == Most(fsize0, h.fptr)
    && Ends(h.fs.G(), h.fs.T(), h.chain, h.at, h.P(), fptr0, target, ahead)
  }

  /** The position has been moved, and the sector fields go with it; the size is yet to be looked at. */
  ghost predicate Placed(h: FileHandle, fptr0: nat, target: nat, ahead: nat)
    reads h, h.fs.w
  {
    && h.Sound() && h.fptr <= 512 * |Sectors(h.fs.G(), h.chain)| && h.fptr <= target
    && Ends(h.fs.G(), h.fs.T(), h.chain, h.at, h.P(), fptr0, target, ahead)
  }

  /** The position and its sector are those of the target, or of the end of the chain if the volume is full. */
  ghost predicate Landed(g: Geometry, t: seq<nat>, chain: seq<nat>, p: Pos, target: nat)
    requires g.csize >= 1
  {
    || (p.fptr == target && !Nowhere(g, chain, p))
    || (p.fptr < target && NoneFree(t) && p.fptr == 512 * |Sectors(g, chain)| && (chain == [] || !Nowhere(g, chain, p)))
  }

  lemma EndsLanded(g: Geometry, t: seq<nat>, chain: seq<nat>, k: nat, p: Pos, fptr0: nat, target: nat, ahead: nat)
    requires g.csize >= 1 && Distinct(chain) && Ends(g, t, chain, k, p, fptr0, target, ahead)
    requires ahead == 0 || (ahead == ClusterSize(g) && target > 0)
    ensures Landed(g, t, chain, p, target) <==> ahead == 0
  {
    hide Standing, Entered, Sectors;
    if ahead == 0 {
      assert Ahead(p, 0) == p && (Ready(g, chain, k, p) ==> !Nowhere(g, chain, p));
    } else if p.fptr > 0 {
      AheadNowhere(g, chain, k, p);
    }
  }

  /** Seeks inside the cluster taken to be the same; from the top another one may be current by now. */
  method SeekNear(h: FileHandle, target: nat, ghost ahead: nat)
    requires h.Sound() && 0 < target && SameCluster(h.fs.G(), h.fptr, target) && h.fptr < 0x1_0000_0000
    requires ahead == 0 || ahead == ClusterSize(h.fs.G())
    modifies h`fptr, h`currSect, h`csect
    ensures h.fs.Valid() && h.fptr == target
    ensures InSeat(h.fs.G(), h.chain, h.at, h.currClust, target, ahead) ==> Placed(h, old(h.fptr), target, ahead)
    ensures !old(StillCurrent(h.fs.G(), h.chain, h.P(), target)) && ahead == 0 ==> Nowhere(h.fs.G(), h.chain, h.P())
  {
    hide View, BufOk, Table, EndedChain, ChainOk, ClusterSize, Standing, Entered, RestOf, SameCluster, Nowhere,
      Placed, Clusters, Distinct;
    var g := h.fs.G();
    ghost var k := ClusterOf(target, ClusterSize(g));
    ChainThere(h.fs.w.V(), g, h.fs.T(), h.chain, h.orgClust);
    NearRest(g, k, target, 0);
    var rest := RestOf(target, ClusterSize(g));
    h.fptr := target;
    SetSector(h, rest);
    if InSeat(g, h.chain, h.at, h.currClust, target, ahead) {
      NearPlaced(h, old(h.fptr), target, ahead, rest);
    }
    if !old(StillCurrent(g, h.chain, h.P(), target)) && ahead == 0 {
      StaleNowhere(g, h.chain, h.P(), rest);
    }
  }

  ghost predicate InSeat(g: Geometry, chain: seq<nat>, k: nat, clust: nat, target: nat, ahead: nat)
    requires g.csize >= 1
  {
    k < |chain| && clust == chain[k] && ClusterOf(target + ahead, ClusterSize(g)) == k
  }

  lemma NearPlaced(h: FileHandle, fptr0: nat, target: nat, ahead: nat, rest: nat)
    requires h.Sound() && h.fptr == target > 0 && SameCluster(h.fs.G(), fptr0, target) && fptr0 < 0x1_0000_0000
    requires (ahead == 0 || ahead == ClusterSize(h.fs.G()))
      && InSeat(h.fs.G(), h.chain, h.at, h.currClust, target, ahead)
    requires rest == RestOf(target, ClusterSize(h.fs.G())) < ClusterSize(h.fs.G())
    requires 2 <= h.currClust < h.fs.G().maxClust && 0 < rest ==> h.P() == PosIn(h.fs.G(), h.fptr, h.currClust, rest)
    requires 2 <= h.currClust < h.fs.G().maxClust && rest == 0 ==>
      h.currSect + 1 == ClustToSect(h.fs.G(), h.currClust) && h.csect == h.fs.G().csize + 1
    ensures Placed(h, fptr0, target, ahead)
  {
    hide View, BufOk, Table, EndedChain, ChainOk, ClusterSize, Standing, Entered, RestOf, SameCluster;
    var g := h.fs.G();
    ChainThere(h.fs.w.V(), g, h.fs.T(), h.chain, h.orgClust);
    NearRest(g, h.at, target, ahead);
    TimesGrow(g.csize, h.at + 1, |h.chain|);
    if rest > 0 {
      PosInStands(g, h.chain, h.at, target + ahead, rest);
      StandingNotEntered(g, h.chain, h.at, h.P());
    } else {
      EnteredAt(h.fs.w.V(), g, h.chain, h.at, Ahead(h.P(), ahead));
    }
  }

  /** What is left after whole multiples, computed as the program does. */
  function RestOf(x: nat, z: nat): int
    requires z > 0
  {
    x - (x / z) * z
  }

  lemma NearRest(g: Geometry, k: nat, target: nat, ahead: nat)
    requires g.csize >= 1 && (ahead == 0 || ahead == ClusterSize(g)) && ClusterOf(target + ahead, ClusterSize(g)) == k
    ensures ClusterSize(g) > 0 && 0 <= RestOf(target, ClusterSize(g)) < ClusterSize(g)
    ensures target + ahead == 512 * Times(g.csize, k) + RestOf(target, ClusterSize(g))
    ensures Times(g.csize, k + 1) == Times(g.csize, k) + g.csize && ClusterSize(g) == 512 * g.csize
  {
    QuotientBounds(target, ClusterSize(g));
    QuotientUnique(target + ahead, ClusterSize(g), target / ClusterSize(g) + if ahead == 0 then 0 else 1);
    TimesScaled(g.csize, k);
  }

  lemma StandingNotEntered(g: Geometry, chain: seq<nat>, k: nat, p: Pos)
    requires p.csect <= g.csize
    ensures !Entered(g, chain, k, p)
  {
  }

  lemma EnteredAt(view: seq<Disk>, g: Geometry, chain: seq<nat>, k: nat, p: Pos)
    requires GeometryOk(view, g) && ClustersOk(g) && k < |chain| && Clusters(g, chain) && p.fptr > 0
    requires p.clust == chain[k] && p.fptr == 512 * Times(g.csize, k)
    requires p.sect + 1 == ClustToSect(g, p.clust) && p.csect == g.csize + 1
    ensures Entered(g, chain, k, p)
  {
    ClustToSectIs(g, chain[k]);
  }

  lemma StaleNowhere(g: Geometry, chain: seq<nat>, p: Pos, rest: nat)
    requires g.csize >= 1 && p.fptr > 0 && Clusters(g, chain) && Distinct(chain) && !StillCurrent(g, chain, p, p.fptr)
    requires rest < ClusterSize(g) && p.fptr == 512 * Times(g.csize, ClusterOf(p.fptr, ClusterSize(g))) + rest
    requires 2 <= p.clust < g.maxClust && 0 < rest ==> p == PosIn(g, p.fptr, p.clust, rest)
    requires 2 <= p.clust < g.maxClust && rest == 0 ==> p.csect == g.csize + 1
    ensures Nowhere(g, chain, p)
  {
    hide ClustToSect;
    var q := ClusterOf(p.fptr, ClusterSize(g));
    forall j: nat | Ready(g, chain, j, p)
      ensures false
    {
      assert 2 <= chain[j] < g.maxClust;
      TimesApart(g.csize, j, q);
    }
  }

  lemma TimesApart(z: nat, j: nat, q: nat)
    requires z >= 1
    ensures j == q || Times(z, j) + z <= Times(z, q) || Times(z, q) + z <= Times(z, j)
  {
    if j < q {
      TimesGrow(z, j + 1, q);
      NextTimes(z, j);
    } else if q < j {
      TimesGrow(z, q + 1, j);
      NextTimes(z, q);
    }
  }

  /** Seeks to another cluster and sets the sector fields there. */
  method SeekAcross(h: FileHandle, target: nat, ghost ahead: nat) returns (res: Result)
    requires h.Sound() && 0 < target && (h.canWrite || target <= h.fsize) && Leaves(h, target, ahead)
    requires !SameCluster(h.fs.G(), h.fptr, target)
    modifies h, h.fs, h.fs.w
    ensures h.written == old(h.written) && h.fsize == old(h.fsize)
    ensures old(h.fs.w.Fresh()) ==> h.fs.w.Fresh()
    ensures h.fs.Valid()
      && (res == Ok ==> h.error == old(h.error) && h.fsize == old(h.fsize) && Placed(h, old(h.fptr), target, ahead))
    ensures res == Ok ==> Walked(old(h.fs.w.V()), h.fs.w.V(), h.fs.G(), old(h.chain), h.chain) && old(h.chain) <= h.chain
    ensures res != Ok ==> res == RwError && h.error && (TableBroken(old(h.fs.T())) || (ahead > 0 && !h.canWrite))
  {
    hide View, BufOk, Table, EndedChain, Walked, NoneFree, TableBroken, Sectors, ChainOk, Standing, Entered,
      ClustToSect, Current;
    var rest;
    res, rest := SeekFar(h, target, ahead);
    if res == Ok {
      ghost var g := h.fs.G();
      ChainThere(h.fs.w.V(), g, h.fs.T(), h.chain, h.orgClust);
      SetSector(h, rest);
      if h.chain != [] {
        ArrivedPlaced(h, rest, old(h.fptr), target, ahead);
      }
    }
  }

  lemma ArrivedPlaced(h: FileHandle, rest: nat, fptr0: nat, target: nat, ahead: nat)
    requires Arrived(h, rest, target, ahead) && Clusters(h.fs.G(), h.chain) && 2 <= h.currClust < h.fs.G().maxClust
    requires h.P() == PosIn(h.fs.G(), h.fptr, h.currClust, rest) && !SameCluster(h.fs.G(), fptr0, target)
    ensures Placed(h, fptr0, target, ahead)
  {
    hide View, BufOk, Table, EndedChain, NoneFree, ChainOk, Standing, Entered, ClustToSect;
    var g := h.fs.G();
    PosInStands(g, h.chain, h.at, h.fptr + ahead, rest);
    StandingNotEntered(g, h.chain, h.at, h.P());
    TimesGrow(g.csize, h.at + 1, |h.chain|);
    NextTimes(g.csize, h.at);
  }

  lemma NextTimes(z: nat, k: nat)
    ensures Times(z, k + 1) == Times(z, k) + z
  {
  }

  /**
   Moves the position. Writers may move beyond the end; the file then gets the clusters it takes, as far as
   there are free ones. Unless an entry of the table is broken, the position and its sector are the wanted
   ones afterwards if and only if the seek is safe.
   */
  method Seek(h: FileHandle, ofs: nat) returns (res: Result)
    requires h.Valid() && ofs < 0x1_0000_0000
      && (Ready(h.fs.G(), h.chain, h.at, h.P()) || Stuck(h.fs.G(), h.chain, h.P()))
    modifies h, h.fs, h.fs.w
    ensures h.written == (old(h.written) || h.fsize > old(h.fsize))
    ensures old(h.fs.w.Fresh()) ==> h.fs.w.Fresh()
    ensures h.fs.Valid() && ClustersOk(h.fs.G()) && res != Denied && (old(h.error) ==> res == RwError)
    ensures old(h.error) || old(h.fptr) == ofs ==>
      h.Valid() && h.P() == old(h.P()) && h.at == old(h.at)
      && h.fs.w.V() == old(h.fs.w.V()) && h.chain == old(h.chain) && h.fsize == old(h.fsize)
    ensures res == Ok ==> h.error == old(h.error)
    ensures ofs == 0 && !old(h.error) ==> res == Ok && (old(h.fptr) != 0 ==> !h.fs.w.buf.dirty)
    ensures res == RwError ==> h.error
    ensures res == Ok && ofs == 0 ==>
      && h.fptr == 0 && (old(h.fptr) != 0 ==> h.csect == 1)
      && h.fs.w.buf.(dirty := false) == old(h.fs.w.buf).(dirty := false) && h.fs.w.Fresh() == old(h.fs.w.Fresh())
      && h.fs.w.V() == old(h.fs.w.V()) && h.chain == old(h.chain) && h.orgClust == old(h.orgClust)
    ensures res == Ok && old(h.fptr) != ofs ==>
      var g, target := h.fs.G(), Target(old(h.fsize), h.canWrite, ofs);
      if old(h.fptr) == 0 && !old(Safe(h, ofs)) then h.fptr == target && h.currClust == old(h.currClust) && Nowhere(g, h.chain, h.P())
      else Sought(h, old(h.fptr), old(h.fsize), target, Lead(g, old(h.P()), old(Safe(h, ofs))))
    ensures res == Ok ==> Walked(old(h.fs.w.V()), h.fs.w.V(), h.fs.G(), old(h.chain), h.chain) && old(h.chain) <= h.chain
    ensures res == RwError && !old(h.error) ==> TableBroken(old(h.fs.T())) || (!old(Safe(h, ofs)) && !h.canWrite)
    ensures !old(h.error) && old(h.fptr) != ofs && !TableBroken(old(h.fs.T())) ==>
      (res == Ok && Landed(h.fs.G(), h.fs.T(), h.chain, h.P(), Target(old(h.fsize), h.canWrite, ofs)) <==> old(Safe(h, ofs)))
  {
    hide View, BufOk, Table, Sectors, Walked, ChainOk, EndedChain, NoneFree, TableBroken, SeekSafe, Placed, Sought, Current, Ends, Nowhere,
         Ready, Stuck, Landed, Distinct, SameCluster, StillCurrent;
    ghost var g, view, chain, p := h.fs.G(), h.fs.w.V(), h.chain, h.P();
    WalkedNot(view, g, chain);
    if h.error {
      return RwError;
    }
    if h.fptr == ofs {
      return Ok;
    }
    ghost var safe := Safe(h, ofs);
    h.fs.w.MoveWindow(h.fs.v, 0);
    var target := Target(h.fsize, h.canWrite, ofs);
    ghost var ahead := Lead(g, p, safe);
    res := Ok;
    if target == 0 {
      h.fptr, h.csect := 0, 1;
      ZeroSafe(g, chain, h.at, p);
      TopPlaced(h, old(h.fptr));
    } else {
      res := Place(h, target, ahead);
      if res != Ok {
        return;
      }
    }
    Settle(h, p.fptr, target, ahead);
    if p.fptr > 0 || safe {
      SoughtLanded(h, p.fptr, old(h.fsize), target, ahead);
    } else {
      NowhereLanded(g, h.fs.T(), h.chain, h.P(), target);
    }
  }

  /** Moves the position within the cluster taken to be the same, or to another one. */
  method Place(h: FileHandle, target: nat, ghost ahead: nat) returns (res: Result)
    requires h.Valid() && 0 < target && (h.canWrite || target <= h.fsize)
    requires Ready(h.fs.G(), h.chain, h.at, h.P()) || Stuck(h.fs.G(), h.chain, h.P())
    requires ahead == Lead(h.fs.G(), h.P(), SeekSafe(h.fs.G(), h.chain, h.at, h.P(), target))
    modifies h, h.fs, h.fs.w
    ensures h.written == old(h.written) && h.fsize == old(h.fsize)
    ensures old(h.fs.w.Fresh()) ==> h.fs.w.Fresh()
    ensures h.fs.Valid() && (res == Ok ==> h.error == old(h.error) && h.fsize == old(h.fsize))
    ensures res == Ok ==>
      if old(h.fptr) == 0 && !old(SeekSafe(h.fs.G(), h.chain, h.at, h.P(), target))
        then h.fptr == target && h.currClust == old(h.currClust) && Nowhere(h.fs.G(), h.chain, h.P())
        else Placed(h, old(h.fptr), target, ahead)
    ensures res == Ok ==> Walked(old(h.fs.w.V()), h.fs.w.V(), h.fs.G(), old(h.chain), h.chain) && old(h.chain) <= h.chain
    ensures res != Ok ==> res == RwError && h.error && (TableBroken(old(h.fs.T())) || (ahead > 0 && !h.canWrite))
  {
    hide View, BufOk, Table, Sectors, Walked, ChainOk, EndedChain, NoneFree, TableBroken, SeekSafe, Placed, Current, Nowhere,
         Ready, Stuck, Distinct, StillCurrent, InSeat;
    ghost var g, chain, p := h.fs.G(), h.chain, h.P();
    WalkedNot(h.fs.w.V(), g, chain);
    res := Ok;
    Leaving(g, chain, h.at, p, target, ahead);
    h.at := Seat(g, chain, h.at, p, target);
    if target / ClusterSize(h.fs.G()) == ((h.fptr - 1) % 0x1_0000_0000) / ClusterSize(h.fs.G()) {
      SeekNear(h, target, ahead);
    } else {
      res := SeekAcross(h, target, ahead);
    }
  }

  lemma ZeroSafe(g: Geometry, chain: seq<nat>, k: nat, p: Pos)
    requires g.csize >= 1
    ensures SeekSafe(g, chain, k, p, 0)
  {
  }

  lemma NowhereLanded(g: Geometry, t: seq<nat>, chain: seq<nat>, p: Pos, target: nat)
    requires g.csize >= 1 && p.fptr == target && Nowhere(g, chain, p)
    ensures !Landed(g, t, chain, p, target)
  {
  }

  lemma SoughtLanded(h: FileHandle, fptr0: nat, fsize0: nat, target: nat, ahead: nat)
    requires Sought(h, fptr0, fsize0, target, ahead) && (ahead == 0 || (ahead == ClusterSize(h.fs.G()) && target > 0))
    ensures Landed(h.fs.G(), h.fs.T(), h.chain, h.P(), target) <==> ahead == 0
  {
    hide View, BufOk, Table, EndedChain, ChainOk, Sectors, Ends, Landed;
    ChainThere(h.fs.w.V(), h.fs.G(), h.fs.T(), h.chain, h.orgClust);
    EndsLanded(h.fs.G(), h.fs.T(), h.chain, h.at, h.P(), fptr0, target, ahead);
  }

  lemma TopPlaced(h: FileHandle, fptr0: nat)
    requires h.Sound() && h.fptr == 0 && h.csect == 1
    ensures Placed(h, fptr0, 0, 0)
  {
    hide View, BufOk, Table, Sectors, EndedChain, ChainOk;
    TimesGrow(h.fs.G().csize, 0, h.at);
  }

  /** Updates the size after a seek beyond the end. */
  method Settle(h: FileHandle, ghost fptr0: nat, ghost target: nat, ghost ahead: nat)
    requires (Placed(h, fptr0, target, ahead) || h.fptr == target) && target < 0x1_0000_0000
    modifies h`fsize, h`written
    ensures h.written == (old(h.written) || h.fsize > old(h.fsize)) && h.fsize == Most(old(h.fsize), h.fptr)
    ensures old(Placed(h, fptr0, target, ahead)) ==> Sought(h, fptr0, old(h.fsize), target, ahead)
  {
    hide View, BufOk, Table, Sectors, EndedChain, ChainOk, NoneFree, Ready, Standing, Ends;
    if h.fptr > h.fsize {
      h.fsize := h.fptr;
      h.written := true;
    }
  }

  // ----- a seek that goes wrong -----

  /** A disk with one mounted volume of eight clusters, each of one sector, and a table of zeros. */
  function SmallVolume(): (r: (Disk, Geometry)) {
    var zero: Sector := seq(512, _ => 0);
    (seq(10, _ => zero), Geometry(0, 0, 10, 1, 1, 1, 2, 2, 1, 10, Fat12, 0))
  }

  lemma SmallVolumeOk()
    ensures var (disk, g) := SmallVolume();
      && VolumesOk([disk], [g]) && AllCopiesEqual([disk], [g]) && ClustersOk(g)
      && forall c :: 0 <= c < g.maxClust ==> Table([disk], g)[c] == 0
  {
    var (disk, g) := SmallVolume();
    assert FatStart(g, 1) == FatStart(g, 0) + 1;
    SectorsInOrder(g, 10);
    forall c | 0 <= c < g.maxClust
      ensures Table([disk], g)[c] == 0
    {
      TableEntry([disk], g, c);
    }
  }

  /** All clusters of the small volume that are taken belong to this file. */
  ghost predicate Alone(h: FileHandle, view0: seq<Disk>)
    reads h, h.fs, h.fs.w
  {
    && h.Valid() && h.fs.G() == SmallVolume().1 && h.canWrite && !h.error
    && Walked(view0, h.fs.w.V(), h.fs.G(), [], h.chain)
    && forall c :: 0 <= c < h.fs.G().maxClust ==> Table(view0, h.fs.G())[c] == 0
  }

  /** The volume is full only when the file has eight clusters, of which three are enough here. */
  lemma AloneRoom(h: FileHandle, view0: seq<Disk>)
    requires Alone(h, view0)
    ensures NoneFree(h.fs.T()) ==> |h.chain| >= 3
    ensures !TableBroken(h.fs.T()) && |Sectors(h.fs.G(), h.chain)| == |h.chain|
  {
    hide View, BufOk, Table, Sectors, ChainOk, OthersSame, TableOnly;
    var g, t := h.fs.G(), h.fs.T();
    TimesIsProduct(1, |h.chain|);
    if TableBroken(t) {
      WasBroken(view0, h.fs.w.V(), g, [], h.chain, Table(view0, g), t, h.orgClust);
    }
    if NoneFree(t) {
      assert IsCluster(t, 2) && IsCluster(t, 3) && IsCluster(t, 4);
      assert 2 in h.chain && 3 in h.chain && 4 in h.chain;
    }
  }

  method SeekAlone(h: FileHandle, ghost view0: seq<Disk>, ofs: nat)
    requires Alone(h, view0) && Ready(h.fs.G(), h.chain, h.at, h.P()) && 0 < ofs != h.fptr
    requires if h.fptr == 0 then ofs == 1500 else ofs <= 700 && |h.chain| >= 3
    modifies h, h.fs, h.fs.w
    ensures old(h.fs.w.Fresh()) ==> h.fs.w.Fresh()
    ensures Alone(h, view0) && h.fptr == ofs && h.fsize == Most(old(h.fsize), ofs) && old(h.chain) <= h.chain
    ensures if old(Safe(h, ofs)) then EnteredWhen(h.fs.G(), h.chain, h.at, h.P(), old(h.fptr), ofs) && Ready(h.fs.G(), h.chain, h.at, h.P())
            else Ready(h.fs.G(), h.chain, h.at, Ahead(h.P(), 512))
  {
    hide View, BufOk, Table, Sectors, Walked, ChainOk, EndedChain, NoneFree, TableBroken, Landed, Standing, Entered,
      Stuck, AtTop, SmallVolume;
    SmallSize();
    AloneRoom(h, view0);
    ghost var view1, chain1 := h.fs.w.V(), h.chain;
    FromTop(h.fs.G(), h.chain, h.at, h.P(), ofs);
    var res := Seek(h, ofs);
    ChainThere(h.fs.w.V(), h.fs.G(), h.fs.T(), h.chain, h.orgClust);
    WalkedMore(view0, view1, h.fs.w.V(), h.fs.G(), [], chain1, h.chain);
    AloneRoom(h, view0);
  }

  lemma SmallSize()
    ensures SmallVolume().1.csize == 1 && ClusterSize(SmallVolume().1) == 512
  {
  }

  lemma FromTop(g: Geometry, chain: seq<nat>, k: nat, p: Pos, target: nat)
    requires g.csize == 1
    ensures p.fptr == 0 && target == 1500 ==> SeekSafe(g, chain, k, p, target)
  {
  }

  /** Clusters of one sector: where a position without an entered cluster is, and where one with it. */
  lemma OneSector(g: Geometry, chain: seq<nat>, k: nat, p: Pos)
    requires g.csize == 1 && Ready(g, chain, k, p) && p.fptr > 0
    ensures k < |chain| && p.clust == chain[k] && Times(1, k) == k
    ensures if Entered(g, chain, k, p) then p.fptr == 512 * k > 0
            else Standing(g, chain, k, p) && p.sect == FirstSector(g, chain[k]) && (p.fptr - 1) / 512 == k
  {
    TimesIsProduct(1, k);
  }

  lemma EnteredUnsafe(g: Geometry, chain: seq<nat>, k: nat, p: Pos)
    requires g.csize == 1 && Entered(g, chain, k, p) && p.fptr == 512
    ensures !SeekSafe(g, chain, k, p, 600)
  {
    TimesIsProduct(1, k);
    TimesIsProduct(1, k - 1);
  }

  lemma ThirdCluster(h: FileHandle)
    requires h.Sound() && h.fs.G().csize == 1 && h.fptr == 600 && |h.chain| >= 3
      && Ready(h.fs.G(), h.chain, h.at, Ahead(h.P(), 512))
    ensures h.currClust == h.chain[2] && h.currSect == FirstSector(h.fs.G(), h.chain[2])
    ensures |Sectors(h.fs.G(), h.chain)| >= 3
      && Sectors(h.fs.G(), h.chain)[(600 - 1) / 512] == FirstSector(h.fs.G(), h.chain[1]) != h.currSect
  {
    hide View, BufOk, Table, Sectors, ChainOk, EndedChain, FirstSector, Standing, Entered, Times;
    var g := h.fs.G();
    OneSector(g, h.chain, h.at, Ahead(h.P(), 512));
    TimesIsProduct(1, 1);
    TimesIsProduct(1, 2);
    SectorAt(g, h.chain, 1, 0);
    SectorAt(g, h.chain, 2, 0);
    h.fs.VolumeOk();
    ChainThere(h.fs.w.V(), g, h.fs.T(), h.chain, h.orgClust);
    SectorsDistinct(g, h.chain, 1, 2);
  }

  /**
   A new file on this volume after seeks to 1500, 700, 512 and 600. The third goes back to the start of the
   second cluster from inside it; after the fourth the current sector is in the third cluster, though the byte
   before the position is in the second.
   */
  method WrongSeek() returns (h: FileHandle)
    ensures h.Sound() && h.fptr == 600 && h.fsize == 1500 && !h.error && |h.chain| >= 3
    ensures h.currClust == h.chain[2] && h.currSect == FirstSector(h.fs.G(), h.chain[2])
    ensures |Sectors(h.fs.G(), h.chain)| >= 3
      && Sectors(h.fs.G(), h.chain)[(600 - 1) / 512] == FirstSector(h.fs.G(), h.chain[1]) != h.currSect
  {
    hide View, BufOk, Table, Sectors, Walked, ChainOk, EndedChain, SmallVolume, FirstSector, AllCopiesEqual, VolumesOk, FatOk,
         Standing, Entered, Stuck, AtTop, Clusters, Distinct, Times;
    var (disk, g) := SmallVolume();
    SmallVolumeOk();
    SmallSize();
    var w := new Window([disk], [g]);
    var fs := new FatFs(w, 0, 0, UNKNOWN);
    h := new FileHandle(fs, 0, 0, true, true, []);
    ghost var view0 := fs.w.V();
    WalkedNot(view0, g, []);
    SeekAlone(h, view0, 1500);
    AloneRoom(h, view0);
    OneSector(g, h.chain, h.at, h.P());
    SeekAlone(h, view0, 700);
    OneSector(g, h.chain, h.at, h.P());
    SeekAlone(h, view0, 512);
    OneSector(g, h.chain, h.at, h.P());
    EnteredUnsafe(g, h.chain, h.at, h.P());
    SeekAlone(h, view0, 600);
    ThirdCluster(h);
  }
}
