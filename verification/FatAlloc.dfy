/** Taking, linking, freeing and counting clusters. */
module FatAlloc {
  import opened Bits
  import opened Common
  import opened FatWindow
  import opened FatTable
  import opened FatChains

  const UNKNOWN := 0xFFFF_FFFF
  const END_MARK := 0x0FFF_FFFF

  /** The number of free ones among the clusters 2 to `n - 1`. */
  function Zeros(t: seq<nat>, n: nat): (k: nat)
    requires n <= |t|
    ensures k <= n && (n >= 2 ==> k <= n - 2)
  {
    if n <= 2 then 0 else Zeros(t, n - 1) + (if t[n - 1] == 0 then 1 else 0)
  }

  predicate IsCluster(t: seq<nat>, c: int) { 2 <= c < |t| }

  lemma {:induction false} ZerosSet(t: seq<nat>, c: nat, x: nat, n: nat)
    requires IsCluster(t, c) && n <= |t|
    ensures Zeros(t[c := x], n) == Zeros(t, n) + (if c >= n then 0 else (if x == 0 then 1 else 0) - (if t[c] == 0 then 1 else 0))
  {
    if n > 2 {
      ZerosSet(t, c, x, n - 1);
    }
  }

  /** The stored count is unknown or right. */
  ghost predicate CountRight(t: seq<nat>, freeClust: nat) {
    freeClust == UNKNOWN || freeClust == Zeros(t, |t|)
  }

  /** The stored count after `n` more clusters were freed. */
  function Raised(freeClust: dword, n: nat): dword {
    if n == 0 then freeClust
    else if Raised(freeClust, n - 1) == UNKNOWN then UNKNOWN
    else Raised(freeClust, n - 1) + 1
  }

  lemma {:induction false} RaisedIsSum(freeClust: dword, n: nat)
    ensures freeClust as int + n < UNKNOWN ==> Raised(freeClust, n) as int == freeClust as int + n
    ensures freeClust == UNKNOWN ==> Raised(freeClust, n) == UNKNOWN
  {
    if n > 0 {
      RaisedIsSum(freeClust, n - 1);
    }
  }

  // ----- freeing a chain -----

  ghost predicate Inside(t: seq<nat>, path: seq<nat>) {
    forall i :: 0 <= i < |path| ==> path[i] < |t|
  }

  /** The table with the entries of all listed clusters set to free. */
  ghost function Cleared(t: seq<nat>, path: seq<nat>): (r: seq<nat>)
    requires Inside(t, path)
    ensures |r| == |t|
  {
    seq(|t|, c requires 0 <= c < |t| => if c in path then 0 else t[c])
  }

  /** `path` follows the entries of the table from cluster to cluster. */
  ghost predicate Follows(t: seq<nat>, path: seq<nat>) {
    && Inside(t, path) && (forall i :: 0 <= i < |path| ==> IsCluster(t, path[i]))
    && (forall i :: 0 <= i < |path| - 1 ==> t[path[i]] == path[i + 1])
  }

  /** No cluster of the path is free, and none comes twice. */
  ghost predicate Proper(t: seq<nat>, path: seq<nat>) {
    Distinct(path) && Follows(t, path) && forall i :: 0 <= i < |path| ==> t[path[i]] != 0
  }

  /** How many of the entries are not free. */
  function InUse(t: seq<nat>): nat { |t| - Zeros(t, |t|) }

  /** Clearing the clusters of a path makes exactly as many free as it has, unless one comes twice or was free before. */
  lemma {:induction false} ClearedCount(t: seq<nat>, path: seq<nat>)
    requires Follows(t, path)
    ensures Zeros(Cleared(t, path), |t|) <= Zeros(t, |t|) + |path|
    ensures Zeros(Cleared(t, path), |t|) == Zeros(t, |t|) + |path| <==> Proper(t, path)
  {
    if path == [] {
      assert Cleared(t, path) == t;
    } else {
      var front, c := path[..|path| - 1], path[|path| - 1];
      ClearedCount(t, front);
      ClearedMore(t, front, c);
      assert path == front + [c];
      ZerosSet(Cleared(t, front), c, 0, |t|);
      ProperMore(t, front, c);
    }
  }

  lemma ClearedMore(t: seq<nat>, front: seq<nat>, c: nat)
    requires Inside(t, front) && c < |t|
    ensures Inside(t, front + [c])
    ensures Cleared(t, front + [c]) == Cleared(t, front)[c := 0]
  {
  }

  lemma ProperMore(t: seq<nat>, front: seq<nat>, c: nat)
    requires Follows(t, front + [c]) && Follows(t, front) && c < |t|
    ensures Proper(t, front + [c]) <==> Proper(t, front) && Cleared(t, front)[c] != 0
  {
    var path := front + [c];
    assert path[|front|] == c && path[..|front|] == front;
    if Proper(t, path) {
      forall i | 0 <= i < |front|
        ensures front[i] != c
      {
        assert path[i] == front[i];
      }
      assert Proper(t, front);
    }
    if Proper(t, front) && Cleared(t, front)[c] != 0 {
      forall i, j | 0 <= i < j < |path|
        ensures path[i] != path[j]
      {
      }
    }
  }

  /** Where following the table from `first` along `path`, clearing as it goes, leads next. */
  ghost function NextStop(t: seq<nat>, first: nat, path: seq<nat>): nat
    requires Inside(t, path)
  {
    if path == [] then first
    else if path[|path| - 1] in path[..|path| - 1] then 0
    else t[path[|path| - 1]]
  }

  /** A walk from `first` that came to `stop`; only its last cluster can have been there before. */
  ghost predicate Walk(t: seq<nat>, first: nat, path: seq<nat>, stop: nat) {
    && Follows(t, path) && (path != [] ==> path[0] == first && Distinct(path[..|path| - 1]))
    && stop == NextStop(t, first, path)
  }

  lemma WalkOn(t: seq<nat>, first: nat, path: seq<nat>, stop: nat)
    requires Walk(t, first, path, stop) && IsCluster(t, stop)
    ensures Inside(t, path) && Inside(t, path + [stop])
    ensures Walk(t, first, path + [stop], Cleared(t, path)[stop])
    ensures Cleared(t, path + [stop]) == Cleared(t, path)[stop := 0]
  {
    var more := path + [stop];
    assert more[..|more| - 1] == path;
    ClearedMore(t, path, stop);
    assert Cleared(t, path)[stop] == if stop in path then 0 else t[stop];
    if path != [] {
      assert path == path[..|path| - 1] + [path[|path| - 1]];
      forall i, j | 0 <= i < j < |path|
        ensures path[i] != path[j]
      {
        if j == |path| - 1 {
          assert path[i] in path[..|path| - 1];
        }
      }
    }
    forall i | 0 <= i < |more| - 1
      ensures t[more[i]] == more[i + 1]
    {
      if i < |path| - 1 {
        assert t[path[i]] == path[i + 1];
      }
    }
  }

  lemma InUseDrops(t: seq<nat>, c: nat)
    requires IsCluster(t, c)
    ensures InUse(t[c := 0]) == InUse(t) - (if t[c] == 0 then 0 else 1)
    ensures t[c] == 0 ==> t[c := 0] == t
  {
    ZerosSet(t, c, 0, |t|);
  }

  /**
   Frees the clusters of a chain, whatever the table looks like: even if the chain runs in a circle this
   ends, because a freed cluster leads nowhere.
   */
  method RemoveChain(fs: FatFs, first: nat) returns (ok: bool, ghost path: seq<nat>, ghost stop: nat)
    requires fs.Valid()
    modifies fs, fs.w
    ensures fs.Valid() && TableOnly(old(fs.w.V()), fs.w.V(), fs.G()) && fs.lastClust == old(fs.lastClust)
    ensures old(fs.w.Fresh()) ==> fs.w.Fresh()
    ensures Walk(old(fs.T()), first, path, stop) && Inside(old(fs.T()), path) && fs.T() == Cleared(old(fs.T()), path)
    ensures fs.freeClust == Raised(old(fs.freeClust), |path|)
    ensures fs.fsiFlag <==> old(fs.fsiFlag) || (path != [] && old(fs.freeClust) != UNKNOWN)
    ensures ok ==> !IsCluster(old(fs.T()), stop)
    ensures !ok ==> IsCluster(old(fs.T()), stop) && Cleared(old(fs.T()), path)[stop] == 1
  {
    hide Table, TableOnly, Walk, Cleared, Inside, InUse, Zeros, Raised;
    ghost var t, view := fs.T(), fs.w.V();
    path, stop, ok := [], first, true;
    var clust := first;
    TableOnlySame(view, fs.G());
    WalkBegins(t, first);
    RaisedOnce(fs.freeClust, 0);
    while 2 <= clust < fs.G().maxClust
      invariant fs.Valid() && TableOnly(view, fs.w.V(), fs.G()) && fs.lastClust == old(fs.lastClust)
      invariant old(fs.w.Fresh()) ==> fs.w.Fresh()
      invariant ok && stop == clust && Walk(t, first, path, stop) && Inside(t, path) && fs.T() == Cleared(t, path)
      invariant fs.freeClust == Raised(old(fs.freeClust), |path|)
      invariant fs.fsiFlag <==> old(fs.fsiFlag) || (path != [] && old(fs.freeClust) != UNKNOWN)
      decreases InUse(fs.T()), if 2 <= clust < fs.G().maxClust then 1 else 0
    {
      var nxt := fs.GetCluster(clust);
      if nxt == 1 {
        return false, path, stop;
      }
      ghost var cur, mid := fs.T(), fs.w.V();
      InUseDrops(cur, clust);
      WalkOn(t, first, path, stop);
      fs.PutCluster(clust, 0);
      TableOnlyTransitive(view, mid, fs.w.V(), fs.G());
      RaisedIsSum(old(fs.freeClust), |path|);
      CountOneMore(fs);
      RaisedOnce(old(fs.freeClust), |path|);
      path, stop, clust := path + [clust], nxt, nxt;
    }
  }

  /** Counts a cluster that was freed. */
  method CountOneMore(fs: FatFs)
    modifies fs
    ensures fs.lastClust == old(fs.lastClust) && (fs.fsiFlag <==> old(fs.fsiFlag) || old(fs.freeClust) != UNKNOWN)
    ensures fs.freeClust == if old(fs.freeClust) == UNKNOWN then UNKNOWN else old(fs.freeClust) + 1
  {
    if fs.freeClust != UNKNOWN {
      fs.freeClust := fs.freeClust + 1;
      fs.fsiFlag := true;
    }
  }

  lemma RaisedOnce(freeClust: dword, n: nat)
    ensures Raised(freeClust, n + 1) == if Raised(freeClust, n) == UNKNOWN then UNKNOWN else Raised(freeClust, n) + 1
    ensures Raised(freeClust, 0) == freeClust
  {
  }

  lemma WalkBegins(t: seq<nat>, first: nat)
    ensures Walk(t, first, [], first) && Inside(t, []) && Cleared(t, []) == t
  {
  }

  /** A chain that ends as it should: all its clusters in use and different, the last entry above all cluster numbers. */
  ghost predicate EndedChain(t: seq<nat>, chain: seq<nat>) {
    chain != [] && Proper(t, chain) && t[chain[|chain| - 1]] >= |t|
  }

  /** From the first cluster of such a chain, freeing goes through exactly that chain. */
  lemma WalkIsChain(t: seq<nat>, chain: seq<nat>, path: seq<nat>, stop: nat)
    requires |t| >= 2 && EndedChain(t, chain) && Walk(t, chain[0], path, stop) && Inside(t, path)
    requires IsCluster(t, stop) ==> Cleared(t, path)[stop] == 1
    ensures path == chain && !IsCluster(t, stop)
  {
    WalkAgrees(t, chain, path, |path|);
    assert path == chain[..|path|];
    if |path| < |chain| {
      StopInChain(t, chain, path, stop);
    } else {
      LastFresh(t, chain, path);
    }
  }

  lemma {:induction false} WalkAgrees(t: seq<nat>, chain: seq<nat>, path: seq<nat>, m: nat)
    requires EndedChain(t, chain) && Follows(t, path) && (path != [] ==> path[0] == chain[0]) && m <= |path|
    ensures m <= |chain| && path[..m] == chain[..m]
  {
    if m > 0 {
      WalkAgrees(t, chain, path, m - 1);
      if m > 1 {
        assert t[path[m - 2]] == path[m - 1] && IsCluster(t, path[m - 1]);
        assert path[m - 2] == path[..m - 1][m - 2] == chain[m - 2];
      }
      assert path[..m] == path[..m - 1] + [path[m - 1]];
    }
  }

  /** As long as the walk is shorter than the chain it stands at the next cluster of the chain. */
  lemma StopInChain(t: seq<nat>, chain: seq<nat>, path: seq<nat>, stop: nat)
    requires |t| >= 2 && EndedChain(t, chain) && Walk(t, chain[0], path, stop) && Inside(t, path)
    requires |path| < |chain| && path == chain[..|path|]
    ensures IsCluster(t, stop) && Cleared(t, path)[stop] != 1
  {
    var n := |path|;
    LastFresh(t, chain, path);
    assert stop == chain[n];
    if n < |chain| - 1 {
      assert t[chain[n]] == chain[n + 1] && IsCluster(t, chain[n + 1]);
    }
  }

  lemma LastFresh(t: seq<nat>, chain: seq<nat>, path: seq<nat>)
    requires EndedChain(t, chain) && Inside(t, path) && |path| <= |chain| && path == chain[..|path|]
    ensures path != [] ==> NextStop(t, chain[0], path) == t[chain[|path| - 1]]
  {
  }

  /** A right count stays right exactly if the freed chain is a proper one. */
  lemma RemoveCount(t: seq<nat>, path: seq<nat>, freeClust: dword)
    requires |t| <= END_MARK && Follows(t, path) && freeClust == Zeros(t, |t|)
    requires |path| <= |t| + 1
    ensures Raised(freeClust, |path|) == Zeros(Cleared(t, path), |t|) <==> Proper(t, path)
  {
    ClearedCount(t, path);
    RaisedIsSum(freeClust, |path|);
  }

  /** Removing an ended chain succeeds, frees exactly its clusters, and keeps a right count right. */
  lemma RemoveEnded(t: seq<nat>, chain: seq<nat>, path: seq<nat>, stop: nat, freeClust: dword)
    requires 2 <= |t| <= END_MARK && EndedChain(t, chain) && Walk(t, chain[0], path, stop) && Inside(t, path)
    requires IsCluster(t, stop) ==> Cleared(t, path)[stop] == 1
    ensures !IsCluster(t, stop) && Inside(t, chain) && Cleared(t, path) == Cleared(t, chain)
    ensures CountRight(t, freeClust) ==> CountRight(Cleared(t, path), Raised(freeClust, |path|))
  {
    WalkIsChain(t, chain, path, stop);
    DistinctBelow(chain, |t|);
    RaisedIsSum(freeClust, |path|);
    ClearedCount(t, path);
  }

  // ----- taking a cluster -----

  /** No cluster after `scl` and before `ncl`, going round, is free. */
  ghost predicate NoneBetween(t: seq<nat>, scl: nat, ncl: nat) {
    if ncl > scl then forall c :: scl < c < ncl && IsCluster(t, c) ==> t[c] != 0
    else (forall c :: scl < c && IsCluster(t, c) ==> t[c] != 0) && (forall c :: c < ncl && IsCluster(t, c) ==> t[c] != 0)
  }

  ghost predicate NoneFree(t: seq<nat>) {
    forall c :: IsCluster(t, c) ==> t[c] != 0
  }

  /** Where the search begins: behind the cluster to stretch, or behind the hint for a new chain. */
  function SearchStart(clust: nat, lastClust: nat, maxClust: nat): nat {
    if clust != 0 then clust else if lastClust == 0 || lastClust >= maxClust then 1 else lastClust
  }

  datatype Taken = Full | Broken | Got(clust: nat)

  /** Looks for the first free cluster behind `scl`, going round once. */
  method FindFree(fs: FatFs, scl: nat) returns (found: Taken)
    requires fs.Valid() && 1 <= scl < fs.G().maxClust
    modifies fs.w
    ensures fs.Valid() && fs.w.V() == old(fs.w.V()) && (found.Got? ==> fs.OnTable()) && (old(fs.w.Fresh()) ==> fs.w.Fresh())
    ensures found == Full ==> NoneFree(fs.T())
    ensures found == Broken ==> exists c :: IsCluster(fs.T(), c) && fs.T()[c] == 1
    ensures found.Got? ==> IsCluster(fs.T(), found.clust) && fs.T()[found.clust] == 0 && NoneBetween(fs.T(), scl, found.clust)
  {
    hide Table;
    ghost var t := fs.T();
    var mcl := fs.G().maxClust;
    var ncl := scl;
    ghost var wrapped := false;
    while true
      invariant fs.Valid() && fs.w.V() == old(fs.w.V()) && (old(fs.w.Fresh()) ==> fs.w.Fresh())
      invariant if wrapped then 2 <= ncl < scl else scl <= ncl < mcl
      invariant wrapped ==>
        (forall c :: scl < c && IsCluster(t, c) ==> t[c] != 0) && (forall c :: c <= ncl && IsCluster(t, c) ==> t[c] != 0)
      invariant !wrapped ==> forall c :: scl < c <= ncl && IsCluster(t, c) ==> t[c] != 0
      decreases if wrapped then 0 else 1, mcl - ncl
    {
      ncl := ncl + 1;
      if ncl >= mcl {
        ncl := 2;
        wrapped := true;
        if ncl > scl {
          return Full;
        }
      }
      var cstat := fs.GetCluster(ncl);
      if cstat == 0 {
        return Got(ncl);
      }
      if cstat == 1 {
        assert IsCluster(t, ncl) && t[ncl] == 1;
        return Broken;
      }
      if ncl == scl {
        return Full;
      }
    }
  }

  /** The number the program returns: 0 for a full volume, 1 for a broken table. */
  function ResultOf(found: Taken): nat {
    match found
    case Full => 0
    case Broken => 1
    case Got(c) => c
  }

  /**
   Finds the cluster after `clust`, taking a free one and linking it if `clust` is the last of its chain.
   With 0 it starts a new chain.
   */
  method CreateChain(fs: FatFs, clust: nat) returns (r: nat)
    requires fs.Valid()
    modifies fs, fs.w
    ensures fs.Valid() && TableOnly(old(fs.w.V()), fs.w.V(), fs.G())
    ensures Stretched(old(fs.T()), fs.T(), clust, r, old(fs.lastClust))
    ensures fs.T() == old(fs.T()) ==> fs.w.V() == old(fs.w.V())
    ensures (r >= 2 ==> fs.OnTable()) && (old(fs.w.Fresh()) ==> fs.w.Fresh())
    ensures if TakesOne(old(fs.T()), clust, r) then
        && fs.T()[r] == LastMark(fs.G().fatType) && fs.lastClust == r && fs.freeClust == OneLess(old(fs.freeClust))
        && (fs.fsiFlag <==> old(fs.fsiFlag) || old(fs.freeClust) != 0xFFFF_FFFF)
      else fs.lastClust == old(fs.lastClust) && fs.freeClust == old(fs.freeClust) && fs.fsiFlag == old(fs.fsiFlag)
    ensures CountRight(old(fs.T()), old(fs.freeClust)) ==> CountRight(fs.T(), fs.freeClust)
  {
    hide Table, TableOnly, NoneBetween, NoneFree, CountRight, Zeros, View, BufOk;
    ghost var t := fs.T();
    TableOnlySame(fs.w.V(), fs.G());
    if clust != 0 {
      var cstat := fs.GetCluster(clust);
      if cstat < 2 {
        return 1;
      }
      if cstat < fs.G().maxClust {
        return cstat;
      }
    }
    var scl := SearchStart(clust, fs.lastClust, fs.G().maxClust);
    var found := FindFree(fs, scl);
    r := ResultOf(found);
    if found.Got? {
      LinkIn(fs, r, clust);
      TakeCount(t, fs.T(), clust, r, fs.freeClust);
      CountOneLess(fs, r);
    }
  }

  /** What stands in the last entry of a chain. */
  ghost function LastMark(kind: FatType): nat {
    match kind
    case Fat12 => 0x0fff
    case Fat16 => 0xffff
    case Fat32 => 0x0fff_ffff
  }

  /** A cluster is taken unless the chain goes on behind `clust`, none is free, or the table is broken. */
  ghost predicate TakesOne(t: seq<nat>, clust: nat, r: nat) {
    r >= 2 && !(2 <= clust < |t| && 2 <= t[clust] < |t|)
  }

  /** A known number goes down by one; below zero it is the one that stands for an unknown number. */
  ghost function OneLess(free: dword): dword {
    if free == 0xFFFF_FFFF then 0xFFFF_FFFF else if free == 0 then 0xFFFF_FFFF else free - 1
  }

  /** Marks a free cluster as the end of a chain and links it behind `clust`, unless that is 0. */
  method LinkIn(fs: FatFs, r: nat, clust: nat)
    requires fs.Valid() && IsCluster(fs.T(), r) && (clust != 0 ==> IsCluster(fs.T(), clust) && clust != r)
    modifies fs.w
    ensures fs.Valid() && fs.OnTable() && TableOnly(old(fs.w.V()), fs.w.V(), fs.G())
    ensures fs.T()[r] == LastMark(fs.G().fatType) >= |fs.T()| && (clust != 0 ==> fs.T()[clust] == r)
    ensures forall c :: 0 <= c < |fs.T()| && c != r && (clust == 0 || c != clust) ==> fs.T()[c] == old(fs.T())[c]
  {
    hide Table, TableOnly;
    ghost var view := fs.w.V();
    EndMarkIsNoCluster(fs.G().maxClust);
    fs.PutCluster(r, END_MARK);
    if clust != 0 {
      ghost var mid := fs.w.V();
      fs.PutCluster(clust, r);
      TableOnlyTransitive(view, mid, fs.w.V(), fs.G());
    }
  }

  /** Remembers the cluster taken last, and counts it. */
  method CountOneLess(fs: FatFs, r: nat)
    requires fs.Valid()
    modifies fs
    ensures fs.Valid() && fs.w.V() == old(fs.w.V()) && fs.lastClust == r && (old(fs.w.Fresh()) ==> fs.w.Fresh())
    ensures fs.fsiFlag <==> old(fs.fsiFlag) || old(fs.freeClust) != UNKNOWN
    ensures fs.freeClust == if old(fs.freeClust) == UNKNOWN || old(fs.freeClust) == 0 then UNKNOWN else old(fs.freeClust) - 1
  {
    fs.lastClust := r;
    if fs.freeClust != UNKNOWN {
      fs.freeClust := if fs.freeClust == 0 then UNKNOWN else fs.freeClust - 1;
      fs.fsiFlag := true;
    }
  }

  /** What `CreateChain` does to the table, and what it returns. */
  ghost predicate Stretched(t: seq<nat>, t': seq<nat>, clust: nat, r: nat, lastClust: nat) {
    && |t'| == |t| && 2 <= |t|
    && if clust != 0 && (!IsCluster(t, clust) || t[clust] < 2) then r == 1 && t' == t
       else if clust != 0 && t[clust] < |t| then r == t[clust] && t' == t
       else if r == 0 then t' == t && NoneFree(t)
       else if r == 1 then t' == t && exists c :: IsCluster(t, c) && t[c] == 1
       else
         && IsCluster(t, r) && t[r] == 0 && NoneBetween(t, if clust != 0 then clust else if 1 <= lastClust < |t| then lastClust else 1, r)
         && t'[r] >= |t| && r != clust
         && (clust != 0 ==> t'[clust] == r)
         && forall c :: 0 <= c < |t| && c != r && (clust == 0 || c != clust) ==> t'[c] == t[c]
  }

  lemma TakeCount(t: seq<nat>, t': seq<nat>, clust: nat, r: nat, freeClust: dword)
    requires |t'| == |t| && IsCluster(t, r) && t[r] == 0 && t'[r] != 0
    requires clust != 0 ==> IsCluster(t, clust) && r != clust && t[clust] != 0 && t'[clust] != 0
    requires forall c :: 0 <= c < |t| && c != r && (clust == 0 || c != clust) ==> t'[c] == t[c]
    ensures CountRight(t, freeClust) ==>
      CountRight(t', if freeClust == UNKNOWN then UNKNOWN else if freeClust == 0 then UNKNOWN else freeClust - 1)
  {
    var t1 := t[r := t'[r]];
    ZerosSet(t, r, t'[r], |t|);
    if clust != 0 {
      ZerosSet(t1, clust, t'[clust], |t|);
      assert t' == t1[clust := t'[clust]];
    } else {
      assert t' == t1;
    }
    ZerosPositive(t, r, |t|);
  }

  lemma {:induction false} ZerosPositive(t: seq<nat>, c: nat, n: nat)
    requires IsCluster(t, c) && c < n <= |t| && t[c] == 0
    ensures Zeros(t, n) > 0
  {
    if c < n - 1 {
      ZerosPositive(t, c, n - 1);
    }
  }
}
