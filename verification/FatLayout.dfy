/** Where the bytes of a file lie: its cluster chain, the sectors of the chain, and the bytes of those. */
module FatLayout {
  import opened Bits
  import opened Common
  import opened FatWindow
  import opened FatTable
  import opened FatChains
  import opened FatAlloc

  /** The first sector of cluster `c`; cluster 2 is the first one. */
  function FirstSector(g: Geometry, c: nat): nat {
    if c <= 2 then g.database else FirstSector(g, c - 1) + g.csize
  }

  /** A cluster's first sector as the program computes it, 0 for no cluster. */
  function ClustToSect(g: Geometry, c: nat): nat {
    if c < 2 || c >= g.maxClust then 0 else (c - 2) * g.csize + g.database
  }

  lemma {:induction false} ClustToSectIs(g: Geometry, c: nat)
    requires 2 <= c
    ensures (c - 2) * g.csize + g.database == FirstSector(g, c)
  {
    if c > 2 {
      ClustToSectIs(g, c - 1);
      assert (c - 2) * g.csize == (c - 3) * g.csize + g.csize;
    }
  }

  /** The computed sector is where the cluster lies, and 0 for a number that is no cluster. */
  lemma SectorOfCluster(g: Geometry, c: nat)
    ensures ClustToSect(g, c) == if 2 <= c < g.maxClust then FirstSector(g, c) else 0
  {
    if 2 <= c {
      ClustToSectIs(g, c);
    }
  }

  /** All clusters lie on the volume. */
  ghost predicate ClustersOk(g: Geometry) {
    FatOk(g) && 1 <= g.csize <= 128 && FirstSector(g, g.maxClust) <= g.end
  }

  lemma {:induction false} SectorsApart(g: Geometry, c: nat, d: nat)
    requires 2 <= c < d
    ensures FirstSector(g, c) + g.csize <= FirstSector(g, d) && g.database <= FirstSector(g, c)
  {
    FirstAbove(g, c);
    if c < d - 1 {
      SectorsApart(g, c, d - 1);
    }
  }

  lemma {:induction false} FirstAbove(g: Geometry, c: nat)
    ensures g.database <= FirstSector(g, c)
  {
    if c > 2 {
      FirstAbove(g, c - 1);
    }
  }

  /** With one sector to the cluster the numbers go up together. */
  lemma {:induction false} SectorsInOrder(g: Geometry, c: nat)
    requires g.csize == 1 && c >= 2
    ensures FirstSector(g, c) == g.database + (c - 2)
  {
    if c > 2 {
      SectorsInOrder(g, c - 1);
    }
  }

  /** Consecutive numbers. */
  function Run(s: nat, n: nat): (r: seq<nat>)
    ensures |r| == n && forall i :: 0 <= i < n ==> r[i] == s + i
  {
    seq(n, i requires 0 <= i < n => s + i)
  }

  /** The sectors of a chain, in order. */
  function Sectors(g: Geometry, chain: seq<nat>): (r: seq<nat>)
    ensures |r| == Times(g.csize, |chain|)
  {
    if chain == [] then [] else Sectors(g, chain[..|chain| - 1]) + Run(FirstSector(g, chain[|chain| - 1]), g.csize)
  }

  ghost predicate Clusters(g: Geometry, chain: seq<nat>) {
    forall i :: 0 <= i < |chain| ==> 2 <= chain[i] < g.maxClust
  }

  /** Sector `j` of cluster `k` of a chain. */
  lemma {:induction false} SectorAt(g: Geometry, chain: seq<nat>, k: nat, j: nat)
    requires k < |chain| && j < g.csize
    ensures Times(g.csize, k) + j < |Sectors(g, chain)|
    ensures Sectors(g, chain)[Times(g.csize, k) + j] == FirstSector(g, chain[k]) + j
  {
    TimesGrow(g.csize, k, |chain|);
    if k < |chain| - 1 {
      TimesGrow(g.csize, k, |chain| - 1);
      SectorAt(g, chain[..|chain| - 1], k, j);
    }
  }

  /** Every sector of a chain is some sector of some cluster of it. */
  lemma {:induction false} SectorOf(g: Geometry, chain: seq<nat>, q: nat) returns (k: nat, j: nat)
    requires q < |Sectors(g, chain)|
    ensures k < |chain| && j < g.csize && q == Times(g.csize, k) + j
    ensures Sectors(g, chain)[q] == FirstSector(g, chain[k]) + j
  {
    var n := |chain| - 1;
    if q < Times(g.csize, n) {
      k, j := SectorOf(g, chain[..n], q);
    } else {
      k, j := n, q - Times(g.csize, n);
    }
  }

  /** The sectors of a chain without repetitions are different data sectors of the volume. */
  lemma SectorsDistinct(g: Geometry, chain: seq<nat>, p: nat, q: nat)
    requires ClustersOk(g) && Clusters(g, chain) && Distinct(chain) && p < |Sectors(g, chain)|
      && q < |Sectors(g, chain)|
    ensures Sectors(g, chain)[p] == Sectors(g, chain)[q] ==> p == q
    ensures g.database <= Sectors(g, chain)[p] < g.end
  {
    var k, j := SectorOf(g, chain, p);
    var k', j' := SectorOf(g, chain, q);
    SectorsApart(g, chain[k], g.maxClust);
    if chain[k] < chain[k'] {
      SectorsApart(g, chain[k], chain[k']);
    } else if chain[k'] < chain[k] {
      SectorsApart(g, chain[k'], chain[k]);
    }
  }

  /** The sectors of chains without a common cluster are different. */
  lemma ChainsApart(g: Geometry, a: seq<nat>, b: seq<nat>, p: nat, q: nat)
    requires ClustersOk(g) && Clusters(g, a) && Clusters(g, b) && p < |Sectors(g, a)| && q < |Sectors(g, b)|
    requires forall c :: c in a ==> c !in b
    ensures Sectors(g, a)[p] != Sectors(g, b)[q]
  {
    var k, j := SectorOf(g, a, p);
    var k', j' := SectorOf(g, b, q);
    assert a[k] in a && b[k'] in b;
    if a[k] < b[k'] {
      SectorsApart(g, a[k], b[k']);
    } else {
      SectorsApart(g, b[k'], a[k]);
    }
  }

  ghost predicate OnDrive(view: seq<Disk>, g: Geometry, S: seq<nat>) {
    g.drive < |view| && forall q :: 0 <= q < |S| ==> S[q] < |view[g.drive]|
  }

  /** The bytes of the listed sectors, one sector after the other. */
  ghost function BytesOf(view: seq<Disk>, g: Geometry, S: seq<nat>): (r: seq<byte>)
    requires OnDrive(view, g, S)
    ensures |r| == 512 * |S|
  {
    seq(512 * |S|, i requires 0 <= i < 512 * |S| => view[g.drive][S[i / 512]][i % 512])
  }

  /** A sector list without repetitions, all behind the copies of the table. */
  ghost predicate DataSectors(g: Geometry, S: seq<nat>) {
    && (forall p, q :: 0 <= p < q < |S| ==> S[p] != S[q])
    && (forall q :: 0 <= q < |S| ==> FatStart(g, g.nFats) <= S[q] < g.end)
  }

  lemma ChainSectors(view: seq<Disk>, g: Geometry, chain: seq<nat>)
    requires GeometryOk(view, g) && ClustersOk(g) && Clusters(g, chain) && Distinct(chain)
    ensures DataSectors(g, Sectors(g, chain)) && OnDrive(view, g, Sectors(g, chain))
  {
    var S := Sectors(g, chain);
    forall p, q | 0 <= p < |S| && 0 <= q < |S|
      ensures S[p] == S[q] ==> p == q
      ensures g.database <= S[p] < g.end
    {
      SectorsDistinct(g, chain, p, q);
    }
  }

  /** Writing a stretch of one of the sectors is writing that stretch of the bytes. */
  lemma StoreInSectors(view: seq<Disk>, g: Geometry, S: seq<nat>, i: nat, bytes: seq<byte>)
    requires GeometryOk(view, g) && DataSectors(g, S) && OnDrive(view, g, S) && i < 512 * |S|
      && i % 512 + |bytes| <= 512
    ensures var s := S[i / 512];
      var view' := Written(view, g, s, Patch(view[g.drive][s], i % 512, bytes));
      && OnDrive(view', g, S) && i + |bytes| <= 512 * |S|
      && BytesOf(view', g, S) == BytesOf(view, g, S)[..i] + bytes + BytesOf(view, g, S)[i + |bytes|..]
  {
    hide Written, Hit;
    var s := S[i / 512];
    var data := Patch(view[g.drive][s], i % 512, bytes);
    var view' := Written(view, g, s, data);
    var F, F' := BytesOf(view, g, S), BytesOf(view', g, S);
    forall j | 0 <= j < 512 * |S|
      ensures F'[j] == if i <= j < i + |bytes| then bytes[j - i] else F[j]
    {
      DataSectorWritten(view, g, s, data, S[j / 512]);
      if j / 512 == i / 512 {
        assert data[j % 512] == if i % 512 <= j % 512 < i % 512 + |bytes| then bytes[j % 512 - i % 512] else view[g.drive][s][j % 512];
      }
    }
    assert F' == F[..i] + bytes + F[i + |bytes|..];
  }

  /** Writing a data sector changes just that sector. */
  lemma DataSectorWritten(view: seq<Disk>, g: Geometry, s: nat, data: Sector, a: nat)
    requires GeometryOk(view, g) && FatStart(g, g.nFats) <= s < g.end && a < |view[g.drive]|
    ensures Written(view, g, s, data)[g.drive][a] == if a == s then data else view[g.drive][a]
  {
    FatStartsGrow(g, 1, g.nFats);
    WrittenAt(view, g, s, data, a);
  }

  /** The bytes depend on the listed sectors only. */
  lemma SameBytesOf(view: seq<Disk>, view': seq<Disk>, g: Geometry, S: seq<nat>)
    requires OnDrive(view, g, S) && OnDrive(view', g, S)
    requires forall q :: 0 <= q < |S| ==> view'[g.drive][S[q]] == view[g.drive][S[q]]
    ensures BytesOf(view', g, S) == BytesOf(view, g, S)
  {
  }

  /** More sectors at the end leave the bytes before as they are. */
  lemma MoreSectors(view: seq<Disk>, g: Geometry, S: seq<nat>, S': seq<nat>)
    requires OnDrive(view, g, S') && S <= S'
    ensures OnDrive(view, g, S) && BytesOf(view, g, S) == BytesOf(view, g, S')[..512 * |S|]
  {
  }

  /** A table change leaves all data sectors alone. */
  lemma TableChange(view: seq<Disk>, view': seq<Disk>, g: Geometry, S: seq<nat>)
    requires GeometryOk(view, g) && GeometryOk(view', g) && TableOnly(view, view', g) && DataSectors(g, S)
      && OnDrive(view, g, S)
    ensures OnDrive(view', g, S) && BytesOf(view', g, S) == BytesOf(view, g, S)
  {
    forall q | 0 <= q < |S|
      ensures view'[g.drive][S[q]] == view[g.drive][S[q]] && S[q] < |view'[g.drive]|
    {
      assert !InTable(g, g.drive, S[q]);
    }
    SameBytesOf(view, view', g, S);
  }

  /** A data sector leaves the table alone. */
  lemma DataChange(view: seq<Disk>, g: Geometry, s: nat, data: Sector)
    requires GeometryOk(view, g) && FatOk(g) && FatStart(g, g.nFats) <= s < g.end
    ensures GeometryOk(Written(view, g, s, data), g) && Table(Written(view, g, s, data), g) == Table(view, g)
  {
    hide Written, GetEntry;
    var view' := Written(view, g, s, data);
    FatStartsGrow(g, 1, g.nFats);
    forall i | 0 <= i < 512 * g.sectsFat
      ensures FatBytes(view', g)[i] == FatBytes(view, g)[i]
    {
      DataSectorWritten(view, g, s, data, g.fatbase + i / 512);
    }
    assert FatBytes(view', g) == FatBytes(view, g);
  }
}
