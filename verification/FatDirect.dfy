/** Transfers of whole sectors, past the window: runs of sectors as stretches of a file. */
module FatDirect {
  import opened Bits
  import opened FatWindow
  import opened FatTable
  import opened FatChains
  import opened FatLayout

  /** From place `q` on the list goes through the `n` sectors from `s` on. */
  ghost predicate Consecutive(S: seq<nat>, q: nat, s: nat, n: nat) {
    q + n <= |S| && forall j :: q <= j < q + n ==> S[j] == s + (j - q)
  }

  lemma FewerConsecutive(S: seq<nat>, q: nat, s: nat, n: nat, m: nat)
    requires Consecutive(S, q, s, n) && m <= n
    ensures Consecutive(S, q, s, m)
  {
  }

  /** Sectors read one behind the other are a stretch of the file. */
  lemma RunRead(view: seq<Disk>, g: Geometry, S: seq<nat>, q: nat, s: nat, n: nat, data: seq<byte>)
    requires OnDrive(view, g, S) && Consecutive(S, q, s, n) && |data| == 512 * n && s + n <= |view[g.drive]|
    requires forall i :: 0 <= i < 512 * n ==> data[i] == view[g.drive][s + i / 512][i % 512]
    ensures data == BytesOf(view, g, S)[512 * q..512 * (q + n)]
  {
    forall i | 0 <= i < 512 * n
      ensures 512 * q + i < 512 * |S| && BytesOf(view, g, S)[512 * q + i] == data[i]
    {
      assert (512 * q + i) / 512 == q + i / 512 && (512 * q + i) % 512 == i % 512;
      assert S[q + i / 512] == s + i / 512;
    }
  }

  /** Sectors written one behind the other are a stretch of the file, and leave the table alone. */
  lemma {:induction false} RunStored(view: seq<Disk>, g: Geometry, S: seq<nat>, q: nat, s: nat, data: seq<byte>)
    requires GeometryOk(view, g) && FatOk(g) && DataSectors(g, S) && OnDrive(view, g, S)
    requires |data| % 512 == 0 && Consecutive(S, q, s, |data| / 512)
    ensures var view' := WrittenRun(view, g, s, data);
      && GeometryOk(view', g) && Table(view', g) == Table(view, g) && OnDrive(view', g, S)
      && 512 * q + |data| <= 512 * |S|
      && BytesOf(view', g, S) == BytesOf(view, g, S)[..512 * q] + data + BytesOf(view, g, S)[512 * q + |data|..]
    decreases |data|
  {
    hide BytesOf, Written, WrittenRun, Table, DataSectors, OnDrive, GeometryOk;
    var F := BytesOf(view, g, S);
    DriveThere(view, g);
    if |data| == 0 {
      RunNothing(view, g, s);
      assert F == F[..512 * q] + data + F[512 * q + |data|..];
    } else {
      var n: nat, m := |data| - 512, |data| / 512 - 1;
      assert n == 512 * m;
      var view1 := WrittenRun(view, g, s, data[..n]);
      RunStored(view, g, S, q, s, data[..n]);
      var F1 := BytesOf(view1, g, S);
      SectorStored(view1, g, S, q + m, data[n..]);
      assert data[..512 * (m + 1)] == data;
      RunMore(view, g, s, data, m);
      StretchMore(F, F1, 512 * q, data, n);
    }
  }

  lemma DriveThere(view: seq<Disk>, g: Geometry)
    requires GeometryOk(view, g)
    ensures g.drive < |view|
  {
  }

  lemma SectorStored(view: seq<Disk>, g: Geometry, S: seq<nat>, q: nat, data: Sector)
    requires GeometryOk(view, g) && FatOk(g) && DataSectors(g, S) && OnDrive(view, g, S) && q < |S|
    ensures var view' := Written(view, g, S[q], data);
      && GeometryOk(view', g) && Table(view', g) == Table(view, g) && OnDrive(view', g, S)
      && BytesOf(view', g, S) == BytesOf(view, g, S)[..512 * q] + data + BytesOf(view, g, S)[512 * (q + 1)..]
  {
    hide BytesOf, Written, Table;
    assert (512 * q) / 512 == q && (512 * q) % 512 == 0;
    WholeSector(view[g.drive][S[q]], data);
    StoreInSectors(view, g, S, 512 * q, data);
    DataChange(view, g, S[q], data);
  }

  lemma WholeSector(was: Sector, data: Sector)
    ensures Patch(was, 0, data) == data
  {
  }

  lemma StretchMore(F: seq<byte>, F1: seq<byte>, i: nat, data: seq<byte>, n: nat)
    requires n <= |data| && i + |data| <= |F| && F1 == F[..i] + data[..n] + F[i + n..]
    ensures F1[..i + n] + data[n..] + F1[i + |data|..] == F[..i] + data + F[i + |data|..]
  {
  }

  /** The bytes of a file one sector of which has other contents. */
  lemma SectorReplaced(view: seq<Disk>, g: Geometry, S: seq<nat>, s: nat, data: Sector, i: nat)
    requires GeometryOk(view, g) && OnDrive(view, g, S) && FatStart(g, g.nFats) <= s < g.end && i < 512 * |S|
    ensures OnDrive(Written(view, g, s, data), g, S)
    ensures BytesOf(Written(view, g, s, data), g, S)[i] == if S[i / 512] == s then data[i % 512] else BytesOf(view, g, S)[i]
  {
    hide Written;
    DataSectorWritten(view, g, s, data, S[i / 512]);
  }

  /** What the disks are outside the sectors of a run does not depend on it. */
  lemma {:induction false} RunElsewhere(view: seq<Disk>, g: Geometry, s: nat, data: seq<byte>, d: nat, a: nat)
    requires GeometryOk(view, g) && |data| % 512 == 0
    requires FatStart(g, g.nFats) <= s && s + |data| / 512 <= g.end && d < |view| && a < |view[d]|
    requires !(d == g.drive && s <= a < s + |data| / 512)
    ensures WrittenRun(view, g, s, data)[d][a] == view[d][a]
    decreases |data|
  {
    hide Written;
    if |data| >= 512 {
      var n: nat, m := |data| - 512, |data| / 512 - 1;
      assert n == 512 * m;
      RunElsewhere(view, g, s, data[..n], d, a);
      assert data[..512 * (m + 1)] == data;
      RunMore(view, g, s, data, m);
      var view1 := WrittenRun(view, g, s, data[..n]);
      if d == g.drive {
        DataSectorWritten(view1, g, s + m, data[n..], a);
      } else {
        WrittenDrive(view1, g, s + m, data[n..], d);
      }
    }
  }
}
