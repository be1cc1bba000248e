/**
 The one sector window that all mounted FAT volumes share. A changed window is written back when another
 sector is wanted, and a changed sector of the first file allocation table goes to all its copies.
 */
module FatWindow {
  import opened Bits

  /** A number of the machine's 32 bits. */
  type dword = x: int | 0 <= x < 0x1_0000_0000

  type Sector = s: seq<byte> | |s| == 512 witness seq(512, _ => 0)
  type Disk = seq<Sector>

  datatype FatType = Fat12 | Fat16 | Fat32

  /** What mounting found out about a volume. `start` and `end` bound its sectors. */
  datatype Geometry = Geometry(drive: nat, start: nat, end: nat, fatbase: nat, sectsFat: nat, nFats: nat, dirbase: nat,
                               database: nat, csize: nat, maxClust: nat, fatType: FatType, fsiSector: nat)

  /** The first sector of copy number `k` of the table. */
  function FatStart(g: Geometry, k: nat): nat {
    if k == 0 then g.fatbase else FatStart(g, k - 1) + g.sectsFat
  }

  /** A volume lies on its drive: the reserved sectors, then the copies of the table, then all the rest. */
  ghost predicate GeometryOk(disks: seq<Disk>, g: Geometry) {
    && g.drive < |disks|
    && g.start < g.fatbase && 0 < g.nFats && 0 < g.sectsFat
    && (g.fatType.Fat32? ==> g.start <= g.fsiSector < g.fatbase)
    && FatStart(g, g.nFats) <= g.database && g.database <= g.end <= |disks[g.drive]|
  }

  /** Two volumes have no sector in common. */
  ghost predicate Apart(g: Geometry, h: Geometry) {
    g.drive != h.drive || g.end <= h.start || h.end <= g.start
  }

  ghost predicate VolumesOk(disks: seq<Disk>, vols: seq<Geometry>) {
    && (forall v :: 0 <= v < |vols| ==> GeometryOk(disks, vols[v]))
    && (forall v, u :: 0 <= v < u < |vols| ==> Apart(vols[v], vols[u]))
  }

  lemma {:induction false} FatStartsGrow(g: Geometry, j: nat, k: nat)
    requires j <= k
    ensures FatStart(g, j) <= FatStart(g, k)
    ensures j < k ==> FatStart(g, j) + g.sectsFat <= FatStart(g, k)
  {
    if j < k {
      FatStartsGrow(g, j, k - 1);
    }
  }

  // ----- writing a sector and its copies -----

  ghost predicate InFirstFat(g: Geometry, s: nat) {
    g.fatbase <= s < g.fatbase + g.sectsFat
  }

  /** Sector `a` is `s`, or one of the first `n` copies of the table sector `s`. */
  ghost predicate Hit(g: Geometry, n: nat, s: nat, a: nat) {
    a == s || (InFirstFat(g, s) && exists k: nat :: k < n && a == FatStart(g, k) + (s - g.fatbase))
  }

  function WithSector(disk: Disk, s: nat, data: Sector): Disk
    requires s < |disk|
  {
    disk[s := data]
  }

  ghost function WrittenTo(disk: Disk, g: Geometry, n: nat, s: nat, data: Sector): (r: Disk)
    ensures |r| == |disk|
  {
    seq(|disk|, a requires 0 <= a < |disk| => if Hit(g, n, s, a) then data else disk[a])
  }

  /** The disks after a sector of a volume was written, with all its copies. */
  ghost function Written(disks: seq<Disk>, g: Geometry, s: nat, data: Sector): (r: seq<Disk>)
    requires g.drive < |disks|
    ensures |r| == |disks| && forall d :: 0 <= d < |disks| ==> |r[d]| == |disks[d]|
  {
    disks[g.drive := WrittenTo(disks[g.drive], g, g.nFats, s, data)]
  }

  /** All copies of the table are equal. */
  ghost predicate CopiesEqual(disk: Disk, g: Geometry) {
    forall k: nat, i: nat {:trigger Copy(g, k, i)} :: k < g.nFats && i < g.sectsFat && Copy(g, k, i) < |disk| && g.fatbase + i < |disk| ==>
      disk[Copy(g, k, i)] == disk[g.fatbase + i]
  }

  function Copy(g: Geometry, k: nat, i: nat): nat { FatStart(g, k) + i }

  ghost predicate AllCopiesEqual(disks: seq<Disk>, vols: seq<Geometry>) {
    forall v :: 0 <= v < |vols| && vols[v].drive < |disks| ==> CopiesEqual(disks[vols[v].drive], vols[v])
  }

  /** A sector that may be changed: in the first copy of the table, or behind the last copy. */
  ghost predicate Writable(g: Geometry, s: nat) {
    InFirstFat(g, s) || FatStart(g, g.nFats) <= s < g.end
  }

  lemma CopyPlace(g: Geometry, k: nat, i: nat, k': nat, i': nat)
    requires i < g.sectsFat && i' < g.sectsFat && Copy(g, k, i) == Copy(g, k', i')
    ensures k == k' && i == i'
  {
    if k < k' {
      FatStartsGrow(g, k, k');
    } else if k' < k {
      FatStartsGrow(g, k', k);
    }
  }

  lemma CopyInside(g: Geometry, k: nat, i: nat)
    requires k < g.nFats && i < g.sectsFat
    ensures g.fatbase <= Copy(g, k, i) < FatStart(g, g.nFats)
  {
    FatStartsGrow(g, 0, k);
    FatStartsGrow(g, k, g.nFats);
  }

  /** What a write changes: the sector itself, and only the copies of a table sector. */
  lemma WrittenAt(disks: seq<Disk>, g: Geometry, s: nat, data: Sector, a: nat)
    requires GeometryOk(disks, g) && Writable(g, s) && a < |disks[g.drive]|
    ensures Written(disks, g, s, data)[g.drive][a] == if Hit(g, g.nFats, s, a) then data else disks[g.drive][a]
    ensures Hit(g, g.nFats, s, a) ==> a == s || (InFirstFat(g, s) && g.fatbase + g.sectsFat <= a < FatStart(g, g.nFats))
  {
    if Hit(g, g.nFats, s, a) && a != s {
      var k: nat :| k < g.nFats && a == FatStart(g, k) + (s - g.fatbase);
      CopyInside(g, k, s - g.fatbase);
      FatStartsGrow(g, 1, k);
    }
  }

  /** Writing keeps the copies of a volume's table equal. */
  lemma WrittenCopies(disks: seq<Disk>, g: Geometry, s: nat, data: Sector)
    requires GeometryOk(disks, g) && Writable(g, s) && CopiesEqual(disks[g.drive], g)
    ensures CopiesEqual(Written(disks, g, s, data)[g.drive], g)
  {
    var disk, disk' := disks[g.drive], Written(disks, g, s, data)[g.drive];
    forall k: nat, i: nat | k < g.nFats && i < g.sectsFat && Copy(g, k, i) < |disk'| && g.fatbase + i < |disk'|
      ensures disk'[Copy(g, k, i)] == disk'[g.fatbase + i]
    {
      CopyInside(g, k, i);
      assert disk[Copy(g, k, i)] == disk[g.fatbase + i];
      HitCopies(g, s, k, i);
    }
  }

  lemma HitCopies(g: Geometry, s: nat, k: nat, i: nat)
    requires Writable(g, s) && k < g.nFats && i < g.sectsFat
    ensures Hit(g, g.nFats, s, Copy(g, k, i)) <==> s == g.fatbase + i
    ensures Hit(g, g.nFats, s, g.fatbase + i) <==> s == g.fatbase + i
  {
    HitCopy(g, s, k, i);
    HitCopy(g, s, 0, i);
    assert Copy(g, 0, i) == g.fatbase + i;
  }

  lemma HitCopy(g: Geometry, s: nat, k: nat, i: nat)
    requires Writable(g, s) && k < g.nFats && i < g.sectsFat
    ensures Hit(g, g.nFats, s, Copy(g, k, i)) <==> s == g.fatbase + i
  {
    CopyInside(g, k, i);
    if InFirstFat(g, s) {
      var i' := s - g.fatbase;
      assert s == Copy(g, 0, i');
      if s == g.fatbase + i {
        assert Copy(g, k, i) == FatStart(g, k) + (s - g.fatbase);
      } else if j: nat :| j < g.nFats && Copy(g, k, i) == FatStart(g, j) + (s - g.fatbase) {
        CopyPlace(g, j, i', k, i);
      } else if Copy(g, k, i) == s {
        CopyPlace(g, 0, i', k, i);
      }
    }
  }

  /** Writing to one volume leaves every sector of another alone. */
  lemma WrittenElsewhere(disks: seq<Disk>, g: Geometry, h: Geometry, s: nat, data: Sector, a: nat)
    requires GeometryOk(disks, g) && GeometryOk(disks, h) && (Apart(g, h) || Apart(h, g)) && Writable(g, s)
    requires h.start <= a < h.end
    ensures Written(disks, g, s, data)[h.drive][a] == disks[h.drive][a]
  {
    FatStartsGrow(g, 1, g.nFats);
    if g.drive == h.drive {
      WrittenAt(disks, g, s, data, a);
    }
  }

  lemma WrittenAllCopies(disks: seq<Disk>, vols: seq<Geometry>, v: nat, s: nat, data: Sector)
    requires VolumesOk(disks, vols) && v < |vols| && Writable(vols[v], s) && AllCopiesEqual(disks, vols)
    ensures AllCopiesEqual(Written(disks, vols[v], s, data), vols)
    ensures VolumesOk(Written(disks, vols[v], s, data), vols)
  {
    hide CopiesEqual, Written, Writable;
    var disks' := Written(disks, vols[v], s, data);
    WrittenCopies(disks, vols[v], s, data);
    forall u | 0 <= u < |vols|
      ensures CopiesEqual(disks'[vols[u].drive], vols[u]) && GeometryOk(disks', vols[u])
    {
      if u != v {
        OtherCopies(disks, vols[v], vols[u], s, data);
      }
    }
  }

  lemma OtherCopies(disks: seq<Disk>, g: Geometry, h: Geometry, s: nat, data: Sector)
    requires GeometryOk(disks, g) && GeometryOk(disks, h) && (Apart(g, h) || Apart(h, g)) && Writable(g, s)
    requires CopiesEqual(disks[h.drive], h)
    ensures CopiesEqual(Written(disks, g, s, data)[h.drive], h)
  {
    hide Written, Writable, Apart;
    var disk, disk' := disks[h.drive], Written(disks, g, s, data)[h.drive];
    forall k: nat, i: nat | k < h.nFats && i < h.sectsFat && Copy(h, k, i) < |disk'| && h.fatbase + i < |disk'|
      ensures disk'[Copy(h, k, i)] == disk'[h.fatbase + i]
    {
      CopyInside(h, k, i);
      CopyInside(h, 0, i);
      assert Copy(h, 0, i) == h.fatbase + i;
      WrittenElsewhere(disks, g, h, s, data, Copy(h, k, i));
      WrittenElsewhere(disks, g, h, s, data, h.fatbase + i);
      assert disk[Copy(h, k, i)] == disk[h.fatbase + i];
    }
  }

  function Patch(data: Sector, ofs: nat, bytes: seq<byte>): Sector
    requires ofs + |bytes| <= 512
  {
    data[..ofs] + bytes + data[ofs + |bytes|..]
  }

  // ----- the window -----

  /** The window: sector number, dirty flag, the volume it belongs to, and the contents. Sector 0 means none. */
  datatype Buf = Buf(sect: nat, dirty: bool, fs: nat, data: Sector)

  /** A changed window holds a sector that may be changed; an unchanged one holds what is on the disk. */
  ghost predicate BufOk(disks: seq<Disk>, vols: seq<Geometry>, b: Buf) {
    && VolumesOk(disks, vols) && AllCopiesEqual(disks, vols)
    && (b.dirty ==> b.fs < |vols| && Writable(vols[b.fs], b.sect))
    && (!b.dirty && b.sect != 0 ==>
          b.fs < |vols| && InVolume(vols[b.fs], b.sect) && GeometryOk(disks, vols[b.fs]) && b.data == disks[vols[b.fs].drive][b.sect])
  }

  ghost predicate InVolume(g: Geometry, s: nat) {
    g.start <= s < g.end && 0 < s
  }

  /** The disks as the window makes them appear: what will be on them once it is written back. */
  ghost function View(disks: seq<Disk>, vols: seq<Geometry>, b: Buf): (r: seq<Disk>)
    requires BufOk(disks, vols, b)
    ensures VolumesOk(r, vols) && AllCopiesEqual(r, vols)
  {
    if b.dirty then
      WrittenAllCopies(disks, vols, b.fs, b.sect, b.data);
      Written(disks, vols[b.fs], b.sect, b.data)
    else disks
  }

  /** A sector behind the copies of the table. */
  ghost predicate BehindTables(g: Geometry, s: nat) {
    FatStart(g, g.nFats) <= s < g.end
  }

  /** All is in order, but an unchanged window may hold other bytes than its sector, which was written past it. */
  ghost predicate Orderly(disks: seq<Disk>, vols: seq<Geometry>, b: Buf) {
    BufOk(disks, vols, b)
    || (!b.dirty && b.fs < |vols| && BehindTables(vols[b.fs], b.sect) && BufOk(disks, vols, b.(sect := 0)))
  }

  /** The disks as they appear: an outdated window does not count until it is changed. */
  ghost function Apparent(disks: seq<Disk>, vols: seq<Geometry>, b: Buf): (r: seq<Disk>)
    requires Orderly(disks, vols, b)
    ensures VolumesOk(r, vols) && AllCopiesEqual(r, vols)
  {
    if BufOk(disks, vols, b) then View(disks, vols, b) else disks
  }

  lemma WritableInside(disks: seq<Disk>, g: Geometry, s: nat)
    requires GeometryOk(disks, g) && Writable(g, s)
    ensures InVolume(g, s)
  {
    FatStartsGrow(g, 1, g.nFats);
  }

  /** What the window holds is what the disk appears to hold there. */
  lemma HeldSector(disks: seq<Disk>, vols: seq<Geometry>, b: Buf)
    requires BufOk(disks, vols, b) && b.sect != 0 && b.fs < |vols|
    ensures GeometryOk(View(disks, vols, b), vols[b.fs]) && InVolume(vols[b.fs], b.sect)
    ensures View(disks, vols, b)[vols[b.fs].drive][b.sect] == b.data
  {
    hide CopiesEqual;
    if b.dirty {
      WritableInside(disks, vols[b.fs], b.sect);
      WrittenAt(disks, vols[b.fs], b.sect, b.data, b.sect);
    }
  }

  lemma {:induction false} OneMoreCopy(disk: Disk, g: Geometry, s: nat, data: Sector, m: nat)
    requires InFirstFat(g, s) && 1 <= m && FatStart(g, m) + (s - g.fatbase) < |disk|
    ensures WrittenTo(disk, g, m, s, data)[FatStart(g, m) + (s - g.fatbase) := data] == WrittenTo(disk, g, m + 1, s, data)
  {
  }

  lemma FirstCopy(disk: Disk, g: Geometry, s: nat, data: Sector, n: nat)
    requires s < |disk| && (n == 1 || !InFirstFat(g, s))
    ensures disk[s := data] == WrittenTo(disk, g, n, s, data)
  {
    assert FatStart(g, 0) == g.fatbase;
  }

  /** Changing the window changes that sector and, for a table sector, its copies, and nothing else. */
  lemma ChangeView(disks: seq<Disk>, vols: seq<Geometry>, b: Buf, data: Sector)
    requires Orderly(disks, vols, b) && b.fs < |vols| && Writable(vols[b.fs], b.sect)
    ensures var b' := b.(data := data, dirty := true);
      && BufOk(disks, vols, b')
      && View(disks, vols, b') == Written(Apparent(disks, vols, b), vols[b.fs], b.sect, data)
  {
    hide CopiesEqual, VolumesOk;
    assert BufOk(disks, vols, b.(data := data, dirty := true));
    if b.dirty {
      DirtyFacts(disks, vols, b);
      WrittenTwice(disks[vols[b.fs].drive], vols[b.fs], b.sect, b.data, data);
    }
  }

  lemma WrittenTwice(disk: Disk, g: Geometry, s: nat, a: Sector, b: Sector)
    ensures WrittenTo(WrittenTo(disk, g, g.nFats, s, a), g, g.nFats, s, b) == WrittenTo(disk, g, g.nFats, s, b)
  {
    hide Hit;
  }

  // ----- writing past the window -----

  /** The disks after sectors of a volume, one behind the other, were written. */
  ghost function WrittenRun(disks: seq<Disk>, g: Geometry, s: nat, data: seq<byte>): (r: seq<Disk>)
    requires g.drive < |disks|
    ensures |r| == |disks| && forall d :: 0 <= d < |disks| ==> |r[d]| == |disks[d]|
    decreases |data|
  {
    if |data| < 512 then disks
    else
      var n: nat := |data| - 512;
      Written(WrittenRun(disks, g, s, data[..n]), g, s + n / 512, data[n..])
  }

  lemma RunMore(disks: seq<Disk>, g: Geometry, s: nat, data: seq<byte>, n: nat)
    requires g.drive < |disks| && 512 * (n + 1) <= |data|
    ensures WrittenRun(disks, g, s, data[..512 * (n + 1)])
         == Written(WrittenRun(disks, g, s, data[..512 * n]), g, s + n, data[512 * n..512 * (n + 1)])
  {
    assert data[..512 * (n + 1)][..512 * n] == data[..512 * n];
    assert data[..512 * (n + 1)][512 * n..] == data[512 * n..512 * (n + 1)];
    assert (512 * (n + 1) - 512) / 512 == n;
  }

  lemma {:induction false} RunOrderly(disks: seq<Disk>, vols: seq<Geometry>, v: nat, s: nat, data: seq<byte>)
    requires VolumesOk(disks, vols) && AllCopiesEqual(disks, vols) && v < |vols| && |data| % 512 == 0
    requires FatStart(vols[v], vols[v].nFats) <= s && s + |data| / 512 <= vols[v].end
    ensures var r := WrittenRun(disks, vols[v], s, data);
      VolumesOk(r, vols) && AllCopiesEqual(r, vols)
    decreases |data|
  {
    hide VolumesOk, AllCopiesEqual, Written, WrittenRun;
    VolumeHere(disks, vols, v);
    if |data| >= 512 {
      var n: nat, m := |data| - 512, |data| / 512 - 1;
      assert n == 512 * m && data[..512 * (m + 1)] == data;
      RunOrderly(disks, vols, v, s, data[..n]);
      WrittenAllCopies(WrittenRun(disks, vols[v], s, data[..n]), vols, v, s + m, data[n..]);
      RunMore(disks, vols[v], s, data, m);
    } else {
      assert data == [];
      RunNothing(disks, vols[v], s);
    }
  }

  /** Each sector of the run has its part of the data, and every other sector of any volume is as before. */
  lemma {:induction false} RunAt(disks: seq<Disk>, vols: seq<Geometry>, v: nat, s: nat, data: seq<byte>, u: nat, a: nat)
    requires VolumesOk(disks, vols) && AllCopiesEqual(disks, vols) && v < |vols| && |data| % 512 == 0
    requires FatStart(vols[v], vols[v].nFats) <= s && s + |data| / 512 <= vols[v].end
    requires u < |vols| && vols[u].start <= a < vols[u].end
    ensures vols[u].drive < |disks| && a < |disks[vols[u].drive]|
    ensures WrittenRun(disks, vols[v], s, data)[vols[u].drive][a] ==
      if u == v && s <= a < s + |data| / 512 then data[512 * (a - s)..512 * (a - s) + 512] else disks[vols[u].drive][a]
    decreases |data|
  {
    hide AllCopiesEqual, VolumesOk, WrittenRun;
    VolumeHere(disks, vols, u);
    VolumeHere(disks, vols, v);
    if |data| >= 512 {
      var n: nat, m := |data| - 512, |data| / 512 - 1;
      assert n == 512 * m;
      RunAt(disks, vols, v, s, data[..n], u, a);
      RunOrderly(disks, vols, v, s, data[..n]);
      LastWritten(disks, vols, v, s, data, m, u, a);
      if u == v && s <= a < s + m {
        assert data[..n][512 * (a - s)..512 * (a - s) + 512] == data[512 * (a - s)..512 * (a - s) + 512];
      }
    } else {
      assert data == [];
      RunNothing(disks, vols[v], s);
    }
  }

  lemma LastWritten(disks: seq<Disk>, vols: seq<Geometry>, v: nat, s: nat, data: seq<byte>, m: nat, u: nat, a: nat)
    requires VolumesOk(disks, vols) && v < |vols| && u < |vols| && |data| == 512 * (m + 1)
    requires vols[v].drive < |disks| && VolumesOk(WrittenRun(disks, vols[v], s, data[..512 * m]), vols)
    requires FatStart(vols[v], vols[v].nFats) <= s && s + m < vols[v].end && vols[u].start <= a < vols[u].end
    ensures var r := WrittenRun(disks, vols[v], s, data[..512 * m]);
      && vols[u].drive < |disks| && a < |disks[vols[u].drive]|
      && WrittenRun(disks, vols[v], s, data)[vols[u].drive][a] ==
        if u == v && a == s + m then data[512 * m..512 * m + 512] else r[vols[u].drive][a]
  {
    hide VolumesOk, Written, WrittenRun;
    VolumeHere(disks, vols, u);
    assert data[..512 * (m + 1)] == data;
    RunMore(disks, vols[v], s, data, m);
    DataWrittenAt(WrittenRun(disks, vols[v], s, data[..512 * m]), vols, v, s + m, data[512 * m..512 * m + 512], u, a);
  }

  lemma DataWrittenAt(disks: seq<Disk>, vols: seq<Geometry>, v: nat, s: nat, data: Sector, u: nat, a: nat)
    requires VolumesOk(disks, vols) && v < |vols| && u < |vols|
    requires FatStart(vols[v], vols[v].nFats) <= s < vols[v].end && vols[u].start <= a < vols[u].end
    ensures vols[v].drive < |disks| && vols[u].drive < |disks| && a < |disks[vols[u].drive]|
    ensures Written(disks, vols[v], s, data)[vols[u].drive][a] == if u == v && a == s then data else disks[vols[u].drive][a]
  {
    hide Written;
    assert GeometryOk(disks, vols[v]) && GeometryOk(disks, vols[u]);
    FatStartsGrow(vols[v], 1, vols[v].nFats);
    if u == v {
      WrittenAt(disks, vols[v], s, data, a);
    } else {
      WrittenElsewhere(disks, vols[v], vols[u], s, data, a);
    }
  }

  /** The window is outdated by that if and only if it holds one of the sectors, with other bytes. */
  ghost predicate Outdated(b: Buf, v: nat, s: nat, data: seq<byte>) {
    b.fs == v && s <= b.sect < s + |data| / 512 && b.data != data[512 * (b.sect - s)..512 * (b.sect - s) + 512]
  }

  lemma WrittenPast(disks: seq<Disk>, vols: seq<Geometry>, b: Buf, v: nat, s: nat, data: seq<byte>)
    requires Orderly(disks, vols, b) && !b.dirty && v < |vols| && |data| % 512 == 0
    requires FatStart(vols[v], vols[v].nFats) <= s && s + |data| / 512 <= vols[v].end
    ensures GeometryOk(disks, vols[v])
    ensures var r := WrittenRun(disks, vols[v], s, data);
      && Orderly(r, vols, b) && Apparent(r, vols, b) == r && Apparent(disks, vols, b) == disks
      && (BufOk(r, vols, b) <==>
            if b.fs == v && s <= b.sect < s + |data| / 512 then !Outdated(b, v, s, data) else BufOk(disks, vols, b))
  {
    hide VolumesOk, AllCopiesEqual, WrittenRun;
    assert GeometryOk(disks, vols[v]) by {
      VolumeHere(disks, vols, v);
    }
    RunOrderly(disks, vols, v, s, data);
    if b.sect != 0 {
      VolumeHere(disks, vols, b.fs);
      VolumeHere(WrittenRun(disks, vols[v], s, data), vols, b.fs);
      FatStartsGrow(vols[b.fs], 0, vols[b.fs].nFats);
      FatStartsGrow(vols[v], 0, vols[v].nFats);
      RunAt(disks, vols, v, s, data, b.fs, b.sect);
    }
  }

  lemma RunNothing(disks: seq<Disk>, g: Geometry, s: nat)
    requires g.drive < |disks|
    ensures WrittenRun(disks, g, s, []) == disks
  {
  }

  lemma OneSector(disks: seq<Disk>, g: Geometry, s: nat, data: Sector)
    requires g.drive < |disks| && s < |disks[g.drive]| && !InFirstFat(g, s)
    ensures disks[g.drive := WithSector(disks[g.drive], s, data)] == Written(disks, g, s, data)
  {
    FirstCopy(disks[g.drive], g, s, data, g.nFats);
  }

  lemma VolumeHere(disks: seq<Disk>, vols: seq<Geometry>, v: nat)
    requires VolumesOk(disks, vols) && v < |vols|
    ensures GeometryOk(disks, vols[v])
  {
  }

  class Window {
    const vols: seq<Geometry>
    var disks: seq<Disk>
    var buf: Buf

    constructor (disks: seq<Disk>, vols: seq<Geometry>)
      requires VolumesOk(disks, vols) && AllCopiesEqual(disks, vols)
      ensures Valid() && Fresh() && this.vols == vols && V() == disks
    {
      this.vols, this.disks := vols, disks;
      buf := Buf(0, false, |vols|, seq(512, _ => 0));
    }

    ghost predicate Valid()
      reads this
    {
      Orderly(disks, vols, buf)
    }

    /** What the window holds, if anything, is what the disks appear to hold there. */
    ghost predicate Fresh()
      reads this
    {
      BufOk(disks, vols, buf)
    }

    ghost function V(): seq<Disk>
      requires Valid()
      reads this
    {
      Apparent(disks, vols, buf)
    }

    /** The window holds sector `s` of volume `v`. */
    ghost predicate Holds(v: nat, s: nat)
      reads this
    {
      s != 0 && buf.fs == v && buf.sect == s
    }

    /** What moving the window to a sector brings up: the sector, or what an outdated window has of it. */
    ghost function Shown(v: nat, s: nat): Sector
      requires Valid() && v < |vols| && InVolume(vols[v], s)
      reads this
    {
      VolumeHere(V(), vols, v);
      if !Fresh() && Holds(v, s) then buf.data else V()[vols[v].drive][s]
    }

    /**
     Moves the window to a sector of a volume; sector 0 just writes a changed window back. What the disks
     appear to hold never changes. A sector that the window holds is not read again, though it may be outdated.
     */
    method MoveWindow(v: nat, sector: nat)
      requires Valid() && v < |vols| && (sector != 0 ==> InVolume(vols[v], sector))
      modifies this
      ensures Valid() && V() == old(V())
      ensures sector != 0 ==> Holds(v, sector) && buf.data == old(Shown(v, sector))
      ensures sector != 0 ==>
        if old(Fresh()) || !old(Holds(v, sector)) then Fresh() else buf == old(buf) && disks == old(disks)
      ensures sector == 0 ==>
        !buf.dirty && disks == V() && buf == old(buf).(dirty := false) && Fresh() == old(Fresh())
      ensures old(Fresh()) ==> Fresh()
    {
      hide Apparent, View, Orderly, BufOk, Written, VolumesOk, AllCopiesEqual;
      DirtyOrderly(disks, vols, buf);
      if Fresh() && Holds(v, sector) {
        HeldSector(disks, vols, buf);
      }
      if buf.sect != sector || buf.fs != v {
        if buf.dirty {
          WriteBack();
        }
        Unpending(disks, vols, buf);
        if sector != 0 {
          Loadable(disks, vols, buf, v, sector);
          buf := buf.(data := disks[vols[v].drive][sector], sect := sector, fs := v);
        }
      } else {
        NotZero(disks, vols, buf);
      }
    }

    /** Changes some bytes of the window; the others go with them, outdated or not. */
    method Store(ofs: nat, bytes: seq<byte>)
      requires Valid() && buf.fs < |vols| && Writable(vols[buf.fs], buf.sect) && ofs + |bytes| <= 512
      modifies this`buf
      ensures Valid() && Fresh() && buf == old(buf).(data := Patch(old(buf.data), ofs, bytes), dirty := true)
      ensures V() == Written(old(V()), vols[buf.fs], buf.sect, Patch(old(buf.data), ofs, bytes))
    {
      ChangeView(disks, vols, buf, Patch(buf.data, ofs, bytes));
      buf := buf.(data := Patch(buf.data, ofs, bytes), dirty := true);
    }

    /**
     Marks the window as changed though nothing was changed in it. If it agreed with the disks nothing looks
     different; if not, its bytes come back.
     */
    method Touch()
      requires Valid() && buf.fs < |vols| && buf.sect != 0 && Writable(vols[buf.fs], buf.sect)
      modifies this`buf
      ensures Valid() && Fresh() && buf == old(buf).(dirty := true)
      ensures V() == Written(old(V()), vols[buf.fs], buf.sect, buf.data) && (old(Fresh()) ==> V() == old(V()))
    {
      if Fresh() {
        HeldSector(disks, vols, buf);
        AllCopiesHere(V(), vols, buf.fs);
        SameWritten(V(), vols[buf.fs], buf.sect);
      }
      ChangeView(disks, vols, buf, buf.data);
      buf := buf.(dirty := true);
    }

    /** Reads `n` sectors past the window. */
    method ReadPast(v: nat, s: nat, n: nat) returns (data: seq<byte>)
      requires Valid() && !buf.dirty && v < |vols| && vols[v].start <= s && s + n <= vols[v].end
      ensures |data| == 512 * n && vols[v].drive < |V()| && s + n <= |V()[vols[v].drive]|
      ensures forall i :: 0 <= i < 512 * n ==> data[i] == V()[vols[v].drive][s + i / 512][i % 512]
    {
      hide BufOk, View, AllCopiesEqual;
      Unpending(disks, vols, buf);
      VolumeHere(disks, vols, v);
      data := [];
      var m := 0;
      while m < n
        invariant m <= n && |data| == 512 * m
        invariant forall i :: 0 <= i < 512 * m ==> data[i] == disks[vols[v].drive][s + i / 512][i % 512]
      {
        data := data + disks[vols[v].drive][s + m];
        m := m + 1;
      }
    }

    /**
     Writes data sectors past the window, which keeps what it holds: it is outdated if that is one of them,
     with other bytes.
     */
    method WritePast(v: nat, s: nat, data: seq<byte>)
      requires Valid() && !buf.dirty && v < |vols| && |data| % 512 == 0
      requires FatStart(vols[v], vols[v].nFats) <= s && s + |data| / 512 <= vols[v].end
      modifies this`disks
      ensures Valid() && vols[v].drive < |old(V())| && V() == WrittenRun(old(V()), vols[v], s, data)
      ensures Fresh() <==>
        if buf.fs == v && s <= buf.sect < s + |data| / 512 then !Outdated(buf, v, s, data) else old(Fresh())
    {
      hide BufOk, View, AllCopiesEqual, VolumesOk, WrittenRun, Orderly, Apparent, Written, Outdated;
      ghost var was := disks;
      var g := vols[v];
      WrittenPast(disks, vols, buf, v, s, data);
      var m := 0;
      assert data[..0] == [];
      RunNothing(was, g, s);
      while m < |data| / 512
        invariant m <= |data| / 512 && disks == WrittenRun(was, g, s, data[..512 * m]) && vols[v].drive < |disks|
        invariant s + |data| / 512 <= |disks[vols[v].drive]|
      {
        RunMore(was, g, s, data, m);
        assert !InFirstFat(g, s + m) by {
          FatStartsGrow(g, 1, g.nFats);
        }
        OneSector(disks, g, s + m, data[512 * m..512 * (m + 1)]);
        disks := disks[g.drive := WithSector(disks[g.drive], s + m, data[512 * m..512 * (m + 1)])];
        m := m + 1;
      }
      assert data[..512 * m] == data;
    }

    /** Fills the window with something else and writes that to a reserved sector; the window is then empty. */
    method WriteReserved(v: nat, s: nat, data: Sector)
      requires Valid() && !buf.dirty && v < |vols| && vols[v].start <= s < vols[v].fatbase
      modifies this
      ensures Valid() && Fresh() && !buf.dirty && buf.sect == 0 && disks == V()
      ensures vols[v].drive < |old(V())| && s < |old(V())[vols[v].drive]|
      ensures V() == old(V())[vols[v].drive := WithSector(old(V())[vols[v].drive], s, data)]
    {
      ReservedWrite(disks, vols, buf, v, s, data);
      buf := Buf(0, false, buf.fs, data);
      disks := disks[vols[v].drive := WithSector(disks[vols[v].drive], s, data)];
    }

    /** Writes the window to its sector and, for a sector of the table, to all copies. */
    method WriteBack()
      requires Valid() && buf.dirty
      modifies this
      ensures Valid() && Fresh() && V() == old(V()) && buf == old(buf).(dirty := false) && disks == V()
    {
      hide BufOk, VolumesOk, AllCopiesEqual, WrittenTo, CopiesEqual;
      DirtyOrderly(disks, vols, buf);
      DirtyFacts(disks, vols, buf);
      ghost var v, s := buf.fs, buf.sect;
      ghost var disk := disks[vols[v].drive];
      var g, wsect := vols[buf.fs], buf.sect;
      ghost var m := 1;
      FirstCopy(disk, g, s, buf.data, 1);
      disks := disks[g.drive := WithSector(disks[g.drive], wsect, buf.data)];
      if wsect < g.fatbase + g.sectsFat {
        var n := g.nFats;
        while n >= 2
          invariant 1 <= n && m == g.nFats - n + 1 && wsect == FatStart(g, m - 1) + (s - g.fatbase)
          invariant disks == old(disks)[g.drive := WrittenTo(disk, g, m, s, buf.data)] && buf == old(buf)
        {
          CopySector(old(disks), g, s, m);
          OneMoreCopy(disk, g, s, buf.data, m);
          wsect := wsect + g.sectsFat;
          disks := disks[g.drive := WithSector(disks[g.drive], wsect, buf.data)];
          m, n := m + 1, n - 1;
        }
      } else {
        FirstCopy(disk, g, s, buf.data, g.nFats);
      }
      buf := buf.(dirty := false);
      WrittenBack(old(disks), vols, old(buf));
    }
  }

  lemma Unpending(disks: seq<Disk>, vols: seq<Geometry>, b: Buf)
    requires Orderly(disks, vols, b) && !b.dirty
    ensures Apparent(disks, vols, b) == disks
  {
  }

  /** A changed window is never outdated. */
  lemma DirtyOrderly(disks: seq<Disk>, vols: seq<Geometry>, b: Buf)
    requires Orderly(disks, vols, b)
    ensures b.dirty || b.sect == 0 ==> BufOk(disks, vols, b)
    ensures BufOk(disks, vols, b) ==> Apparent(disks, vols, b) == View(disks, vols, b)
  {
  }

  /** A clean window can be filled from any sector of a volume. */
  lemma Loadable(disks: seq<Disk>, vols: seq<Geometry>, b: Buf, v: nat, sector: nat)
    requires Orderly(disks, vols, b) && !b.dirty && v < |vols| && InVolume(vols[v], sector)
    ensures GeometryOk(disks, vols[v])
    ensures var b' := b.(data := disks[vols[v].drive][sector], sect := sector, fs := v);
      BufOk(disks, vols, b') && Orderly(disks, vols, b') && Apparent(disks, vols, b') == disks
  {
  }

  lemma NotZero(disks: seq<Disk>, vols: seq<Geometry>, b: Buf)
    requires Orderly(disks, vols, b)
    ensures b.sect == 0 ==> !b.dirty && Apparent(disks, vols, b) == disks
  {
    if b.dirty {
      WritableInside(disks, vols[b.fs], b.sect);
    }
  }

  lemma DirtyFacts(disks: seq<Disk>, vols: seq<Geometry>, b: Buf)
    requires BufOk(disks, vols, b) && b.dirty
    ensures b.fs < |vols| && GeometryOk(disks, vols[b.fs]) && Writable(vols[b.fs], b.sect)
      && InVolume(vols[b.fs], b.sect)
    ensures b.sect < |disks[vols[b.fs].drive]|
    ensures InFirstFat(vols[b.fs], b.sect) <==> b.sect < vols[b.fs].fatbase + vols[b.fs].sectsFat
  {
    WritableInside(disks, vols[b.fs], b.sect);
    FatStartsGrow(vols[b.fs], 1, vols[b.fs].nFats);
  }

  lemma CopySector(disks: seq<Disk>, g: Geometry, s: nat, m: nat)
    requires GeometryOk(disks, g) && InFirstFat(g, s) && 1 <= m < g.nFats
    ensures FatStart(g, m) + (s - g.fatbase) < |disks[g.drive]| && FatStart(g, m) == FatStart(g, m - 1) + g.sectsFat
  {
    CopyInside(g, m, s - g.fatbase);
  }

  lemma WrittenBack(disks: seq<Disk>, vols: seq<Geometry>, b: Buf)
    requires BufOk(disks, vols, b) && b.dirty
    ensures var disks' := Written(disks, vols[b.fs], b.sect, b.data);
      && BufOk(disks', vols, b.(dirty := false)) && View(disks', vols, b.(dirty := false)) == View(disks, vols, b)
  {
    hide CopiesEqual;
    WrittenAllCopies(disks, vols, b.fs, b.sect, b.data);
    WritableInside(disks, vols[b.fs], b.sect);
    WrittenAt(disks, vols[b.fs], b.sect, b.data, b.sect);
  }

  lemma AllCopiesHere(view: seq<Disk>, vols: seq<Geometry>, v: nat)
    requires VolumesOk(view, vols) && AllCopiesEqual(view, vols) && v < |vols|
    ensures GeometryOk(view, vols[v]) && CopiesEqual(view[vols[v].drive], vols[v])
  {
  }

  /** Writing what is there already changes nothing, since the copies are equal. */
  lemma SameWritten(view: seq<Disk>, g: Geometry, s: nat)
    requires GeometryOk(view, g) && Writable(g, s) && CopiesEqual(view[g.drive], g) && s < |view[g.drive]|
    ensures Written(view, g, s, view[g.drive][s]) == view
  {
    var disk := view[g.drive];
    forall a: nat | a < |disk|
      ensures Hit(g, g.nFats, s, a) ==> disk[a] == disk[s]
    {
      if Hit(g, g.nFats, s, a) && a != s {
        var k: nat :| k < g.nFats && a == FatStart(g, k) + (s - g.fatbase);
        assert Copy(g, k, s - g.fatbase) == a;
      }
    }
    assert WrittenTo(disk, g, g.nFats, s, disk[s]) == disk;
  }

  lemma ReservedWrite(disks: seq<Disk>, vols: seq<Geometry>, b: Buf, v: nat, s: nat, data: Sector)
    requires Orderly(disks, vols, b) && !b.dirty && v < |vols| && vols[v].start <= s < vols[v].fatbase
    ensures vols[v].drive < |disks| && s < |disks[vols[v].drive]|
    ensures var disks' := disks[vols[v].drive := WithSector(disks[vols[v].drive], s, data)];
      BufOk(disks', vols, Buf(0, false, b.fs, data))
  {
    hide CopiesEqual;
    FatStartsGrow(vols[v], 0, vols[v].nFats);
    var disks' := disks[vols[v].drive := WithSector(disks[vols[v].drive], s, data)];
    forall u | 0 <= u < |vols|
      ensures GeometryOk(disks', vols[u]) && CopiesEqual(disks'[vols[u].drive], vols[u])
    {
      assert GeometryOk(disks, vols[u]);
      ReservedCopies(disks, vols, v, u, s, data);
    }
  }

  lemma ReservedCopies(disks: seq<Disk>, vols: seq<Geometry>, v: nat, u: nat, s: nat, data: Sector)
    requires VolumesOk(disks, vols) && v < |vols| && u < |vols| && vols[v].start <= s < vols[v].fatbase
      && s < |disks[vols[v].drive]|
    requires CopiesEqual(disks[vols[u].drive], vols[u])
    ensures CopiesEqual(disks[vols[v].drive := WithSector(disks[vols[v].drive], s, data)][vols[u].drive], vols[u])
  {
    var g, h := vols[v], vols[u];
    var disk, disk' := disks[h.drive], disks[g.drive := WithSector(disks[g.drive], s, data)][h.drive];
    forall k: nat, i: nat | k < h.nFats && i < h.sectsFat && Copy(h, k, i) < |disk'| && h.fatbase + i < |disk'|
      ensures disk'[Copy(h, k, i)] == disk'[h.fatbase + i]
    {
      CopyInside(h, k, i);
      CopyInside(h, 0, i);
      FatStartsGrow(g, 0, g.nFats);
      assert Copy(h, 0, i) == h.fatbase + i;
      assert disk[Copy(h, k, i)] == disk[h.fatbase + i];
    }
  }
}
