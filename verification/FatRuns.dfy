/** Whole sessions with an open file: it behaves as a byte sequence with a position, and leaves other files alone. */
module FatRuns {
  import opened Bits
  import opened Common
  import opened FatWindow
  import opened FatTable
  import opened FatChains
  import opened FatAlloc
  import opened FatLayout
  import opened FatFile
  import opened FatSeek

  // ----- the simple file -----

  datatype Command = Read(count: nat) | Write(data: seq<byte>) | Seek(ofs: nat)

  datatype Answer = Refused | Delivered(bytes: seq<byte>) | Taken(count: nat) | Done

  /** What the file was opened for. */
  datatype Rights = Rights(read: bool, write: bool)

  /** A file as it should be: its contents and the position. */
  datatype File = File(contents: seq<byte>, pos: nat)

  const SIZE_LIMIT := 0x1_0000_0000

  /** `bytes` over what is at `pos`. */
  function Over(contents: seq<byte>, pos: nat, bytes: seq<byte>): seq<byte>
    requires pos <= |contents|
  {
    contents[..pos] + bytes + (if pos + |bytes| <= |contents| then contents[pos + |bytes|..] else [])
  }

  /**
   What a command does, and what it answers. Seeking behind the end, readers stop there; writers make the file
   longer by bytes nobody has said anything about.
   */
  ghost predicate Does(r: Rights, f: File, c: Command, f': File, a: Answer) {
    && f.pos <= |f.contents|
    && match c
       case Read(n) =>
         if !r.read then a == Refused && f' == f
         else
           var out := f.contents[f.pos..Least(f.pos + n, |f.contents|)];
           a == Delivered(out) && f' == f.(pos := f.pos + |out|)
       case Write(data) =>
         if !r.write then a == Refused && f' == f
         else if |f.contents| + |data| >= SIZE_LIMIT then a == Taken(0) && f' == f
         else a == Taken(|data|) && f' == File(Over(f.contents, f.pos, data), f.pos + |data|)
       case Seek(ofs) =>
         && a == Done && f'.pos == Target(|f.contents|, r.write, ofs)
         && f.contents <= f'.contents && |f'.contents| == Most(|f.contents|, f'.pos)
  }

  /** From the first file to the last by the commands one after the other. */
  ghost predicate Follows(r: Rights, files: seq<File>, cmds: seq<Command>, answers: seq<Answer>) {
    && |files| == |cmds| + 1 && |answers| == |cmds|
    && forall i :: 0 <= i < |cmds| ==> Does(r, files[i], cmds[i], files[i + 1], answers[i])
  }

  // ----- with a window that may be outdated -----

  /**
   What a command does to a file that it finds as `seen`, because the window has other bytes than the disk of a
   sector that was written past it. Bytes read are those seen; a write leaves those seen around its own.
   */
  ghost predicate Acts(r: Rights, f: File, seen: File, c: Command, f': File, a: Answer) {
    && seen.pos == f.pos && |seen.contents| == |f.contents|
    && match c
       case Read(n) => Does(r, seen, c, seen.(pos := f'.pos), a) && f'.contents == f.contents
       case Write(data) => Does(r, seen, c, f', a)
       case Seek(ofs) => seen == f && Does(r, f, c, f', a)
  }

  /** Only a write of whole sectors can leave the window outdated. */
  predicate MayOutdate(c: Command) { c.Write? && c.data != [] && |c.data| % 512 == 0 }

  /**
   The run of a file: what it is before and after each command, what the command finds, and when the window agrees
   with the disk. If it does, what is found is what is there.
   */
  ghost predicate Runs(r: Rights, files: seq<File>, seen: seq<File>, agree: seq<bool>, cmds: seq<Command>, answers: seq<Answer>) {
    && |files| == |agree| == |cmds| + 1 && |seen| == |answers| == |cmds|
    && forall i :: 0 <= i < |cmds| ==> RunStep(r, files[i], seen[i], agree[i], cmds[i], files[i + 1], agree[i + 1], answers[i])
  }

  ghost predicate RunStep(r: Rights, f: File, seen: File, agree: bool, c: Command, f': File, agree': bool, a: Answer) {
    && Acts(r, f, seen, c, f', a)
    && (agree ==> seen == f && (MayOutdate(c) || agree'))
  }

  /** As long as no whole sectors are written, all is as with the simple file. */
  lemma {:induction false} PlainRun(r: Rights, files: seq<File>, seen: seq<File>, agree: seq<bool>, cmds: seq<Command>,
                                    answers: seq<Answer>)
    requires Runs(r, files, seen, agree, cmds, answers) && agree[0]
    requires forall i :: 0 <= i < |cmds| - 1 ==> !MayOutdate(cmds[i])
    ensures Follows(r, files, cmds, answers)
    ensures (cmds != [] ==> !MayOutdate(cmds[|cmds| - 1])) ==> agree[|cmds|]
  {
    hide Does;
    var n := |cmds|;
    if n > 0 {
      PlainRun(r, files[..n], seen[..n - 1], agree[..n], cmds[..n - 1], answers[..n - 1]);
      assert RunStep(r, files[n - 1], seen[n - 1], agree[n - 1], cmds[n - 1], files[n], agree[n], answers[n - 1]);
      forall i | 0 <= i < n
        ensures Does(r, files[i], cmds[i], files[i + 1], answers[i])
      {
        if i < n - 1 {
          assert Does(r, files[..n][i], cmds[..n - 1][i], files[..n][i + 1], answers[..n - 1][i]);
        } else {
          PlainStep(r, files[i], cmds[i], files[i + 1], answers[i]);
        }
      }
    }
  }

  lemma PlainStep(r: Rights, f: File, c: Command, f': File, a: Answer)
    requires Acts(r, f, f, c, f', a)
    ensures Does(r, f, c, f', a)
  {
  }

  // ----- what is allowed -----

  /** Size and position, and whether the position is the start of a cluster that was reached from inside it. */
  datatype Place = Place(size: nat, pos: nat, entered: bool)

  /** Where a command leads; the bytes in the file have no part in that. */
  function After(z: nat, r: Rights, w: Place, c: Command): Place
    requires z > 0 && w.pos <= w.size
  {
    match c
    case Read(n) =>
      var m := if r.read then Least(w.pos + n, w.size) - w.pos else 0;
      w.(pos := w.pos + m, entered := w.entered && m == 0)
    case Write(data) =>
      if !r.write || w.size + |data| >= SIZE_LIMIT then w
      else Place(Most(w.size, w.pos + |data|), w.pos + |data|, w.entered && data == [])
    case Seek(ofs) =>
      var t := Target(w.size, r.write, ofs);
      if ofs == w.pos then w else Place(Most(w.size, t), t, t > 0 && w.pos > 0 && t == ClusterStart(w.pos, z))
  }

  /**
   Transfers of any size; from position 0 no seek into the cluster with the highest 32-bit number; and
   from a cluster entered at its start only seeks that do go right from there.
   */
  ghost predicate Allowed(z: nat, r: Rights, w: Place, c: Command)
    requires z > 0
  {
    match c
    case Read(n) => true
    case Write(data) => |data| < SIZE_LIMIT
    case Seek(ofs) =>
      var t := Target(w.size, r.write, ofs);
      && ofs < SIZE_LIMIT
      && (|| ofs == w.pos || t == 0
          || (if w.pos == 0 then t / z != 0xFFFF_FFFF / z else w.entered ==> t == w.pos || t + z < w.pos))
  }

  ghost predicate AllAllowed(z: nat, r: Rights, w: Place, cmds: seq<Command>)
    requires z > 0 && w.pos <= w.size
    decreases |cmds|
  {
    cmds != [] ==> Allowed(z, r, w, cmds[0]) && AllAllowed(z, r, After(z, r, w, cmds[0]), cmds[1..])
  }

  // ----- the open file is such a file -----

  ghost function FileOf(h: FileHandle): (f: File)
    requires h.Valid()
    reads h, h.fs.w
    ensures f.pos <= |f.contents|
  {
    File(h.Bytes()[..h.fsize], h.fptr)
  }

  function RightsOf(h: FileHandle): Rights { Rights(h.canRead, h.canWrite) }

  ghost function PlaceOf(h: FileHandle): (w: Place)
    requires h.Valid()
    reads h, h.fs.w
    ensures w.pos <= w.size
  {
    Place(h.fsize, h.fptr, Entered(h.fs.G(), h.chain, h.at, h.P()))
  }

  /** The file as a transfer of `n` bytes finds it. */
  ghost function SeenBy(h: FileHandle, n: nat): (f: File)
    requires h.Valid()
    reads h, h.fs.w
    ensures f.pos <= |f.contents|
    ensures h.fs.w.Fresh() ==> f == FileOf(h)
  {
    File(h.Found(n)[..h.fsize], h.fptr)
  }

  /** The file as a command finds it that is not refused. */
  ghost function Seen(h: FileHandle, c: Command): File
    requires h.Valid()
    reads h, h.fs.w
  {
    match c
    case Read(n) => if h.canRead then SeenBy(h, Least(n, h.fsize - h.fptr)) else FileOf(h)
    case Write(data) => if h.canWrite && h.fsize + |data| < SIZE_LIMIT then SeenBy(h, |data|) else FileOf(h)
    case Seek(ofs) => FileOf(h)
  }

  lemma ReadDoes(r: Rights, F: seq<byte>, E: seq<byte>, fsize: nat, pos: nat, n: nat, out: seq<byte>)
    requires pos <= fsize <= |F| == |E| && out == (if r.read then E[pos..Least(pos + n, fsize)] else [])
    ensures Acts(r, File(F[..fsize], pos), File(E[..fsize], pos), Read(n), File(F[..fsize], pos + |out|),
                 if r.read then Delivered(out) else Refused)
  {
    assert r.read ==> E[..fsize][pos..Least(pos + n, fsize)] == out;
  }

  lemma WriteDoes(r: Rights, F: seq<byte>, F': seq<byte>, fsize: nat, pos: nat, data: seq<byte>)
    requires pos <= fsize <= |F| && Spliced(F, F', pos, data) && r.write && fsize + |data| < SIZE_LIMIT
    ensures Most(fsize, pos + |data|) <= |F'|
    ensures Does(r, File(F[..fsize], pos), Write(data), File(F'[..Most(fsize, pos + |data|)], pos + |data|), Taken(|data|))
  {
    var m := Most(fsize, pos + |data|);
    var G, G' := Over(F[..fsize], pos, data), F'[..m];
    assert |G| == m;
    forall i | 0 <= i < m
      ensures G[i] == G'[i]
    {
      if pos <= i < pos + |data| {
        assert F'[pos..pos + |data|][i - pos] == data[i - pos];
      }
    }
    assert G == G';
  }

  lemma SeekDoes(r: Rights, F: seq<byte>, F': seq<byte>, fsize: nat, fsize': nat, pos: nat, ofs: nat)
    requires pos <= fsize <= |F| && F <= F' && fsize' == Most(fsize, Target(fsize, r.write, ofs)) <= |F'|
    ensures Does(r, File(F[..fsize], pos), Seek(ofs), File(F'[..fsize'], Target(fsize, r.write, ofs)), Done)
  {
    assert F[..fsize] <= F'[..fsize'];
  }

  /** A position that goes with the sector fields. */
  ghost predicate Steady(h: FileHandle)
    requires h.fs.v < |h.fs.w.vols|
    reads h
  {
    Ready(h.fs.G(), h.chain, h.at, h.P())
  }

  /** What every command keeps, and where it leads. */
  ghost predicate Stepped(h: FileHandle, view: seq<Disk>, chain: seq<nat>)
    reads h, h.fs.w
  {
    && h.Valid() && Steady(h) && !h.error
    && Grew(view, h.fs.w.V(), h.fs.G(), chain, h.chain)
  }

  method ReadStep(h: FileHandle, n: nat) returns (a: Answer)
    requires h.Valid() && Steady(h) && !h.error
    modifies h, h.fs, h.fs.w
    ensures Stepped(h, old(h.fs.w.V()), old(h.chain)) && (old(h.fs.w.Fresh()) ==> h.fs.w.Fresh())
    ensures Acts(RightsOf(h), old(FileOf(h)), old(Seen(h, Read(n))), Read(n), FileOf(h), a) && h.written == old(h.written)
    ensures PlaceOf(h) == After(ClusterSize(h.fs.G()), RightsOf(h), old(PlaceOf(h)), Read(n))
  {
    hide View, BufOk, Table, Sectors, ChainOk, EndedChain, Standing, Entered, AtTop, Grew, Acts, BytesOf, Stuck, Orderly,
      Apparent, FileHandle.Found, FoundBytes;
    ghost var F, E, fsize, pos := h.Bytes(), h.Found(Least(n, h.fsize - h.fptr)), h.fsize, h.fptr;
    GrewNot(h.fs.w.V(), h.fs.G(), h.chain);
    var res, out := h.Read(n);
    a := if res == Denied then Refused else Delivered(out);
    ReadDoes(RightsOf(h), F, if h.canRead then E else F, fsize, pos, n, out);
    NotEntered(h.fs.G(), h.chain, h.at, h.P());
  }

  method WriteStep(h: FileHandle, data: seq<byte>) returns (ok: bool, a: Answer)
    requires h.Valid() && Steady(h) && !h.error && |data| < SIZE_LIMIT
    modifies h, h.fs, h.fs.w
    ensures h.fs.Valid()
    ensures ok ==> Stepped(h, old(h.fs.w.V()), old(h.chain))
    ensures ok ==> Acts(RightsOf(h), old(FileOf(h)), old(Seen(h, Write(data))), Write(data), FileOf(h), a)
    ensures ok && h.canWrite && old(h.fsize) + |data| < SIZE_LIMIT ==> (h.fs.w.Fresh() <==> old(h.WillAgree(data)))
    ensures ok && old(h.fs.w.Fresh()) ==> MayOutdate(Write(data)) || h.fs.w.Fresh()
    ensures ok ==> h.written == (old(h.written) || (h.canWrite && old(h.fsize) + |data| < SIZE_LIMIT))
    ensures ok ==> PlaceOf(h) == After(ClusterSize(h.fs.G()), RightsOf(h), old(PlaceOf(h)), Write(data))
    ensures !ok ==> NoneFree(h.fs.T()) || TableBroken(old(h.fs.T()))
  {
    hide View, BufOk, Table, Sectors, ChainOk, EndedChain, Standing, Entered, AtTop, Grew, BytesOf, Stuck, NoneFree, TableBroken,
         Spliced, Over, Orderly, Apparent, FileHandle.Found, FoundBytes, FileHandle.WillAgree;
    ghost var F, fsize, pos := h.Found(|data|), h.fsize, h.fptr;
    PartsAgree(h, data);
    GrewNot(h.fs.w.V(), h.fs.G(), h.chain);
    var fits := h.fsize + |data| < SIZE_LIMIT;
    var res, bw := h.Write(data);
    ok := if h.canWrite && fits then res == Ok && bw == |data| else true;
    a := if h.canWrite then Taken(bw) else Refused;
    if ok && h.canWrite && fits {
      assert data[..bw] == data;
      WriteDoes(RightsOf(h), F, h.Bytes(), fsize, pos, data);
      NotEntered(h.fs.G(), h.chain, h.at, h.P());
    }
  }

  /** Anything but whole sectors leaves the window in agreement. */
  lemma PartsAgree(h: FileHandle, data: seq<byte>)
    requires h.fs.v < |h.fs.w.vols|
    ensures h.fs.w.Fresh() && !MayOutdate(Write(data)) ==> h.WillAgree(data)
  {
  }

  method SeekStep(h: FileHandle, ofs: nat) returns (ok: bool, a: Answer)
    requires h.Valid() && Steady(h) && !h.error && Allowed(ClusterSize(h.fs.G()), RightsOf(h), PlaceOf(h), Seek(ofs))
    modifies h, h.fs, h.fs.w
    ensures h.fs.Valid()
    ensures ok ==> Stepped(h, old(h.fs.w.V()), old(h.chain)) && Does(RightsOf(h), old(FileOf(h)), Seek(ofs), FileOf(h), a)
    ensures ok && old(h.fs.w.Fresh()) ==> h.fs.w.Fresh()
    ensures ok ==> h.written == (old(h.written) || h.fsize > old(h.fsize))
    ensures ofs == 0 ==> ok
    ensures ok && ofs == 0 ==>
      && h.fptr == 0 && (old(h.fptr) != 0 ==> h.csect == 1) && h.orgClust == old(h.orgClust)
      && h.fs.w.buf.(dirty := false) == old(h.fs.w.buf).(dirty := false) && h.fs.w.Fresh() == old(h.fs.w.Fresh())
      && h.fs.w.V() == old(h.fs.w.V()) && h.chain == old(h.chain)
    ensures ok ==> PlaceOf(h) == After(ClusterSize(h.fs.G()), RightsOf(h), old(PlaceOf(h)), Seek(ofs))
    ensures !ok ==> NoneFree(h.fs.T()) || TableBroken(old(h.fs.T()))
  {
    hide View, BufOk, Table, Sectors, ChainOk, EndedChain, Standing, Entered, AtTop, Grew, Does, BytesOf, Stuck, NoneFree, TableBroken,
         ClusterStart, ClusterSize, TableOnly, SeekSafe, SameCluster, RestOf;
    ghost var g, F, fsize, p, t, org, view, chain := h.fs.G(), h.Bytes(), h.fsize, h.P(), h.fs.T(), h.orgClust, h.fs.w.V(), h.chain;
    ghost var target := Target(h.fsize, h.canWrite, ofs);
    AllowedIsSafe(g, chain, h.at, p, target);
    SamePlace(p.fptr, fsize, h.canWrite, ofs);
    var to := Target(h.fsize, h.canWrite, ofs);
    var res := FatSeek.Seek(h, ofs);
    ok, a := res == Ok && h.fptr == to, Done;
    if ok {
      BytesKept(view, h.fs.w.V(), g, t, h.fs.T(), chain, h.chain, org, h.orgClust);
      SeekDoes(RightsOf(h), F, h.Bytes(), fsize, h.fsize, p.fptr, ofs);
      if p.fptr != ofs {
        EnteredAfter(g, h.chain, h.at, h.P(), p.fptr, target);
      }
    }
  }

  lemma SamePlace(pos: nat, fsize: nat, canWrite: bool, ofs: nat)
    requires pos <= fsize
    ensures ofs == pos ==> Target(fsize, canWrite, ofs) == pos
  {
  }

  lemma AllowedIsSafe(g: Geometry, chain: seq<nat>, k: nat, p: Pos, target: nat)
    requires g.csize >= 1 && Ready(g, chain, k, p)
    requires target == 0 || (if p.fptr == 0 then target / ClusterSize(g) != 0xFFFF_FFFF / ClusterSize(g)
                             else Entered(g, chain, k, p) ==> target == p.fptr || target + ClusterSize(g) < p.fptr)
    ensures SeekSafe(g, chain, k, p, target)
  {
    if Entered(g, chain, k, p) {
      EnteredIsAhead(g, chain, k, p);
    }
  }

  lemma EnteredAfter(g: Geometry, chain: seq<nat>, k: nat, p: Pos, fptr0: nat, target: nat)
    requires g.csize >= 1 && p.fptr == target && fptr0 < SIZE_LIMIT && EnteredWhen(g, chain, k, p, fptr0, target)
    requires fptr0 == 0 && target > 0 ==> target / ClusterSize(g) != 0xFFFF_FFFF / ClusterSize(g)
    ensures Entered(g, chain, k, p) <==> target > 0 && fptr0 > 0 && target == ClusterStart(fptr0, ClusterSize(g))
  {
    if fptr0 > 0 {
      EnteredFrom(g, fptr0, target);
    }
  }

  lemma NotEntered(g: Geometry, chain: seq<nat>, k: nat, p: Pos)
    ensures Standing(g, chain, k, p) ==> !Entered(g, chain, k, p)
  {
  }

  /** After a write that is not refused, and after a seek that makes the file longer, its entry has to be stored. */
  predicate Marks(r: Rights, size: nat, size': nat, c: Command) {
    match c
    case Read(n) => false
    case Write(data) => r.write && size + |data| < SIZE_LIMIT
    case Seek(ofs) => size' > size
  }

  /** Executes one command; it fails only if the volume is full or its table broken. */
  method Step(h: FileHandle, c: Command) returns (ok: bool, a: Answer)
    requires h.Valid() && Steady(h) && !h.error && Allowed(ClusterSize(h.fs.G()), RightsOf(h), PlaceOf(h), c)
    modifies h, h.fs, h.fs.w
    ensures h.fs.Valid()
    ensures ok ==> Stepped(h, old(h.fs.w.V()), old(h.chain))
    ensures ok ==> RunStep(RightsOf(h), old(FileOf(h)), old(Seen(h, c)), old(h.fs.w.Fresh()), c, FileOf(h), h.fs.w.Fresh(), a)
    ensures ok && c.Write? && h.canWrite && old(h.fsize) + |c.data| < SIZE_LIMIT ==>
      (h.fs.w.Fresh() <==> old(h.WillAgree(c.data)))
    ensures ok ==> PlaceOf(h) == After(ClusterSize(h.fs.G()), RightsOf(h), old(PlaceOf(h)), c)
    ensures ok ==> h.written == (old(h.written) || Marks(RightsOf(h), old(h.fsize), h.fsize, c))
    ensures !ok ==> NoneFree(h.fs.T()) || TableBroken(old(h.fs.T()))
  {
    hide View, BufOk, Table, Sectors, ChainOk, EndedChain, Standing, Grew, BytesOf, NoneFree, TableBroken, Over,
      ClusterStart, Does, After, Orderly, Apparent, FileHandle.Found, FoundBytes, FileHandle.WillAgree;
    ok := true;
    match c {
      case Read(n) => a := ReadStep(h, n);
      case Write(data) => ok, a := WriteStep(h, data);
      case Seek(ofs) => ok, a := SeekStep(h, ofs);
    }
  }

  /**
   Executes commands one after the other, on a file opened for reading, writing, both or neither. Unless the
   volume gets full or its table is broken, the answers and the bytes in the file are those of a run: they follow the
   simple file as long as the window agrees with the disk, as it does unless whole sectors are written.
   */
  method Session(h: FileHandle, cmds: seq<Command>)
    returns (ok: bool, answers: seq<Answer>, ghost files: seq<File>, ghost seen: seq<File>, ghost agree: seq<bool>)
    requires h.Valid() && Steady(h) && !h.error && AllAllowed(ClusterSize(h.fs.G()), RightsOf(h), PlaceOf(h), cmds)
    modifies h, h.fs, h.fs.w
    ensures h.fs.Valid()
    ensures ok ==> Stepped(h, old(h.fs.w.V()), old(h.chain))
    ensures ok ==> Runs(RightsOf(h), files, seen, agree, cmds, answers)
    ensures ok ==> files[0] == old(FileOf(h)) && files[|cmds|] == FileOf(h)
    ensures ok ==> agree[0] == old(h.fs.w.Fresh()) && agree[|cmds|] == h.fs.w.Fresh()
    ensures !ok ==> NoneFree(h.fs.T()) || TableBroken(old(h.fs.T()))
    decreases |cmds|
  {
    hide View, BufOk, Table, Sectors, ChainOk, EndedChain, Standing, Grew, BytesOf, NoneFree, TableBroken, RunStep,
      Allowed, After, Runs, Orderly, Apparent, FileHandle.Found, FoundBytes;
    files, seen, agree := [FileOf(h)], [], [h.fs.w.Fresh()];
    if cmds == [] {
      GrewNot(h.fs.w.V(), h.fs.G(), h.chain);
      NothingRuns(RightsOf(h), files[0], agree[0]);
      return true, [], files, seen, agree;
    }
    ghost var view, chain, t, f, s := h.fs.w.V(), h.chain, h.fs.T(), FileOf(h), Seen(h, cmds[0]);
    var a, more;
    ok, a := Step(h, cmds[0]);
    answers := [a];
    if ok {
      ghost var view1, chain1, t1, rest, others, later := h.fs.w.V(), h.chain, h.fs.T(), files, seen, agree;
      if TableBroken(t1) {
        WasBroken(view, view1, h.fs.G(), chain, chain1, t, t1, h.orgClust);
      }
      ok, more, rest, others, later := Session(h, cmds[1..]);
      if ok {
        OneRuns(RightsOf(h), f, s, agree[0], cmds[0], a, rest, others, later, cmds[1..], more);
        assert [cmds[0]] + cmds[1..] == cmds;
        ChainThere(h.fs.w.V(), h.fs.G(), h.fs.T(), h.chain, h.orgClust);
        GrewMore(view, view1, h.fs.w.V(), h.fs.G(), chain, chain1, h.chain);
      }
      answers, files, seen, agree := answers + more, files + rest, [s] + others, agree + later;
    }
  }

  lemma NothingRuns(r: Rights, f: File, agree: bool)
    ensures Runs(r, [f], [], [agree], [], [])
  {
  }

  lemma OneRuns(r: Rights, f: File, s: File, b: bool, c: Command, a: Answer, files: seq<File>, seen: seq<File>,
      agree: seq<bool>, cmds: seq<Command>, answers: seq<Answer>)
    requires Runs(r, files, seen, agree, cmds, answers) && RunStep(r, f, s, b, c, files[0], agree[0], a)
    ensures Runs(r, [f] + files, [s] + seen, [b] + agree, [c] + cmds, [a] + answers)
    ensures ([f] + files)[|cmds| + 1] == files[|cmds|] && ([b] + agree)[|cmds| + 1] == agree[|cmds|]
  {
    hide RunStep;
    var F, S, B, C, A := [f] + files, [s] + seen, [b] + agree, [c] + cmds, [a] + answers;
    forall i | 0 <= i < |C|
      ensures RunStep(r, F[i], S[i], B[i], C[i], F[i + 1], B[i + 1], A[i])
    {
      if i > 0 {
        assert F[i] == files[i - 1] && F[i + 1] == files[i] && S[i] == seen[i - 1] && B[i] == agree[i - 1]
          && B[i + 1] == agree[i] && C[i] == cmds[i - 1] && A[i] == answers[i - 1];
      }
    }
  }

  // ----- a read that goes wrong -----

  /** Position 0, and what the window holds of the first sector begins with `a`. */
  ghost predicate AtStart(h: FileHandle, a: byte)
    reads h, h.fs, h.fs.w
  {
    && h.Valid() && Steady(h) && !h.error && h.fptr == 0 && h.csect == 1 && h.chain != []
    && h.fs.w.Holds(h.fs.v, FirstSector(h.fs.G(), h.orgClust)) && h.fs.w.buf.data[0] == a
  }

  lemma StartFacts(h: FileHandle)
    requires h.Valid() && h.chain != []
    ensures 2 <= h.orgClust && h.orgClust == h.chain[0] && |h.Bytes()| >= 512 && h.fs.G().csize >= 1
    ensures Sectors(h.fs.G(), h.chain) != [] && Sectors(h.fs.G(), h.chain)[0] == FirstSector(h.fs.G(), h.orgClust)
    ensures h.fs.G().drive < |h.fs.w.V()| && Sectors(h.fs.G(), h.chain)[0] < |h.fs.w.V()[h.fs.G().drive]|
    ensures h.Bytes()[0] == h.fs.w.V()[h.fs.G().drive][Sectors(h.fs.G(), h.chain)[0]][0]
  {
    hide View, BufOk, Table, Sectors, EndedChain, Orderly, Apparent;
    ChainThere(h.fs.w.V(), h.fs.G(), h.fs.T(), h.chain, h.orgClust);
    SectorAt(h.fs.G(), h.chain, 0, 0);
    TimesGrow(h.fs.G().csize, 1, |h.chain|);
  }

  /** Behind the first byte the current sector is the first one. */
  lemma FirstByteStands(h: FileHandle)
    requires h.Valid() && h.fptr == 1 && Standing(h.fs.G(), h.chain, h.at, h.P())
    ensures h.chain != [] && h.currSect == FirstSector(h.fs.G(), h.orgClust)
  {
    hide View, BufOk, Table, Sectors, EndedChain, Orderly, Apparent;
    StartFacts(h);
  }

  method SeekStart(h: FileHandle)
    requires h.Valid() && Steady(h) && !h.error && h.fptr != 0
    modifies h, h.fs, h.fs.w
    ensures h.fs.Valid()
    ensures h.Valid() && Steady(h) && !h.error && h.fptr == 0 && h.csect == 1 && h.orgClust == old(h.orgClust)
    ensures h.fs.w.buf.(dirty := false) == old(h.fs.w.buf).(dirty := false) && h.fs.w.Fresh() == old(h.fs.w.Fresh())
    ensures h.fs.w.V() == old(h.fs.w.V()) && h.chain == old(h.chain) && h.fsize == old(h.fsize)
  {
    hide View, BufOk, Table, Sectors, ChainOk, EndedChain, Standing, Entered, AtTop, Grew, Does, BytesOf, Stuck, NoneFree,
      TableBroken, Orderly, Apparent;
    var ok, a := SeekStep(h, 0);
  }

  /** The first sector of a file in the window, with byte `a` at its start. */
  method StoreFirst(h: FileHandle, a: byte) returns (ok: bool)
    requires h.Valid() && Steady(h) && h.fptr == 0 && !h.error && h.canWrite && h.fsize + 1 < SIZE_LIMIT
    modifies h, h.fs, h.fs.w
    ensures h.fs.Valid()
    ensures ok ==> AtStart(h, a) && h.fs.w.Fresh() && h.fsize == Most(old(h.fsize), 1)
    ensures ok ==> Grew(old(h.fs.w.V()), h.fs.w.V(), h.fs.G(), old(h.chain), h.chain)
    ensures !ok ==> NoneFree(h.fs.T()) || TableBroken(old(h.fs.T()))
  {
    hide View, BufOk, Table, Sectors, ChainOk, EndedChain, Entered, AtTop, Grew, BytesOf, Stuck, NoneFree, TableBroken,
      Orderly, Apparent, FoundBytes, Standing, AgreesAfter;
    PartsAgree(h, [a]);
    var res, bw := h.Write([a]);
    ok := res == Ok && bw == 1;
    if ok {
      FirstByteStands(h);
      StartFacts(h);
      assert h.Bytes()[0..1] == [a];
      HeldSector(h.fs.w.disks, h.fs.w.vols, h.fs.w.buf);
      DirtyOrderly(h.fs.w.disks, h.fs.w.vols, h.fs.w.buf);
      SeekStart(h);
    }
  }

  /** A sector of other bytes goes past the window, which keeps its own. */
  method StorePast(h: FileHandle, a: byte, data: seq<byte>) returns (ok: bool)
    requires AtStart(h, a) && h.fs.w.Fresh() && h.canWrite && |data| == 512 && data[0] != a && h.fsize + 512 < SIZE_LIMIT
    modifies h, h.fs, h.fs.w
    ensures h.fs.Valid()
    ensures ok ==> AtStart(h, a) && !h.fs.w.Fresh() && h.fsize >= 512 && |h.Bytes()| >= 512 && h.Bytes()[..512] == data
    ensures !ok ==> NoneFree(h.fs.T()) || TableBroken(old(h.fs.T()))
  {
    hide View, BufOk, Table, Sectors, ChainOk, EndedChain, Entered, AtTop, Grew, BytesOf, Stuck, NoneFree, TableBroken,
      Orderly, Apparent, FoundBytes, Standing, FirstSector;
    StartFacts(h);
    ghost var view, chain := h.fs.w.V(), h.chain;
    var res, bw := h.Write(data);
    ok := res == Ok && bw == 512;
    if ok {
      GrewChain(view, h.fs.w.V(), h.fs.G(), chain, h.chain);
      assert data[..bw] == data;
      StartFacts(h);
      SeekStart(h);
    }
  }

  /**
   The input that goes wrong: with any file at position 0 that may be read and written, after a byte, a seek to 0, a
   sector of bytes that begins otherwise, and a seek to 0 again, reading a byte gives the first one, though the file
   begins with the sector.
   */
  method StaleRead(h: FileHandle, a: byte, data: seq<byte>) returns (ok: bool, out: seq<byte>)
    requires h.Valid() && Steady(h) && h.fptr == 0 && !h.error && h.canRead && h.canWrite
    requires |data| == 512 && data[0] != a && h.fsize + 513 < SIZE_LIMIT
    modifies h, h.fs, h.fs.w
    ensures h.fs.Valid()
    ensures ok ==> h.Valid() && |h.Bytes()| >= 512 && h.Bytes()[..512] == data && out == [a]
    ensures !ok ==> NoneFree(h.fs.T()) || TableBroken(old(h.fs.T()))
  {
    hide View, BufOk, Table, Sectors, ChainOk, EndedChain, Entered, AtTop, Grew, BytesOf, Stuck, NoneFree, TableBroken,
      Orderly, Apparent, FoundBytes, Standing, FirstSector;
    out := [];
    ghost var view, chain, t := h.fs.w.V(), h.chain, h.fs.T();
    ok := StoreFirst(h, a);
    if !ok {
      return;
    }
    ghost var view1, chain1, t1, org1 := h.fs.w.V(), h.chain, h.fs.T(), h.orgClust;
    ok := StorePast(h, a, data);
    if !ok {
      if TableBroken(t1) {
        WasBroken(view, view1, h.fs.G(), chain, chain1, t, t1, org1);
      }
      return;
    }
    StartFacts(h);
    StaleFound(h, a);
    var res;
    res, out := h.Read(1);
  }

  lemma StaleFound(h: FileHandle, a: byte)
    requires AtStart(h, a) && !h.fs.w.Fresh()
    ensures |h.Found(1)| >= 1 && h.Found(1)[..1] == [a]
  {
    hide View, BufOk, Table, Sectors, ChainOk, EndedChain, Entered, AtTop, BytesOf, Stuck, Orderly, Apparent, FoundBytes, Standing,
      FirstSector;
    StartFacts(h);
    ChainThere(h.fs.w.V(), h.fs.G(), h.fs.T(), h.chain, h.orgClust);
    h.fs.VolumeOk();
    h.LeftoverPlace();
    FoundAt(h.fs.w.V(), h.fs.G(), Sectors(h.fs.G(), h.chain), h.Leftover(), FirstAsked(h.fs.G(), h.orgClust, h.P(), 1), 0);
  }

  // ----- other files -----

  /** A file that shares no cluster with the changed one keeps its chain and its bytes, and still shares none. */
  lemma OtherFile(view: seq<Disk>, view': seq<Disk>, g: Geometry, chain: seq<nat>, chain': seq<nat>, k: seq<nat>)
    requires ClustersOk(g) && Grew(view, view', g, chain, chain') && EndedChain(Table(view, g), k)
    requires Clusters(g, chain') && (forall c :: c in k ==> c !in chain)
    ensures EndedChain(Table(view', g), k) && (forall c :: c in k ==> c !in chain')
    ensures OnDrive(view, g, Sectors(g, k)) && OnDrive(view', g, Sectors(g, k))
    ensures BytesOf(view', g, Sectors(g, k)) == BytesOf(view, g, Sectors(g, k))
  {
    hide Table, Sectors, OthersSame, BytesOf;
    var t, t' := Table(view, g), Table(view', g);
    forall i | 0 <= i < |k|
      ensures k[i] !in chain' && t'[k[i]] == t[k[i]]
    {
      StillApart(t, chain, chain', k, i);
    }
    ChainSectors(view, g, k);
    forall q | 0 <= q < |Sectors(g, k)|
      ensures view'[g.drive][Sectors(g, k)[q]] == view[g.drive][Sectors(g, k)[q]] && Sectors(g, k)[q] < |view'[g.drive]|
    {
      OtherSector(view, view', g, chain', k, q);
    }
    SameBytesOf(view, view', g, Sectors(g, k));
  }

  lemma StillApart(t: seq<nat>, chain: seq<nat>, chain': seq<nat>, k: seq<nat>, i: nat)
    requires chain <= chain' && (forall j :: |chain| <= j < |chain'| ==> IsCluster(t, chain'[j]) && t[chain'[j]] == 0)
    requires EndedChain(t, k) && i < |k| && (forall c :: c in k ==> c !in chain)
    ensures k[i] !in chain'
  {
    assert k[i] in k;
    forall j | 0 <= j < |chain'|
      ensures chain'[j] != k[i]
    {
      if j < |chain| {
        assert chain'[j] == chain[j];
      }
    }
  }

  lemma OtherSector(view: seq<Disk>, view': seq<Disk>, g: Geometry, chain': seq<nat>, k: seq<nat>, q: nat)
    requires GeometryOk(view, g) && ClustersOk(g) && OthersSame(view, view', g, Sectors(g, chain'))
      && Clusters(g, chain') && Clusters(g, k)
    requires q < |Sectors(g, k)| && (forall c :: c in k ==> c !in chain')
    requires DataSectors(g, Sectors(g, k)) && OnDrive(view, g, Sectors(g, k))
    ensures Sectors(g, k)[q] < |view'[g.drive]| && view'[g.drive][Sectors(g, k)[q]] == view[g.drive][Sectors(g, k)[q]]
  {
    hide Sectors;
    var s := Sectors(g, k)[q];
    assert !InTable(g, g.drive, s);
    forall p | 0 <= p < |Sectors(g, chain')|
      ensures Sectors(g, chain')[p] != s
    {
      ChainsApart(g, k, chain', q, p);
    }
  }
}
