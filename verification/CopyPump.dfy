/** The copy command: bytes move from a chain of source files through two buffers into one file of a disk image. */
module CopyPump {
  import opened Bits
  import opened Common
  import opened DxxGeometry
  import opened DxxBam
  import opened DxxState
  import opened DxxLayout
  import opened DxxFrames
  import opened DxxVolume
  import opened DxxFiles
  import opened DxxWrite
  import opened DxxRead
  import opened DxxRuns

  /** The bytes of a file that is read block by block. */
  function Joined(blocks: seq<seq<byte>>): seq<byte> {
    if blocks == [] then [] else Joined(blocks[..|blocks| - 1]) + blocks[|blocks| - 1]
  }

  /** The bytes of several files, one after the other. */
  function AllFiles(files: seq<seq<seq<byte>>>): seq<byte> {
    if files == [] then [] else AllFiles(files[..|files| - 1]) + Joined(files[|files| - 1])
  }

  /** A file is at least one block, if only an empty one; a block has up to 254 bytes. */
  predicate Blocks(blocks: seq<seq<byte>>) {
    blocks != [] && forall i :: 0 <= i < |blocks| ==> |blocks[i]| <= 254
  }

  /** As files are unless something else wrote them: only the one block of an empty file has no bytes. */
  predicate Ordinary(blocks: seq<seq<byte>>) {
    |blocks| > 1 ==> forall i :: 0 <= i < |blocks| ==> blocks[i] != []
  }

  /** A file opened for reading: its buffer holds block number `at`. */
  class Source {
    const blocks: seq<seq<byte>>
    var at: nat
    var data: Sector
    var position: byte
    var lastused: byte
    var sendeoi: bool

    /** Opening reads the first block. */
    constructor (blocks: seq<seq<byte>>)
      requires Blocks(blocks)
      ensures this.blocks == blocks && at == 0 && Loaded() && position == 2
    {
      this.blocks, at := blocks, 0;
      data := [0, 0] + blocks[0] + ZeroBytes(254 - |blocks[0]|);
      position, lastused, sendeoi := 2, (|blocks[0]| + 1) as byte, |blocks| == 1;
    }

    ghost predicate Loaded()
      reads this
    {
      && Blocks(blocks) && at < |blocks|
      && lastused as int == |blocks[at]| + 1 && data[2..lastused as int + 1] == blocks[at]
      && sendeoi == (at == |blocks| - 1)
    }

    /** Reads the next block. */
    method Refill()
      requires Loaded() && !sendeoi
      modifies this
      ensures Loaded() && at == old(at) + 1 && position == 2
    {
      at := at + 1;
      data := data[..2] + blocks[at] + ZeroBytes(254 - |blocks[at]|);
      position, lastused, sendeoi := 2, (|blocks[at]| + 1) as byte, at == |blocks| - 1;
    }
  }

  // ----- the destination -----

  /** Where the destination's bytes end; a wrapped position means that the buffer is full. */
  function Level(position: byte): nat { if position == 0 then 256 else position }

  /** The destination is open, and its sectors and its buffer hold the bytes handed over. */
  ghost predicate Taking(vol: Volume, buf: FileBuffer, handed: seq<byte>)
    reads vol, vol.drive, buf
  {
    && vol.Valid() && buf.Seated(vol.L) && buf.held && !buf.read && buf.position != 1
    && Holds(TreeOf(vol), buf.dh, buf.data, Level(buf.position), handed)
  }

  /** The number of its last byte goes with the position. */
  ghost predicate Counted(buf: FileBuffer)
    reads buf
  {
    buf.lastused as int == Level(buf.position) - 1
  }

  /** How many bytes one turn moves: to the end of the fuller buffer, but none into a full one, since 256 is 0 in a byte. */
  function ToCopy(srcPos: byte, srcLast: byte, dstPos: byte): (n: byte)
    requires srcPos as int <= srcLast + 1
  {
    Least((256 - dstPos) % 256, srcLast - srcPos + 1)
  }

  /** Copies one turn's bytes. The source position stops one short, which the test for the end wants. */
  method Turn(src: Source, buf: FileBuffer) returns (n: byte)
    requires src.Loaded() && 2 <= src.position && src.position as int <= src.lastused + 1 && buf.position != 1
    modifies src`position, buf`data, buf`position, buf`lastused
    ensures n == ToCopy(old(src.position), src.lastused, old(buf.position)) && old(Level(buf.position)) + n <= 256
    ensures buf.data == Pasted(old(buf.data), old(Level(buf.position)), src.data[old(src.position)..old(src.position) + n])
    ensures Level(buf.position) == old(Level(buf.position)) + n && buf.position != 1 && Counted(buf)
    ensures src.position as int == old(src.position) + n - 1
  {
    hide Pasted, Blocks, ToCopy, Level;
    TurnMoves(src.position, src.lastused, buf.position);
    n := ToCopy(src.position, src.lastused, buf.position);
    var piece := src.data[src.position..src.position as int + n];
    PastedWraps(buf.data, buf.position, piece);
    Wraps(buf.position, n);
    buf.data := Pasted(buf.data, buf.position, piece);
    src.position := (src.position + (n - 1)) % 256;
    buf.position := (buf.position + n) % 256;
    buf.lastused := (buf.position - 1) % 256;
  }

  /** A wrapped position is where nothing more is put. */
  lemma PastedWraps(data: Sector, position: byte, piece: seq<byte>)
    requires Level(position) + |piece| <= 256
    ensures position + |piece| <= 256 && Pasted(data, position, piece) == Pasted(data, Level(position), piece)
  {
    if position == 0 {
      assert piece == [];
      assert data[..0] + piece + data[0..] == data == data[..256] + piece + data[256..];
    }
  }

  lemma Wraps(position: byte, n: byte)
    requires position != 1 && Level(position) + n <= 256
    ensures var p := (position + n) % 256;
      Level(p) == Level(position) + n && p != 1 && (p - 1) % 256 == Level(p) - 1
  {
  }

  function Pasted(data: Sector, at: nat, piece: seq<byte>): Sector
    requires at + |piece| <= 256
  {
    data[..at] + piece + data[at + |piece|..]
  }

  lemma PastedHolds(T: Tree, slot: Slot, data: Sector, n: nat, bytes: seq<byte>, piece: seq<byte>)
    requires Holds(T, slot, data, n, bytes) && n + |piece| <= 256
    ensures Holds(T, slot, Pasted(data, n, piece), n + |piece|, bytes + piece)
  {
    assert Pasted(data, n, piece)[2..n + |piece|] == data[2..n] + piece;
  }

  /** If nothing is in the destination's buffer, it has been handed nothing so far, or there is more to come. */
  ghost predicate Unfilled(ordinary: bool, dstPos: byte, h: seq<byte>, srcPos: byte, srcLast: byte) {
    ordinary && dstPos == 2 ==> h == [] || srcPos <= srcLast
  }

  lemma UnfilledTurn(o: bool, b: byte, h: seq<byte>, piece: seq<byte>, p: int, last: byte, k: byte, b': byte)
    requires b != 1 && 2 <= p <= last as int + 1 && p < 256 && Unfilled(o, b, h, p as byte, last) && |piece| == k as int
    requires k == ToCopy(p as byte, last, b) && Level(b') == Level(b) + k
    ensures o && b' == 2 ==> h + piece == []
  {
  }

  lemma UnfilledNext(o: bool, b: byte, b': byte, h: seq<byte>, p: byte, last: byte)
    requires (o && b == 2 ==> h == []) && (o ==> p <= last) && b' == (if b == 0 then 2 else b)
    ensures Unfilled(o, b', h, p, last)
  {
  }

  /** The step of the source between two turns. */
  method StepOn(src: Source, ghost h: seq<byte>, ghost handed: seq<byte>)
    requires src.Loaded() && 1 <= src.position <= src.lastused && !(src.sendeoi && src.position == src.lastused)
    requires Progress(h, handed, src.blocks, src.at, src.data, src.position as int + 1)
    modifies src
    ensures src.Loaded() && 2 <= src.position && src.position as int <= src.lastused + 1
    ensures Progress(h, handed, src.blocks, src.at, src.data, src.position)
    ensures if old(src.position) == old(src.lastused) then src.at > old(src.at)
            else src.at == old(src.at) && src.position == old(src.position) + 1
    ensures Ordinary(src.blocks) ==> src.position <= src.lastused
  {
    hide Joined, Progress, Blocks, Ordinary;
    ghost var at, was, q := src.at, src.data, src.position as int + 1;
    StepSource(src);
    NextBytes(src);
    SameProgress(h, handed, src.blocks, at, was, q, src.at, src.data, src.position);
  }

  /** The bytes of a turn go behind those handed over before. */
  method TakeTurn(src: Source, vol: Volume, buf: FileBuffer, ghost h: seq<byte>, ghost handed: seq<byte>, ghost o: bool)
    returns (ghost h': seq<byte>)
    requires src.Loaded() && 2 <= src.position && src.position as int <= src.lastused + 1 && Taking(vol, buf, h)
    requires Progress(h, handed, src.blocks, src.at, src.data, src.position)
    requires Unfilled(o, buf.position, h, src.position, src.lastused)
    modifies src`position, buf`data, buf`position, buf`lastused
    ensures src.Loaded() && old(src.position) - 1 <= src.position <= src.lastused && Taking(vol, buf, h')
      && Counted(buf)
    ensures Progress(h', handed, src.blocks, src.at, src.data, src.position as int + 1)
    ensures src.position < old(src.position) && src.position != src.lastused ==> old(buf.position) == buf.position == 0
    ensures src.position >= old(src.position) && src.position != src.lastused ==> buf.position == 0
    ensures o && buf.position == 2 ==> h' == []
  {
    hide TreeOk, StateOf, Holds, Pasted, ToCopy, Blocks, Progress, Unfilled;
    ghost var p: int, b, data, d := src.position, buf.position, buf.data, Level(buf.position);
    TurnMoves(src.position, src.lastused, buf.position);
    var n := Turn(src, buf);
    PastedHolds(TreeOf(vol), buf.dh, data, d, h, src.data[p..p + n]);
    TurnProgress(h, h + src.data[p..p + n], handed, src.blocks, src.at, src.data, p, n);
    UnfilledTurn(o, b, h, src.data[p..p + n], p, src.lastused, n, buf.position);
    TurnFills(p, src.lastused, b, n, buf.position);
    h' := h + src.data[p..p + n];
  }

  /** A turn that leaves bytes in the source has filled the destination. */
  lemma TurnFills(p: int, last: byte, b: byte, n: byte, b': byte)
    requires 2 <= p <= last as int + 1 && p < 256 && b != 1 && n == ToCopy(p as byte, last, b) && b' != 1
    requires Level(b') == Level(b) + n
    ensures p + n - 1 < last as int ==> b' == 0
  {
  }

  /** Stores the destination's buffer if it is full. */
  method MakeRoom(vol: Volume, buf: FileBuffer, ghost h: seq<byte>) returns (failed: bool)
    requires Taking(vol, buf, h) && Counted(buf)
    modifies vol, vol.drive, buf
    ensures vol.Valid() && vol.Rest() == old(vol.Rest()) && buf.dh == old(buf.dh)
    ensures Grown(vol.f, old(TreeOf(vol)), TreeOf(vol), buf.dh)
    ensures !failed ==> Taking(vol, buf, h) && buf.position == if old(buf.position) == 0 then 2 else old(buf.position)
    ensures !failed && old(Counts(buf.blocks, vol.L.files[buf.dh])) ==> Counts(buf.blocks, vol.L.files[buf.dh])
    ensures !failed ==> (buf.track as int == DirTrack(vol.f) <==> old(buf.track) as int == DirTrack(vol.f))
    ensures failed ==> Contents(TreeOf(vol), buf.dh, h) && NoneLeft(vol.f, vol.St(), old(buf.track))
  {
    hide TreeOk, StateOf, Holds, Grown, Contents, NoneLeft, Counts, LastByteAt;
    GrownNot(vol.f, TreeOf(vol), buf.dh);
    failed := false;
    if buf.position == 0 {
      failed := Flush(vol, buf, h);
    }
  }

  /** The destination has been handed `h`, and the source goes on from there. */
  ghost predicate Midway(src: Source, vol: Volume, buf: FileBuffer, h: seq<byte>, handed: seq<byte>, o: bool)
    reads src, vol, vol.drive, buf
  {
    && src.Loaded() && 2 <= src.position && src.position as int <= src.lastused + 1
    && Taking(vol, buf, h) && Progress(h, handed, src.blocks, src.at, src.data, src.position)
    && (buf.position == 0 ==> src.at == 0 && src.position == 2)
    && Unfilled(o, buf.position, h, src.position, src.lastused) && (o ==> Ordinary(src.blocks))
  }

  /** How much is left to do: blocks, bytes of this block, and a full buffer to be stored. */
  function Left(src: Source, buf: FileBuffer): (int, int, int)
    reads src, buf
  {
    (|src.blocks| - src.at, 256 - src.position as int, if buf.position == 0 then 1 else 0)
  }

  predicate Less(a: (int, int, int), b: (int, int, int)) {
    a.0 < b.0 || (a.0 == b.0 && (a.1 < b.1 || (a.1 == b.1 && a.2 < b.2)))
  }

  /** The destination has only grown since `T`, when its last sector was on track `t0`. */
  ghost predicate Since(vol: Volume, buf: FileBuffer, T: Tree, t0: byte, counts: bool)
    reads vol, vol.drive, buf
  {
    && vol.Valid() && buf.dh in vol.L.files && Grown(vol.f, T, TreeOf(vol), buf.dh)
    && (buf.track as int == DirTrack(vol.f) <==> t0 as int == DirTrack(vol.f))
    && (counts ==> Counts(buf.blocks, vol.L.files[buf.dh]))
  }

  /** All of the source is in the destination, whose buffer is not empty unless nothing was handed over at all. */
  ghost predicate Through(src: Source, vol: Volume, buf: FileBuffer, handed: seq<byte>, o: bool)
    reads src, vol, vol.drive, buf
  {
    Taking(vol, buf, handed + Joined(src.blocks)) && Counted(buf) && (o && buf.position == 2 ==> handed + Joined(src.blocks) == [])
  }

  /** One turn, and what it takes for the next one. */
  method Round(src: Source, vol: Volume, buf: FileBuffer, ghost h: seq<byte>, ghost handed: seq<byte>, ghost o: bool,
               ghost T: Tree, ghost t0: byte, ghost counts: bool)
    returns (done: bool, failed: bool, ghost h': seq<byte>)
    requires Midway(src, vol, buf, h, handed, o) && Since(vol, buf, T, t0, counts)
    modifies src, vol, vol.drive, buf
    ensures vol.Valid() && vol.Rest() == old(vol.Rest()) && buf.dh == old(buf.dh) && !(done && failed)
    ensures done ==> Through(src, vol, buf, handed, o)
    ensures !done && !failed ==> Midway(src, vol, buf, h', handed, o) && Less(Left(src, buf), old(Left(src, buf))) && src.at <= |src.blocks|
    ensures !failed ==> Since(vol, buf, T, t0, counts)
    ensures failed ==> h' <= handed + Joined(src.blocks) && Contents(TreeOf(vol), buf.dh, h') && NoneLeft(vol.f, vol.St(), t0)
    ensures failed ==> Grown(vol.f, T, TreeOf(vol), buf.dh)
  {
    hide Joined, Progress, ToCopy, Blocks, TreeOk, StateOf, Holds, Grown, Contents, NoneLeft, Counts, LastByteAt,
      Pasted, Ordinary, Unfilled;
    done, failed := false, false;
    h' := TakeTurn(src, vol, buf, h, handed, o);
    if src.sendeoi && src.position == src.lastused {
      AllRead(h', handed, src.blocks, src.at, src.data, src.lastused as int + 1);
      done := true;
      return;
    }
    StepOn(src, h', handed);
    ghost var b, T1, t := buf.position, TreeOf(vol), buf.track;
    failed := MakeRoom(vol, buf, h');
    GrownMore(vol.f, T, T1, TreeOf(vol), buf.dh);
    if failed {
      ProgressPrefix(h', handed, src.blocks, src.at, src.data, src.position, src.lastused as int + 1);
      SameRoom(vol.f, vol.St(), t, t0);
    } else {
      UnfilledNext(o, b, buf.position, h', src.position, src.lastused);
    }
  }

  /**
   Copies a whole source file to the end of what the destination has. If there is no sector for a further block
   the destination ends with the `n` bytes handed over until then.
   */
  method CopyFile(src: Source, vol: Volume, buf: FileBuffer, ghost handed: seq<byte>, ghost T: Tree, ghost t0: byte, ghost counts: bool)
    returns (failed: bool, ghost n: nat)
    requires src.Loaded() && src.at == 0 && src.position == 2 && Taking(vol, buf, handed)
      && Since(vol, buf, T, t0, counts)
    modifies src, vol, vol.drive, buf
    ensures vol.Valid() && vol.Rest() == old(vol.Rest()) && buf.dh == old(buf.dh)
    ensures !failed ==> Since(vol, buf, T, t0, counts)
    ensures !failed ==>
      Through(src, vol, buf, handed, Ordinary(src.blocks) && (old(buf.position) == 2 ==> handed == []))
    ensures n <= |handed + Joined(src.blocks)|
    ensures failed ==> Contents(TreeOf(vol), buf.dh, (handed + Joined(src.blocks))[..n]) && NoneLeft(vol.f, vol.St(), t0)
    ensures failed ==> Grown(vol.f, T, TreeOf(vol), buf.dh)
  {
    hide Joined, TreeOk, StateOf, Grown, Contents, NoneLeft, Ordinary, Midway, Since, Through, Source.Loaded, Taking;
    ghost var h, o := handed, Ordinary(src.blocks) && (buf.position == 2 ==> handed == []);
    StartMidway(src, vol, buf, handed, o);
    MidwayLeft(src, vol, buf, h, handed, o);
    var done := false;
    n := 0;
    while !done
      invariant vol.Valid() && vol.Rest() == old(vol.Rest()) && buf.dh == old(buf.dh) && Since(vol, buf, T, t0, counts)
      invariant if done then Through(src, vol, buf, handed, o) else Midway(src, vol, buf, h, handed, o)
      decreases !done, |src.blocks| - src.at, 256 - src.position as int, if buf.position == 0 then 1 else 0
    {
      MidwayLeft(src, vol, buf, h, handed, o);
      done, failed, h := Round(src, vol, buf, h, handed, o, T, t0, counts);
      if failed {
        n := |h|;
        assert (handed + Joined(src.blocks))[..n] == h;
        return;
      }
    }
    failed := false;
  }

  lemma StartMidway(src: Source, vol: Volume, buf: FileBuffer, handed: seq<byte>, o: bool)
    requires src.Loaded() && src.at == 0 && src.position == 2 && Taking(vol, buf, handed)
    requires o ==> Ordinary(src.blocks) && (buf.position == 2 ==> handed == [])
    ensures Midway(src, vol, buf, handed, handed, o)
  {
    hide Joined, Progress, Blocks, TreeOk, StateOf, Holds, Ordinary;
    NothingYet(src.blocks, src.data, handed);
  }

  lemma MidwayLeft(src: Source, vol: Volume, buf: FileBuffer, h: seq<byte>, handed: seq<byte>, o: bool)
    requires Midway(src, vol, buf, h, handed, o)
    ensures src.at < |src.blocks| && vol.Valid()
  {
    hide Joined, Progress, Blocks, TreeOk, StateOf, Holds, Ordinary, Unfilled;
  }

  /** The destination has what it had before, all earlier blocks, and the block in the buffer up to `p`. */
  ghost predicate Progress(h: seq<byte>, handed: seq<byte>, blocks: seq<seq<byte>>, at: nat, data: Sector, p: int) {
    at <= |blocks| && 2 <= p <= 256 && h == handed + (Joined(blocks[..at]) + data[2..p])
  }

  /** What has been handed over is the beginning of what will be. */
  lemma ProgressPrefix(h: seq<byte>, handed: seq<byte>, blocks: seq<seq<byte>>, at: nat, data: Sector, p: int, q: int)
    requires Progress(h, handed, blocks, at, data, p) && at < |blocks| && p <= q <= 256 && data[2..q] == blocks[at]
    ensures h <= handed + Joined(blocks)
  {
    hide Joined;
    WholeBlock(blocks, at);
    JoinedPrefix(blocks, at + 1);
    assert data[2..p] == blocks[at][..p - 2];
    assert Joined(blocks[..at]) + data[2..p] <= Joined(blocks[..at]) + blocks[at];
  }

  lemma {:induction false} JoinedPrefix(blocks: seq<seq<byte>>, n: nat)
    requires n <= |blocks|
    ensures Joined(blocks[..n]) <= Joined(blocks)
    decreases |blocks| - n
  {
    if n == |blocks| {
      assert blocks[..n] == blocks;
    } else {
      WholeBlock(blocks, n);
      JoinedPrefix(blocks, n + 1);
    }
  }

  lemma {:induction false} AllFilesPrefix(files: seq<seq<seq<byte>>>, n: nat)
    requires n <= |files|
    ensures AllFiles(files[..n]) <= AllFiles(files)
    decreases |files| - n
  {
    if n == |files| {
      assert files[..n] == files;
    } else {
      assert files[..n + 1][..n] == files[..n];
      AllFilesPrefix(files, n + 1);
    }
  }

  /** A turn that moves nothing makes room. */
  lemma TurnMoves(srcPos: byte, srcLast: byte, dstPos: byte)
    requires 2 <= srcPos && srcPos as int <= srcLast + 1
    ensures ToCopy(srcPos, srcLast, dstPos) == 0 <==> dstPos == 0 || srcPos as int == srcLast + 1
    ensures srcPos as int + ToCopy(srcPos, srcLast, dstPos) <= srcLast + 1
    ensures Level(dstPos) + ToCopy(srcPos, srcLast, dstPos) <= 256
  {
  }

  lemma TurnProgress(h: seq<byte>, h': seq<byte>, handed: seq<byte>, blocks: seq<seq<byte>>, at: nat,
      data: Sector, p: int, n: byte)
    requires Progress(h, handed, blocks, at, data, p) && p + n <= 256 && h' == h + data[p..p + n]
    ensures Progress(h', handed, blocks, at, data, p + n)
  {
    hide Joined;
    assert data[2..p] + data[p..p + n] == data[2..p + n];
  }

  lemma SameProgress(h: seq<byte>, handed: seq<byte>, blocks: seq<seq<byte>>, at: nat, data: Sector, p: int,
      at': nat, data': Sector, p': int)
    requires Progress(h, handed, blocks, at, data, p) && at' <= |blocks| && 2 <= p' <= 256
    requires Joined(blocks[..at']) + data'[2..p'] == Joined(blocks[..at]) + data[2..p]
    ensures Progress(h, handed, blocks, at', data', p')
  {
  }

  lemma AllRead(h: seq<byte>, handed: seq<byte>, blocks: seq<seq<byte>>, at: nat, data: Sector, p: int)
    requires Progress(h, handed, blocks, at, data, p) && at == |blocks| - 1 && data[2..p] == blocks[at]
    ensures h == handed + Joined(blocks)
  {
    WholeBlock(blocks, at);
    assert blocks[..at + 1] == blocks;
  }

  /** Takes the step that was left out, or reads the next block when this one is used up. */
  method StepSource(src: Source)
    requires src.Loaded() && 1 <= src.position <= src.lastused && !(src.sendeoi && src.position == src.lastused)
    modifies src
    ensures src.Loaded() && 2 <= src.position && src.position as int <= src.lastused + 1
    ensures Joined(src.blocks[..src.at]) + src.data[2..src.position]
      == Joined(src.blocks[..old(src.at)]) + old(src.data)[2..old(src.position as int + 1)]
    ensures if old(src.position) == old(src.lastused) then src.at == old(src.at) + 1 && src.position == 2
            else src.at == old(src.at) && src.position == old(src.position) + 1 <= src.lastused
  {
    var used := src.position == src.lastused;
    src.position := (src.position + 1) % 256;
    if used {
      WholeBlock(src.blocks, src.at);
      src.Refill();
      assert src.data[2..2] == [];
    }
  }

  lemma NothingYet(blocks: seq<seq<byte>>, data: Sector, handed: seq<byte>)
    ensures Progress(handed, handed, blocks, 0, data, 2)
  {
    assert blocks[..0] == [] && data[2..2] == [];
  }

  lemma WholeBlock(blocks: seq<seq<byte>>, i: nat)
    requires i < |blocks|
    ensures Joined(blocks[..i + 1]) == Joined(blocks[..i]) + blocks[i]
  {
    assert blocks[..i + 1][..i] == blocks[..i];
  }

  /** Behind the first block of an ordinary file there is always another byte. */
  lemma NextBytes(src: Source)
    requires src.Loaded() && 2 <= src.position && ((src.position == 2 && src.at > 0) || src.position <= src.lastused)
    ensures Ordinary(src.blocks) ==> src.position <= src.lastused
  {
  }

  /** Copies all files into an opened destination. */
  method CopyAll(files: seq<seq<seq<byte>>>, vol: Volume, buf: FileBuffer, ghost T: Tree, ghost t0: byte)
    returns (failed: bool, ghost n: nat)
    requires files != [] && forall i :: 0 <= i < |files| ==> Blocks(files[i])
    requires Taking(vol, buf, []) && Since(vol, buf, T, t0, true)
    modifies vol, vol.drive, buf
    ensures vol.Valid() && vol.Rest() == old(vol.Rest()) && buf.dh == old(buf.dh)
    ensures Grown(vol.f, T, TreeOf(vol), buf.dh) && n <= |AllFiles(files)|
    ensures !failed ==> Taking(vol, buf, AllFiles(files)) && Counted(buf) && Since(vol, buf, T, t0, true)
    ensures !failed && (forall i :: 0 <= i < |files| ==> Ordinary(files[i])) && buf.position == 2 ==> AllFiles(files) == []
    ensures failed ==> Contents(TreeOf(vol), buf.dh, AllFiles(files)[..n]) && NoneLeft(vol.f, vol.St(), t0)
  {
    hide Joined, AllFiles, Blocks, Ordinary, TreeOk, StateOf, Holds, Grown, Contents, NoneLeft, Counts;
    ghost var o := forall j :: 0 <= j < |files| ==> Ordinary(files[j]);
    failed, n := false, 0;
    NoFiles(files);
    var i := 0;
    while i < |files|
      invariant 0 <= i <= |files| && Taking(vol, buf, AllFiles(files[..i])) && buf.dh == old(buf.dh)
      invariant vol.Rest() == old(vol.Rest()) && Since(vol, buf, T, t0, true) && (i > 0 ==> Counted(buf))
      invariant o && buf.position == 2 ==> AllFiles(files[..i]) == []
    {
      var src := new Source(files[i]);
      failed, n := CopyFile(src, vol, buf, AllFiles(files[..i]), T, t0, true);
      NextFile(files, i);
      if failed {
        assert AllFiles(files)[..n] == (AllFiles(files[..i]) + Joined(files[i]))[..n];
        return;
      }
      i := i + 1;
    }
    assert files[..i] == files;
    n := 0;
  }

  datatype Outcome = Copied | Full | NotOpened

  /**
   Copies the files one after the other into a new file: it gets their bytes in order, and nothing else. Unless
   they have no bytes at all it can be read. On a disk with too few sectors it gets as much of them as these take.
   */
  method Copy(vol: Volume, name: seq<byte>, kind: byte, stamp: Stamp, files: seq<seq<seq<byte>>>)
    returns (res: Outcome, slot: Slot, ghost n: nat)
    requires vol.Valid() && kind != 0 && |name| <= NAME_LENGTH && forall i :: 0 <= i < |files| ==> Blocks(files[i])
    requires files != []
    modifies vol, vol.drive
    ensures vol.Valid() && vol.Rest() == old(vol.Rest()) && Step(vol.f, old(TreeOf(vol)), TreeOf(vol), slot)
    ensures res == Copied ==> slot !in old(vol.L.files) && Contents(TreeOf(vol), slot, AllFiles(files)) && SizeRight(TreeOf(vol), slot)
    ensures res == Copied ==>
      slot in vol.L.files && vol.L.files[slot] != [] && EntryListed(TreeOf(vol), slot, name, kind, vol.L.files[slot][0], stamp)
    ensures res == Copied && (forall i :: 0 <= i < |files| ==> Ordinary(files[i])) ==>
      (Readable(TreeOf(vol), slot) <==> AllFiles(files) != [])
    ensures res == Full ==>
      && NoRoom(vol.f, vol.St()) && slot !in old(vol.L.files)
      && n <= |AllFiles(files)| && Contents(TreeOf(vol), slot, AllFiles(files)[..n])
    ensures res == NotOpened ==>
      && vol.L.files == old(vol.L.files)
      && (NoRoom(vol.f, vol.St()) || NoEntryLeft(vol.f, vol.St(), vol.L))
  {
    hide Joined, AllFiles, Blocks, Ordinary, TreeOk, StateOf, Holds, Grown, Contents, NoneLeft, Counts, LastByteAt,
      Created, DirOnly, Step, SizeRight, NoRoom, FreeOffDir, NoEntryLeft, EntryOpened, EntryCompleted, EntryListed;
    ghost var T := TreeOf(vol);
    n := 0;
    var buf := new FileBuffer();
    var ok := OpenWrite(vol, name, kind, stamp, buf);
    slot := buf.dh;
    if !ok {
      DirStepIs(vol.f, T, TreeOf(vol), slot);
      DirFiles(vol.f, T, TreeOf(vol));
      NoRoomAtAll(vol.f, T, TreeOf(vol));
      return NotOpened, slot, n;
    }
    ghost var T1, t0 := TreeOf(vol), buf.track;
    CreateStep(vol.f, T, T1, slot, TS(buf.track, buf.sector), name, kind, stamp);
    CreatedSeat(vol.f, T, T1, slot, TS(buf.track, buf.sector), name, kind, stamp);
    NewHolds(vol.f, T, T1, slot, TS(buf.track, buf.sector), name, kind, stamp, buf.data);
    GrownNot(vol.f, T1, slot);
    var failed;
    failed, n := CopyAll(files, vol, buf, T1, t0);
    GrowStep(vol.f, T1, TreeOf(vol), slot);
    StepsCompose(vol.f, T, T1, TreeOf(vol), slot);
    if failed {
      NoRoomToGrow(vol.f, vol.St(), t0);
      return Full, slot, n;
    }
    ghost var last, T2 := buf.lastused, TreeOf(vol);
    GrownEntry(vol.f, T1, T2, slot);
    SomeBytes(TreeOf(vol), slot, buf.data, Level(buf.position), AllFiles(files));
    CloseFile(vol, buf, stamp, T, AllFiles(files));
    ClosedListed(T1, T2, TreeOf(vol), slot, name, kind, T1.L.files[slot][0], stamp);
    ReadableByte(TreeOf(vol), slot, last);
    res := Copied;
  }

  /** What the file sends afterwards is the bytes of the sources, if and only if they have any. */
  method CopyThenSend(vol: Volume, name: seq<byte>, kind: byte, stamp: Stamp, files: seq<seq<seq<byte>>>)
    returns (res: Outcome, out: seq<byte>)
    requires vol.Valid() && kind != 0 && |name| <= NAME_LENGTH && files != []
    requires forall i :: 0 <= i < |files| ==> Blocks(files[i]) && Ordinary(files[i])
    modifies vol, vol.drive
    ensures vol.Valid() && vol.Rest() == old(vol.Rest())
    ensures res == Copied ==> (out == AllFiles(files) <==> AllFiles(files) != [])
    ensures res != Copied ==> NoRoom(vol.f, vol.St()) || NoEntryLeft(vol.f, vol.St(), vol.L)
  {
    hide AllFiles, Blocks, Ordinary, TreeOk, StateOf, Contents, Step, SizeRight, NoRoom, NoEntryLeft, Readable, Sent,
      Ended, Inside;
    var slot;
    ghost var n;
    out := [];
    res, slot, n := Copy(vol, name, kind, stamp, files);
    if res == Copied {
      ReadableSent(TreeOf(vol), slot, AllFiles(files));
      var err;
      err, out := ReadFile(vol, slot);
    }
  }

  /**
   What the loop does when the destination could not be opened, which it does not ask: its buffer is empty, no
   refill function is set, and a turn and the step after it leave everything as it was.
   */
  method IdleTurn(src: Source, buf: FileBuffer)
    requires src.Loaded() && src.position == 2 <= src.lastused && buf.position == 0
    modifies src, buf
    ensures src.Loaded() && src.position == 2 && src.at == old(src.at) && buf.position == 0 && buf.data == old(buf.data)
  {
    var n := Turn(src, buf);
    StepSource(src);
  }

  lemma SomeBytes(T: Tree, slot: Slot, data: Sector, n: nat, bytes: seq<byte>)
    requires Holds(T, slot, data, n, bytes)
    ensures n > 2 ==> bytes != []
  {
  }

  lemma NoFiles(files: seq<seq<seq<byte>>>)
    ensures AllFiles(files[..0]) == []
  {
  }

  lemma NextFile(files: seq<seq<seq<byte>>>, i: nat)
    requires i < |files|
    ensures AllFiles(files[..i + 1]) == AllFiles(files[..i]) + Joined(files[i])
    ensures AllFiles(files[..i]) + Joined(files[i]) <= AllFiles(files)
  {
    assert files[..i + 1][..i] == files[..i];
    AllFilesPrefix(files, i + 1);
  }

  lemma DirFiles(f: Disk, T: Tree, T': Tree)
    requires DirOnly(f, T, T')
    ensures T'.L.files == T.L.files
  {
  }
}
