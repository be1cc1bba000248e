/** Writing a file of the EEPROM file system and reading it back: what was written is what is read. */
module EepromRun {
  import opened Bits
  import opened Common
  import opened EepromLayout
  import opened EepromStructure
  import opened EepromStore
  import opened EepromFs

  function Concat(chunks: seq<seq<byte>>): seq<byte> {
    if chunks == [] then [] else Concat(chunks[..|chunks| - 1]) + chunks[|chunks| - 1]
  }

  function Sum(lens: seq<nat>): nat {
    if lens == [] then 0 else Sum(lens[..|lens| - 1]) + lens[|lens| - 1]
  }

  /**
   Creates a file, writes it in chunks, closes it, opens it again and reads it in pieces. Whatever the
   sizes of chunks and pieces, the pieces are the beginning of the concatenated chunks.
   */
  method RoundTrip(fs: Store, name: seq<byte>, chunks: seq<seq<byte>>, lens: seq<nat>) returns (err: Error, out: seq<byte>)
    requires fs.Valid() && |name| == NAME_LENGTH
    modifies fs
    ensures fs.Valid()
    ensures err == Ok ==> out <= Concat(chunks) && |out| == Least(Sum(lens), |Concat(chunks)|)
    ensures err == FileExists <==> Taken(old(fs.V()), name)
    ensures err == DiskFull ==> fs.freeSectors == 0
    ensures err == DirFull ==> fs.AllEntriesUsed()
    ensures err == Ok || err == FileExists || err == DirFull || err == DiskFull
  {
    hide StoreOk, Appended, FileCreated, ViewOf, Taken, WriteSeat, ReadSeat, Times;
    out := [];
    var fh := new FileHandle();
    err := fs.Open(name, fh, ForWriting);
    if err != Ok {
      return;
    }
    ghost var h: nat, S0 := fh.entry, fs.S();
    err := WriteAll(fs, fh, chunks);
    if err != Ok {
      return;
    }
    ghost var S1 := fs.S();
    WrittenFacts(fs.g, old(fs.S()), S0, S1, h, name, Concat(chunks));
    fs.CanRecord(fh);
    ContentsLength(fs.g, S1, h);
    fs.Close(fh);
    TakenBy(fs.V(), name, h);
    err := fs.Open(name, fh, ForReading);
    SameName(fs.g, fs.S(), h, fh.entry);
    out := ReadAll(fs, fh, lens);
    assert Concat(chunks) == fs.V().contents[h][..fh.size];
  }

  /** Writes all the chunks, stopping at the first error. */
  method WriteAll(fs: Store, fh: FileHandle, chunks: seq<seq<byte>>) returns (err: Error)
    requires fs.Valid() && fh.mode.ModeWrite? && fs.WriteReady(fh) && fh.curOffset == fh.size == 0
    modifies fs, fh
    ensures fs.Valid() && fh.entry == old(fh.entry)
    ensures err == Ok || err == DirFull || err == DiskFull
    ensures err == DiskFull ==> fs.freeSectors == 0
    ensures err == DirFull ==> fs.AllEntriesUsed()
    ensures err == Ok ==> fh.mode.ModeWrite? && fs.WriteReady(fh) && fh.curOffset == fh.size == |Concat(chunks)|
    ensures err == Ok ==> Appended(fs.g, old(fs.S()), fs.S(), fh.entry, 0, Concat(chunks))
  {
    hide StoreOk, Appended, ViewOf, WriteSeat, Times;
    ghost var h: nat, S0 := fh.entry, fs.S();
    var i := 0;
    AppendNothing(fs.g, S0, h, 0);
    while i < |chunks|
      invariant 0 <= i <= |chunks|
      invariant fs.Valid() && fh.mode.ModeWrite? && fh.entry as int == h && fs.WriteReady(fh)
      invariant fh.curOffset == fh.size == |Concat(chunks[..i])|
      invariant Appended(fs.g, S0, fs.S(), h, 0, Concat(chunks[..i]))
    {
      ghost var S1 := fs.S();
      var written;
      err, written := fs.Write(fh, chunks[i]);
      if err != Ok {
        return;
      }
      assert chunks[i][..written] == chunks[i];
      assert chunks[..i + 1][..i] == chunks[..i];
      AppendMore(fs.g, S0, S1, fs.S(), h, 0, Concat(chunks[..i]), chunks[i]);
      i := i + 1;
    }
    assert chunks[..i] == chunks;
    err := Ok;
  }

  /** Reads one piece after the other. */
  method ReadAll(fs: Store, fh: FileHandle, lens: seq<nat>) returns (out: seq<byte>)
    requires fs.Valid() && fh.mode.ModeRead? && fs.ReadReady(fh) && fh.curOffset == 0
    requires fh.entry as int in fs.V().contents && fh.size <= |fs.V().contents[fh.entry as int]|
    modifies fs, fh
    ensures fs.Valid() && fs.S() == old(fs.S()) && fh.size == old(fh.size)
    ensures fh.entry as int in fs.V().contents && fh.size <= |fs.V().contents[fh.entry as int]|
      && fh.entry == old(fh.entry)
    ensures out == fs.V().contents[fh.entry as int][..fh.size][..Least(Sum(lens), fh.size)]
  {
    hide StoreOk, ViewOf, ReadSpot, Times;
    ghost var h: nat, c := fh.entry, fs.V().contents;
    ContentsLength(fs.g, fs.S(), h);
    out := [];
    var i := 0;
    while i < |lens|
      invariant 0 <= i <= |lens|
      invariant fs.Valid() && fh.mode.ModeRead? && fs.ReadReady(fh) && fs.S() == old(fs.S())
      invariant fh.entry == old(fh.entry) && fh.size == old(fh.size)
      invariant fh.curOffset == Least(Sum(lens[..i]), fh.size)
      invariant out == c[h][..fh.curOffset]
    {
      ghost var at := fh.curOffset;
      var err, piece := fs.Read(fh, lens[i]);
      assert c[h][..at] + c[h][at..fh.curOffset] == c[h][..fh.curOffset];
      out := out + piece;
      assert lens[..i + 1][..i] == lens[..i];
      i := i + 1;
    }
    assert lens[..i] == lens;
  }

  lemma WrittenFacts(g: Geometry, S: Snapshot, S0: Snapshot, S1: Snapshot, h: nat, name: seq<byte>, bytes: seq<byte>)
    requires FileCreated(g, S, S0, h, name) && Appended(g, S0, S1, h, 0, bytes)
    ensures h in S1.L.files && h in ViewOf(S1).names && ViewOf(S1).names[h] == name
    ensures h in ViewOf(S1).contents && |bytes| <= |ViewOf(S1).contents[h]|
      && ViewOf(S1).contents[h][..|bytes|] == bytes
  {
    hide StoreOk, ViewOf;
  }

  lemma TakenBy(v: View, name: seq<byte>, h: nat)
    requires h in v.names && v.names[h] == name
    ensures Taken(v, name)
  {
  }

  lemma SameName(g: Geometry, S: Snapshot, h: nat, k: nat)
    requires StoreOk(g, S)
    requires h in ViewOf(S).names && k in ViewOf(S).names && ViewOf(S).names[h] == ViewOf(S).names[k]
    ensures h == k
  {
    hide Structure, Bookkeeping, SizesFit, NamesOf;
  }

  lemma ViewHas(g: Geometry, S: Snapshot, k: nat)
    requires StoreOk(g, S) && k in S.L.files
    ensures k in ViewOf(S).names && k in ViewOf(S).sizes && k in ViewOf(S).contents
  {
    hide Structure, Bookkeeping, NamesUnique, SizesFit, NamesOf, SizesOf, ContentsOf;
    ViewDomains(g, S.dir, S.data, S.L);
  }
}
