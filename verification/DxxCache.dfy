/**
 The write-back cache of the block availability maps: up to two buffered map sectors over the images
 of all mounted partitions, which together behave as the maps themselves would.
 */
module DxxCache {
  import opened Bits
  import opened Common
  import opened DxxGeometry
  import opened DxxBam

  datatype Partition = Partition(format: Disk, image: Image)

  /** The partition number of a buffer that holds nothing. */
  const NO_PART := 255

  datatype BamBuffer = BamBuffer(part: nat, track: nat, sector: nat, data: Sector, mustflush: bool)

  ghost predicate PartsOk(parts: seq<Partition>) {
    |parts| < NO_PART && forall p :: 0 <= p < |parts| ==> ImageOk(parts[p].format, parts[p].image)
  }

  /** A buffer holds nothing, or a map sector of a partition; a clean one holds what the image holds. */
  ghost predicate BufferOk(parts: seq<Partition>, b: BamBuffer) {
    if b.part == NO_PART then !b.mustflush
    else
      && b.part < |parts|
      && ImageOk(parts[b.part].format, parts[b.part].image)
      && ValidSector(parts[b.part].format, b.track, b.sector) && IsBam(parts[b.part].format, b.track, b.sector)
      && (!b.mustflush ==> b.data == parts[b.part].image[At(parts[b.part].format, b.track, b.sector)])
  }

  ghost predicate SameTag(a: BamBuffer, b: BamBuffer) {
    a.part != NO_PART && (a.part, a.track, a.sector) == (b.part, b.track, b.sector)
  }

  ghost predicate CacheOk(parts: seq<Partition>, b: BamBuffer, b2: Option<BamBuffer>) {
    && PartsOk(parts) && BufferOk(parts, b)
    && (b2.Some? ==> BufferOk(parts, b2.value) && !SameTag(b, b2.value))
  }

  /** Image `img` of partition `p` with the contents of `b` laid over it. */
  ghost function Overlay(f: Disk, img: Image, p: nat, b: BamBuffer): Image {
    if b.part == p && ImageOk(f, img) && ValidSector(f, b.track, b.sector) then img[At(f, b.track, b.sector) := b.data]
    else img
  }

  /** The images as the cache presents them. */
  ghost function Views(parts: seq<Partition>, b: BamBuffer, b2: Option<BamBuffer>): (v: seq<Image>)
    ensures |v| == |parts|
  {
    seq(|parts|, p requires 0 <= p < |parts| =>
      var i1 := Overlay(parts[p].format, parts[p].image, p, b);
      if b2.Some? then Overlay(parts[p].format, i1, p, b2.value) else i1)
  }

  /** The formats of the partitions, which nothing here changes. */
  ghost function FormatsOf(parts: seq<Partition>): (r: seq<Disk>)
    ensures |r| == |parts| && forall p :: 0 <= p < |parts| ==> r[p] == parts[p].format
  {
    seq(|parts|, p requires 0 <= p < |parts| => parts[p].format)
  }

  lemma SwapViews(parts: seq<Partition>, b: BamBuffer, c: BamBuffer)
    requires CacheOk(parts, b, Some(c))
    ensures CacheOk(parts, c, Some(b)) && Views(parts, c, Some(b)) == Views(parts, b, Some(c))
  {
    forall p | 0 <= p < |parts|
      ensures Views(parts, c, Some(b))[p] == Views(parts, b, Some(c))[p]
    {
      if b.part == p && c.part == p {
        LbaInjective(parts[p].format, b.track, b.sector, c.track, c.sector);
      }
    }
  }

  lemma SecondBufferViews(parts: seq<Partition>, b: BamBuffer, c: BamBuffer)
    requires CacheOk(parts, b, None) && c.part == NO_PART && !c.mustflush
    ensures CacheOk(parts, b, Some(c)) && Views(parts, b, Some(c)) == Views(parts, b, None)
  {
  }

  function Flushed(parts: seq<Partition>, b: BamBuffer): seq<Partition>
    requires b.part < |parts| && ImageOk(parts[b.part].format, parts[b.part].image)
    requires ValidSector(parts[b.part].format, b.track, b.sector)
  {
    var q := parts[b.part];
    parts[b.part := q.(image := q.image[At(q.format, b.track, b.sector) := b.data])]
  }

  /** Writing a buffer back changes the images but not what the cache presents. */
  lemma FlushViews(parts: seq<Partition>, b: BamBuffer, b2: Option<BamBuffer>)
    requires CacheOk(parts, b, b2) && b.part != NO_PART
    ensures CacheOk(Flushed(parts, b), b.(mustflush := false), b2)
    ensures FormatsOf(Flushed(parts, b)) == FormatsOf(parts)
    ensures Views(Flushed(parts, b), b.(mustflush := false), b2) == Views(parts, b, b2)
  {
    if b2.Some? && b2.value.part == b.part {
      LbaInjective(parts[b.part].format, b.track, b.sector, b2.value.track, b2.value.sector);
    }
    var q, v, v' := Flushed(parts, b), Views(parts, b, b2), Views(Flushed(parts, b), b.(mustflush := false), b2);
    forall p | 0 <= p < |parts|
      ensures v'[p] == v[p]
    {
    }
  }

  /** A clean buffer can be filled with any other map sector that the second buffer does not hold. */
  lemma LoadViews(parts: seq<Partition>, b: BamBuffer, b2: Option<BamBuffer>, c: BamBuffer)
    requires CacheOk(parts, b, b2) && !b.mustflush && !c.mustflush && c.part != NO_PART && BufferOk(parts, c)
    requires b2.Some? ==> !SameTag(c, b2.value)
    ensures CacheOk(parts, c, b2) && Views(parts, c, b2) == Views(parts, b, b2)
  {
    forall p | 0 <= p < |parts|
      ensures Overlay(parts[p].format, parts[p].image, p, b) == parts[p].image
      ensures Overlay(parts[p].format, parts[p].image, p, c) == parts[p].image
    {
    }
    assert Views(parts, c, b2) == Views(parts, b, b2);
  }

  /** What the cache presents of a buffered sector is the buffer. */
  lemma HeldView(parts: seq<Partition>, b: BamBuffer, b2: Option<BamBuffer>)
    requires CacheOk(parts, b, b2) && b.part != NO_PART
    ensures ImageOk(parts[b.part].format, Views(parts, b, b2)[b.part])
    ensures Views(parts, b, b2)[b.part][At(parts[b.part].format, b.track, b.sector)] == b.data
  {
    if b2.Some? && b2.value.part == b.part {
      LbaInjective(parts[b.part].format, b.track, b.sector, b2.value.track, b2.value.sector);
    }
  }

  /** With nothing to write back the images are presented as they are. */
  lemma WrittenBack(parts: seq<Partition>, b: BamBuffer, b2: Option<BamBuffer>)
    requires CacheOk(parts, b, b2) && !b.mustflush && (b2.Some? ==> !b2.value.mustflush)
    ensures |Views(parts, b, b2)| == |parts| && forall p :: 0 <= p < |parts| ==> Views(parts, b, b2)[p] == parts[p].image
  {
  }

  /** Changing a byte of the buffer changes that map byte of its partition, and nothing else. */
  lemma StoreViews(parts: seq<Partition>, b: BamBuffer, b2: Option<BamBuffer>, place: BamPlace, off: nat, v: byte)
    requires CacheOk(parts, b, b2) && b.part != NO_PART
    requires b.track == place.track && b.sector == place.sector && place.pos + off < 256
    ensures var b' := b.(data := b.data[place.pos + off := v], mustflush := true);
      && CacheOk(parts, b', b2)
      && ImageOk(parts[b.part].format, Views(parts, b, b2)[b.part])
      && Views(parts, b', b2)
         == Views(parts, b, b2)[b.part := WithMapByte(parts[b.part].format, Views(parts, b, b2)[b.part], place, off, v)]
  {
    HeldView(parts, b, b2);
    if b2.Some? && b2.value.part == b.part {
      LbaInjective(parts[b.part].format, b.track, b.sector, b2.value.track, b2.value.sector);
    }
    var b' := b.(data := b.data[place.pos + off := v], mustflush := true);
    var v0, v1, p := Views(parts, b, b2), Views(parts, b', b2), b.part;
    assert v1[p] == WithMapByte(parts[p].format, v0[p], place, off, v);
    forall q | 0 <= q < |parts| && q != p
      ensures v1[q] == v0[q]
    {
    }
  }

  lemma ViewsOk(parts: seq<Partition>, b: BamBuffer, b2: Option<BamBuffer>, p: nat)
    requires CacheOk(parts, b, b2) && p < |parts|
    ensures ImageOk(parts[p].format, Views(parts, b, b2)[p])
  {
  }

  /** Sectors that are no map sectors are presented as they stand in the image. */
  lemma PlainView(parts: seq<Partition>, b: BamBuffer, b2: Option<BamBuffer>, p: nat, t: nat, s: nat)
    requires CacheOk(parts, b, b2) && p < |parts| && ValidSector(parts[p].format, t, s) && !IsBam(parts[p].format, t, s)
    ensures ImageOk(parts[p].format, Views(parts, b, b2)[p])
    ensures Views(parts, b, b2)[p][At(parts[p].format, t, s)] == parts[p].image[At(parts[p].format, t, s)]
  {
    var f := parts[p].format;
    if b.part == p {
      LbaInjective(f, b.track, b.sector, t, s);
    }
    if b2.Some? && b2.value.part == p {
      LbaInjective(f, b2.value.track, b2.value.sector, t, s);
    }
  }

  /** Writing a plain sector directly shows as just that write. */
  lemma PlainWrite(parts: seq<Partition>, b: BamBuffer, b2: Option<BamBuffer>, p: nat, t: nat, s: nat, data: Sector)
    requires CacheOk(parts, b, b2) && p < |parts| && ValidSector(parts[p].format, t, s) && !IsBam(parts[p].format, t, s)
    ensures var a := At(parts[p].format, t, s);
      var parts' := parts[p := parts[p].(image := parts[p].image[a := data])];
      && CacheOk(parts', b, b2)
      && ImageOk(parts[p].format, Views(parts, b, b2)[p])
      && Views(parts', b, b2) == Views(parts, b, b2)[p := WithSector(Views(parts, b, b2)[p], a, data)]
  {
    hide IsBam, ValidSector, TotalSectors, Lba;
    var f, a := parts[p].format, At(parts[p].format, t, s);
    var parts' := parts[p := parts[p].(image := parts[p].image[a := data])];
    if b.part == p {
      LbaInjective(f, b.track, b.sector, t, s);
    }
    if b2.Some? && b2.value.part == p {
      LbaInjective(f, b2.value.track, b2.value.sector, t, s);
    }
    var v0, v1 := Views(parts, b, b2), Views(parts', b, b2);
    assert v1[p] == WithSector(v0[p], a, data);
    forall q | 0 <= q < |parts| && q != p
      ensures v1[q] == v0[q]
    {
    }
  }
}
