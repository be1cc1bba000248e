/** The file allocation table as bytes: entries of 12, 16 or 32 bits, packed without gaps. */
module FatTable {
  import opened Bits
  import opened FatWindow

  /** The number of values of an entry. Of 32 bits the upper four are not used. */
  function Width(kind: FatType): nat {
    match kind
    case Fat12 => 0x1000
    case Fat16 => 0x1_0000
    case Fat32 => 0x1000_0000
  }

  /** The place of the last byte of entry `c`. */
  function LastByte(kind: FatType, c: nat): nat {
    match kind
    case Fat12 => c + c / 2 + 1
    case Fat16 => 2 * c + 1
    case Fat32 => 4 * c + 3
  }

  function LoadWord(F: seq<byte>, i: nat): nat
    requires i + 1 < |F|
  {
    F[i] as nat + 256 * F[i + 1] as nat
  }

  function LoadDword(F: seq<byte>, i: nat): (r: nat)
    requires i + 3 < |F|
    ensures r < 0x1_0000_0000
  {
    LoadWord(F, i) + 0x1_0000 * LoadWord(F, i + 2)
  }

  /** Entry `c` of the table with bytes `F`. */
  function GetEntry(kind: FatType, F: seq<byte>, c: nat): (r: nat)
    requires LastByte(kind, c) < |F|
    ensures r < Width(kind)
  {
    match kind
    case Fat12 =>
      var i := c + c / 2;
      if c % 2 == 1 then F[i] as nat / 16 + F[i + 1] as nat * 16 else F[i] as nat + (F[i + 1] as nat % 16) * 256
    case Fat16 => LoadWord(F, 2 * c)
    case Fat32 => LoadDword(F, 4 * c) % 0x1000_0000
  }

  function ByteOf(x: nat, k: nat): byte {
    (if k == 0 then x else if k == 1 then x / 256 else if k == 2 then x / 0x1_0000 else x / 0x100_0000) % 256
  }

  /** The low byte of a 12-bit entry, given what was there before. */
  function Low12(c: nat, was: byte, val: nat): byte {
    if c % 2 == 1 then was % 16 + (val % 16) * 16 else val % 256
  }

  /** The high byte of a 12-bit entry, given what was there before. */
  function High12(c: nat, was: byte, val: nat): byte {
    if c % 2 == 1 then (val / 16) % 256 else was - was % 16 + (val / 256) % 16
  }

  /**
   The bytes of an entry: two of 12 bits in three bytes, the even one first and lowest; of 16 and 32 bits the lowest
   byte first, and the upper four bits of the last one left out.
   */
  lemma EntryBytes(F: seq<byte>, c: nat)
    ensures 3 * c + 2 < |F| ==>
      && LastByte(Fat12, 2 * c) < |F| && LastByte(Fat12, 2 * c + 1) < |F|
      && GetEntry(Fat12, F, 2 * c) == F[3 * c] as nat + 256 * (F[3 * c + 1] as nat % 16)
      && GetEntry(Fat12, F, 2 * c + 1) == F[3 * c + 1] as nat / 16 + 16 * F[3 * c + 2] as nat
    ensures 2 * c + 1 < |F| ==> LastByte(Fat16, c) < |F| && GetEntry(Fat16, F, c) == F[2 * c] as nat + 256 * F[2 * c + 1] as nat
    ensures 4 * c + 3 < |F| ==>
      && LastByte(Fat32, c) < |F|
      && GetEntry(Fat32, F, c) == F[4 * c] as nat + 0x100 * F[4 * c + 1] as nat + 0x1_0000 * F[4 * c + 2] as nat
                                  + 0x100_0000 * (F[4 * c + 3] as nat % 16)
  {
    if 4 * c + 3 < |F| {
      UpperBits(F[4 * c] as nat + 0x100 * F[4 * c + 1] as nat + 0x1_0000 * F[4 * c + 2] as nat, F[4 * c + 3]);
    }
  }

  lemma UpperBits(low: nat, top: byte)
    requires low < 0x100_0000
    ensures (low + 0x100_0000 * top as nat) % 0x1000_0000 == low + 0x100_0000 * (top as nat % 16)
  {
    assert top as nat == 16 * (top as nat / 16) + top as nat % 16;
    assert low + 0x100_0000 * top as nat == 0x1000_0000 * (top as nat / 16) + (low + 0x100_0000 * (top as nat % 16));
  }

  /** The bytes of the table after entry `c` was set. */
  function PutEntry(kind: FatType, F: seq<byte>, c: nat, val: nat): (r: seq<byte>)
    requires LastByte(kind, c) < |F|
    ensures |r| == |F|
  {
    match kind
    case Fat12 =>
      var i := c + c / 2;
      F[i := Low12(c, F[i], val)][i + 1 := High12(c, F[i + 1], val)]
    case Fat16 => F[2 * c := ByteOf(val, 0)][2 * c + 1 := ByteOf(val, 1)]
    case Fat32 =>
      F[4 * c := ByteOf(val, 0)][4 * c + 1 := ByteOf(val, 1)][4 * c + 2 := ByteOf(val, 2)][4 * c + 3 := ByteOf(val, 3)]
  }

  /** An entry reads back as what was put there, cut to its width. */
  lemma GetPut(kind: FatType, F: seq<byte>, c: nat, val: nat)
    requires LastByte(kind, c) < |F|
    ensures GetEntry(kind, PutEntry(kind, F, c, val), c) == val % Width(kind)
  {
    match kind
    case Fat12 => GetPut12(F, c, val);
    case Fat16 => TwoBytes(val);
    case Fat32 => FourBytes(val);
  }

  lemma GetPut12(F: seq<byte>, c: nat, val: nat)
    requires LastByte(Fat12, c) < |F|
    ensures GetEntry(Fat12, PutEntry(Fat12, F, c, val), c) == val % 0x1000
  {
    hide Low12, High12;
    var i := c + c / 2;
    Halves(c, F[i], F[i + 1], val);
  }

  lemma Halves(c: nat, a: byte, b: byte, val: nat)
    ensures (if c % 2 == 1 then Low12(c, a, val) as nat / 16 + High12(c, b, val) as nat * 16
             else Low12(c, a, val) as nat + (High12(c, b, val) as nat % 16) * 256) == val % 0x1000
  {
    if c % 2 == 1 {
      OddHalves(a, val);
    } else {
      EvenHalves(b, val);
    }
  }

  lemma OddHalves(a: byte, val: nat)
    ensures (a % 16 + (val % 16) * 16) / 16 + ((val / 16) % 256) * 16 == val % 0x1000
  {
    var q, r, u := val / 16, val % 16, a % 16;
    assert val == 16 * q + r && (u + r * 16) / 16 == r;
    TakeByte(q);
    Remainder(r + 16 * (q % 256), 0x1000, q / 256);
  }

  lemma EvenHalves(b: byte, val: nat)
    ensures val % 256 + ((b - b % 16 + (val / 256) % 16) % 16) * 256 == val % 0x1000
  {
    var q, u := val / 256, b - b % 16;
    var s := q % 16;
    TakeByte(val);
    assert q == 16 * (q / 16) + s && u % 16 == 0 && (u + s) % 16 == s;
    Remainder(val % 256 + 256 * s, 0x1000, q / 16);
  }

  lemma TwoBytes(val: nat)
    ensures ByteOf(val, 0) as nat + 256 * ByteOf(val, 1) as nat == val % 0x1_0000
  {
  }

  lemma FourBytes(val: nat)
    ensures var x := ByteOf(val, 0) as nat + 256 * ByteOf(val, 1) as nat + 0x1_0000 * (ByteOf(val, 2) as nat + 256 * ByteOf(val, 3) as nat);
      x == val % 0x1_0000_0000 && x % 0x1000_0000 == val % 0x1000_0000
  {
    hide ByteOf;
    var a, b, c := val / 256, val / 256 / 256, val / 256 / 256 / 256;
    TakeByte(val);
    TakeByte(a);
    TakeByte(b);
    TakeByte(c);
    BytesAre(val);
    JoinBytes(val % 256, a % 256, b % 256, c % 256, c / 256);
  }

  lemma TakeByte(x: nat)
    ensures x == 256 * (x / 256) + x % 256 && x % 256 < 256
  {
  }

  lemma BytesAre(val: nat)
    ensures ByteOf(val, 0) == val % 256 && ByteOf(val, 1) == val / 256 % 256
    ensures ByteOf(val, 2) == val / 256 / 256 % 256 && ByteOf(val, 3) == val / 256 / 256 / 256 % 256
  {
  }

  /** Four digits to the base of 256, and what is above them. */
  lemma JoinBytes(r0: nat, r1: nat, r2: nat, r3: nat, q: nat)
    requires r0 < 256 && r1 < 256 && r2 < 256 && r3 < 256
    ensures var x := r0 + 256 * r1 + 0x1_0000 * (r2 + 256 * r3);
      var val := r0 + 256 * (r1 + 256 * (r2 + 256 * (r3 + 256 * q)));
      x == val % 0x1_0000_0000 && x % 0x1000_0000 == val % 0x1000_0000
  {
    var x := r0 + 256 * r1 + 0x1_0000 * (r2 + 256 * r3);
    Remainder(x, 0x1_0000_0000, q);
    Remainder(x, 0x1000_0000, 16 * q);
  }

  lemma Remainder(x: nat, m: nat, q: nat)
    requires m == 0x1_0000_0000 || m == 0x1000_0000 || m == 0x1000
    ensures (x + m * q) % m == x % m
  {
  }

  /** No other entry changes, not even where two entries share a byte. */
  lemma GetPutOther(kind: FatType, F: seq<byte>, c: nat, val: nat, d: nat)
    requires LastByte(kind, c) < |F| && LastByte(kind, d) < |F| && c != d
    ensures GetEntry(kind, PutEntry(kind, F, c, val), d) == GetEntry(kind, F, d)
  {
    match kind
    case Fat12 => Shared12(F, c, val, d);
    case Fat16 =>
    case Fat32 =>
  }

  lemma Shared12(F: seq<byte>, c: nat, val: nat, d: nat)
    requires LastByte(Fat12, c) < |F| && LastByte(Fat12, d) < |F| && c != d
    ensures GetEntry(Fat12, PutEntry(Fat12, F, c, val), d) == GetEntry(Fat12, F, d)
  {
    var i, j := c + c / 2, d + d / 2;
    if d == c + 1 && c % 2 == 0 {
      assert j == i + 1;
      assert (F[i + 1] - F[i + 1] % 16 + (val / 256) % 16) / 16 == F[i + 1] / 16;
    } else if c == d + 1 && d % 2 == 0 {
      assert i == j + 1;
      assert (F[i] % 16 + (val % 16) * 16) % 16 == F[i] % 16;
    } else {
      assert j + 1 < i || i + 1 < j;
    }
  }

  // ----- which type a volume has -----

  /** The type follows from the number of clusters alone. */
  function TypeFor(maxClust: nat): FatType {
    if maxClust >= 0xFFF7 then Fat32 else if maxClust >= 0xFF7 then Fat16 else Fat12
  }

  /** The limits as they are usually given: by the number of clusters, of which the first has number 2. */
  lemma TypeLimits(clusters: nat)
    ensures TypeFor(clusters + 2) == Fat12 <==> clusters < 4085
    ensures TypeFor(clusters + 2) == Fat16 <==> 4085 <= clusters < 65525
  {
  }

  /** The mark put at the end of a chain is no cluster number, as far as a 28-bit cluster number reaches. */
  lemma EndMarkIsNoCluster(maxClust: nat)
    ensures 0x0FFF_FFFF % Width(TypeFor(maxClust)) >= maxClust <==> maxClust <= 0x0FFF_FFFF
    ensures forall c: nat :: c < maxClust <= 0x0FFF_FFFF ==> c % Width(TypeFor(maxClust)) == c
  {
  }
}
