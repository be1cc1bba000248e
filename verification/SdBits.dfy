/** Reading a bit field out of a byte buffer, most significant bit first, as the card registers are laid out. */
module SdBits {
  import opened Bits

  /** Bit `i` of the buffer; bit 0 is the highest bit of the first byte. */
  predicate BitAt(buf: seq<byte>, i: nat)
    requires i < 8 * |buf|
  {
    Bit(buf[i / 8], 7 - i % 8)
  }

  /** The number whose binary digits are bits `start` to `start + n - 1`. */
  function Value(buf: seq<byte>, start: nat, n: nat): (v: nat)
    requires start + n <= 8 * |buf|
    ensures v < Pow2(n)
  {
    if n == 0 then 0 else 2 * Value(buf, start, n - 1) + One(BitAt(buf, start + n - 1))
  }

  // ----- shifts and masks, one position after the other -----

  /** `x << k` without a limit to the size. */
  function ShiftLeft(x: nat, k: nat): nat { if k == 0 then x else 2 * ShiftLeft(x, k - 1) }

  /** `x >> k`. */
  function ShiftRight(x: nat, k: nat): nat { if k == 0 then x else ShiftRight(x / 2, k - 1) }

  /** `x & (0xff >> (8 - n))`: the low `n` bits. */
  function LowBits(x: nat, n: nat): (r: nat)
    ensures r < Pow2(n)
  {
    if n == 0 then 0 else x % 2 + 2 * LowBits(x / 2, n - 1)
  }

  lemma {:induction false} Rejoined(x: nat, n: nat)
    ensures x == ShiftLeft(ShiftRight(x, n), n) + LowBits(x, n)
  {
    if n > 0 {
      Rejoined(x / 2, n - 1);
    }
  }

  lemma {:induction false} ShiftedBack(x: nat, y: nat, k: nat)
    requires y < Pow2(k)
    ensures ShiftRight(ShiftLeft(x, k) + y, k) == x
  {
    if k > 0 {
      ShiftedBack(x, y / 2, k - 1);
      assert (2 * ShiftLeft(x, k - 1) + y) / 2 == ShiftLeft(x, k - 1) + y / 2;
    }
  }

  lemma {:induction false} ShiftedBound(x: nat, a: nat, k: nat)
    requires x < Pow2(a)
    ensures ShiftLeft(x, k) + Pow2(k) <= Pow2(a + k)
  {
    if k > 0 {
      ShiftedBound(x, a, k - 1);
    }
  }

  // ----- fields in parts -----

  /** A field of two parts is the first part shifted by the length of the second, plus the second. */
  lemma {:induction false} ValueSplit(buf: seq<byte>, start: nat, a: nat, b: nat)
    requires start + a + b <= 8 * |buf|
    ensures Value(buf, start, a + b) == ShiftLeft(Value(buf, start, a), b) + Value(buf, start + a, b)
  {
    hide BitAt;
    if b > 0 {
      ValueSplit(buf, start, a, b - 1);
    }
  }

  lemma {:induction false} NextBit(b: nat, k: nat)
    ensures ShiftRight(b, k) == 2 * ShiftRight(b, k + 1) + One(Bit(b, k))
  {
    if k > 0 {
      NextBit(b / 2, k - 1);
    }
  }

  /** The first `n` bits of a byte are the byte shifted by the others. */
  lemma {:induction false} TopBits(buf: seq<byte>, i: nat, n: nat)
    requires i < |buf| && n <= 8
    ensures Value(buf, 8 * i, n) == ShiftRight(buf[i], 8 - n)
  {
    hide Bit, ShiftRight;
    if n == 0 {
      ByteGone(buf[i]);
    } else {
      TopBits(buf, i, n - 1);
      assert (8 * i + n - 1) / 8 == i && (8 * i + n - 1) % 8 == n - 1;
      NextBit(buf[i], 8 - n);
    }
  }

  lemma ByteGone(b: byte)
    ensures ShiftRight(b, 8) == 0
  {
    var b1, b2 := b / 2, b / 4;
    assert ShiftRight(b, 8) == ShiftRight(b2, 6) == ShiftRight(b2 / 4, 4) == ShiftRight(b2 / 16, 2) == b2 / 64;
  }

  /** The last `n` bits of a byte are its low bits. */
  lemma LastBits(buf: seq<byte>, i: nat, n: nat)
    requires i < |buf| && n <= 8
    ensures Value(buf, 8 * i + (8 - n), n) == LowBits(buf[i], n)
  {
    TopBits(buf, i, 8);
    TopBits(buf, i, 8 - n);
    ValueSplit(buf, 8 * i, 8 - n, n);
    Rejoined(buf[i], n);
  }

  lemma PowersUpTo32(n: nat)
    requires n <= 32
    ensures Pow2(n) <= 0x1_0000_0000
  {
    assert Pow2(8) == 256;
    assert Pow2(16) == 0x1_0000;
    assert Pow2(24) == 0x100_0000;
    assert Pow2(32) == 0x1_0000_0000;
    PowersGrow(n, 32);
  }

  lemma {:induction false} PowersGrow(a: nat, b: nat)
    requires a <= b
    ensures Pow2(a) <= Pow2(b)
  {
    if a < b {
      PowersGrow(a, b - 1);
    }
  }

  /** The field of `bits0` bits from bit `start0`, in 32-bit arithmetic. */
  method GetBits(buf: seq<byte>, start0: nat, bits0: nat) returns (result: nat)
    requires bits0 <= 32 && start0 + bits0 <= 8 * |buf|
    ensures result == Value(buf, start0, bits0)
  {
    hide Value, LowBits, ShiftLeft, ShiftRight, BitAt, Pow2;
    var start, bits: int := start0, bits0;
    result := 0;
    NoBits(buf, start0);
    if start % 8 != 0 {
      FirstPart(buf, start);
      result := LowBits(buf[start / 8], 8 - start % 8);
      bits := bits - (8 - start % 8);
      start := start + (8 - start % 8);
    }
    while bits >= 8
      invariant start % 8 == 0 && start == start0 + (bits0 - bits) <= 8 * |buf| && bits <= bits0
      invariant bits < 0 ==> bits0 - bits < 8
      invariant result == Value(buf, start0, bits0 - bits)
    {
      WholeByte(buf, start0, bits0 - bits, start / 8);
      result := (ShiftLeft(result, 8) + buf[start / 8]) % 0x1_0000_0000;
      start := start + 8;
      bits := bits - 8;
    }
    if bits > 0 {
      PartByte(buf, start0, bits0 - bits, start / 8, bits);
      result := ShiftLeft(result, bits) % 0x1_0000_0000;
      result := (result + ShiftRight(buf[start / 8], 8 - bits)) % 0x1_0000_0000;
    } else if bits < 0 {
      ValueSplit(buf, start0, bits0, -bits);
      ShiftedBack(Value(buf, start0, bits0), Value(buf, start0 + bits0, -bits), -bits);
      result := ShiftRight(result, -bits);
    }
  }

  lemma FirstPart(buf: seq<byte>, start: nat)
    requires start < 8 * |buf|
    ensures start + (8 - start % 8) <= 8 * |buf| && (start + (8 - start % 8)) % 8 == 0
    ensures LowBits(buf[start / 8], 8 - start % 8) == Value(buf, start, 8 - start % 8)
  {
    hide Value, LowBits;
    assert 8 * (start / 8) + start % 8 == start;
    LastBits(buf, start / 8, 8 - start % 8);
  }

  lemma NoBits(buf: seq<byte>, start: nat)
    requires start <= 8 * |buf|
    ensures Value(buf, start, 0) == 0
  {
  }

  /** A whole byte more, without running over 32 bits. */
  lemma WholeByte(buf: seq<byte>, start: nat, c: nat, i: nat)
    requires i < |buf| && start + c == 8 * i && c + 8 <= 32
    ensures Value(buf, start, c + 8) == ShiftLeft(Value(buf, start, c), 8) + buf[i] < 0x1_0000_0000
  {
    hide Value, ShiftLeft;
    ValueSplit(buf, start, c, 8);
    TopBits(buf, i, 8);
    assert ShiftRight(buf[i], 0) == buf[i];
    PowersUpTo32(c + 8);
  }

  /** The first bits of another byte, without running over 32 bits. */
  lemma PartByte(buf: seq<byte>, start: nat, c: nat, i: nat, n: nat)
    requires i < |buf| && start + c == 8 * i && c + n <= 32 && n < 8
    ensures Value(buf, start, c + n) == ShiftLeft(Value(buf, start, c), n) + ShiftRight(buf[i], 8 - n) < 0x1_0000_0000
  {
    hide Value, ShiftLeft;
    ValueSplit(buf, start, c, n);
    TopBits(buf, i, n);
    PowersUpTo32(c + n);
  }
}
