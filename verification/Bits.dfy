/** Bytes, the bits inside them, and bitmaps packed eight bits to the byte. */
module Bits {
  type byte = x: int | 0 <= x < 256

  /** 2 to the power `n`, the value of `1 << n`. */
  function Pow2(n: nat): (p: nat)
    ensures p > 0
  {
    if n == 0 then 1 else 2 * Pow2(n - 1)
  }

  /** The test `b & (1 << k)`, one halving per position. */
  predicate Bit(b: nat, k: nat) {
    if k == 0 then b % 2 == 1 else Bit(b / 2, k - 1)
  }

  /** A bit as a number. */
  function One(on: bool): nat { if on then 1 else 0 }

  /** The update `b | (1 << k)` or `b & ~(1 << k)`: bit `k` takes the value `on`. */
  function PutBit(b: nat, k: nat, on: bool): (r: nat) {
    if k == 0 then b - b % 2 + (if on then 1 else 0)
    else 2 * PutBit(b / 2, k - 1, on) + b % 2
  }

  lemma {:induction false} PutBitAt(b: nat, k: nat, on: bool, j: nat)
    ensures Bit(PutBit(b, k, on), j) == if j == k then on else Bit(b, j)
  {
    if k > 0 && j > 0 {
      PutBitAt(b / 2, k - 1, on, j - 1);
    }
  }

  lemma {:induction false} PutBitBound(b: nat, k: nat, on: bool, width: nat)
    requires k < width && b < Pow2(width)
    ensures PutBit(b, k, on) < Pow2(width)
  {
    if k > 0 {
      PutBitBound(b / 2, k - 1, on, width - 1);
    }
  }

  /** The machine value of `1 << k`. */
  function Mask(k: nat): bv8
    requires k < 8
  {
    if k == 0 then 1 else Mask(k - 1) << 1
  }

  /** The operators of the program, on machine bytes, agree with the arithmetic used here. */
  lemma {:induction false} TestAgrees(x: bv8, k: nat)
    requires k < 8
    ensures Bit(x as int, k) <==> (x & Mask(k)) != 0
  {
    if k == 0 {
      LowBit(x);
    } else {
      Halve(x);
      MaskSmall(k - 1);
      ShiftedOperators(x, Mask(k - 1));
      TestAgrees(x >> 1, k - 1);
    }
  }

  lemma OrAgrees(x: bv8, k: nat)
    requires k < 8
    ensures PutBit(x as int, k, true) == (x | Mask(k)) as int
  {
    OrIs(x, k);
  }

  /** The program's update, as a number. */
  function Or(x: bv8, k: nat): nat
    requires k < 8
  {
    (x | Mask(k)) as int
  }

  lemma {:induction false} OrIs(x: bv8, k: nat)
    requires k < 8
    ensures PutBit(x as int, k, true) == Or(x, k)
  {
    hide Or;
    if k == 0 {
      OrLow(x);
    } else {
      var y := x >> 1;
      OrStep(x, k);
      OrIs(y, k - 1);
      PutBitStep(x as int, y as int, k, true);
    }
  }

  lemma OrLow(x: bv8)
    ensures Or(x, 0) == PutBit(x as int, 0, true)
  {
    LowBit(x);
  }

  lemma {:induction false} AndNotAgrees(x: bv8, k: nat)
    requires k < 8
    ensures PutBit(x as int, k, false) == (x & !Mask(k)) as int
  {
    if k == 0 {
      LowBit(x);
    } else {
      var y := x >> 1;
      AndNotStep(x, k);
      AndNotAgrees(y, k - 1);
      PutBitStep(x as int, y as int, k, false);
    }
  }

  lemma PutBitStep(b: nat, half: nat, k: nat, on: bool)
    requires 0 < k && half == b / 2
    ensures PutBit(b, k, on) == 2 * PutBit(half, k - 1, on) + b % 2
  {
  }

  lemma OrStep(x: bv8, k: nat)
    requires 0 < k < 8
    ensures (x >> 1) as int == (x as int) / 2
    ensures Or(x, k) == 2 * Or(x >> 1, k - 1) + (x as int) % 2
  {
    Halve(x);
    MaskSmall(k - 1);
    ShiftedOperators(x, Mask(k - 1));
    Rejoin((x >> 1) | Mask(k - 1), x & 1);
  }

  lemma AndNotStep(x: bv8, k: nat)
    requires 0 < k < 8
    ensures (x >> 1) as int == (x as int) / 2
    ensures (x & !Mask(k)) as int == 2 * ((x >> 1) & !Mask(k - 1)) as int + (x as int) % 2
  {
    Halve(x);
    MaskSmall(k - 1);
    ShiftedOperators(x, Mask(k - 1));
    Rejoin((x >> 1) & !Mask(k - 1), x & 1);
  }

  lemma MaskSmall(k: nat)
    requires k < 7
    ensures Mask(k) < 128
  {
    assert Mask(0) == 1 && Mask(1) == 2 && Mask(2) == 4 && Mask(3) == 8;
    assert Mask(4) == 16 && Mask(5) == 32 && Mask(6) == 64;
  }

  lemma Halve(x: bv8)
    ensures (x >> 1) as int == (x as int) / 2 && (x & 1) as int == (x as int) % 2
  {
  }

  lemma LowBit(x: bv8)
    ensures (x | 1) as int == x as int - (x as int) % 2 + 1
    ensures (x & !1) as int == x as int - (x as int) % 2
    ensures (x & 1) != 0 <==> (x as int) % 2 == 1
  {
  }

  lemma Rejoin(y: bv8, z: bv8)
    requires y < 128 && z < 2
    ensures ((y << 1) | z) as int == 2 * (y as int) + z as int
  {
  }

  lemma ShiftedOperators(x: bv8, m: bv8)
    requires m < 128
    ensures (x & (m << 1)) != 0 <==> ((x >> 1) & m) != 0
    ensures (x | (m << 1)) == ((((x >> 1) | m) << 1) | (x & 1))
    ensures (x & !(m << 1)) == ((((x >> 1) & !m) << 1) | (x & 1))
    ensures ((x >> 1) | m) < 128 && ((x >> 1) & !m) < 128 && (x & 1) < 2
  {
  }

  /** The test `bitmap[i / 8] & (1 << (i % 8))`. */
  predicate GetBit(bitmap: seq<byte>, i: nat)
    requires i / 8 < |bitmap|
  {
    Bit(bitmap[i / 8], i % 8)
  }

  /** Changing one bit of a bitmap changes no other bit. */
  function SetBitTo(bitmap: seq<byte>, i: nat, on: bool): (r: seq<byte>)
    requires i / 8 < |bitmap|
    ensures |r| == |bitmap|
    ensures forall j: nat | j / 8 < |bitmap| :: GetBit(r, j) == if j == i then on else GetBit(bitmap, j)
  {
    assert Pow2(8) == 256;
    PutBitBound(bitmap[i / 8], i % 8, on, 8);
    var r := bitmap[i / 8 := PutBit(bitmap[i / 8], i % 8, on)];
    assert forall j: nat | j / 8 < |bitmap| :: GetBit(r, j) == if j == i then on else GetBit(bitmap, j) by {
      forall j: nat | j / 8 < |bitmap|
        ensures GetBit(r, j) == if j == i then on else GetBit(bitmap, j)
      {
        PutBitAt(bitmap[i / 8], i % 8, on, j % 8);
      }
    }
    r
  }

  lemma {:induction false} ZeroHasNoBits(k: nat)
    ensures !Bit(0, k)
  {
    if k > 0 {
      ZeroHasNoBits(k - 1);
    }
  }
}
