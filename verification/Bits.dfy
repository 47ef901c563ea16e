/** Single bits of a number, counted from the least significant. */
module Bits {
  import opened Arithmetic
  import opened Bytes

  predicate Bit(b: nat, k: nat) {
    if k == 0 then b % 2 == 1 else Bit(b / 2, k - 1)
  }

  function Pow2(k: nat): (p: nat)
    ensures p > 0
  {
    if k == 0 then 1 else 2 * Pow2(k - 1)
  }

  /** `b | 1 << k` */
  function SetBit(b: nat, k: nat): nat {
    if k == 0 then b / 2 * 2 + 1 else 2 * SetBit(b / 2, k - 1) + b % 2
  }

  lemma {:induction false} SetBitBits(b: nat, k: nat, j: nat)
    ensures Bit(SetBit(b, k), j) == (j == k || Bit(b, j))
    decreases k
  {
    SetBitHalves(b, k);
    if k > 0 && j > 0 {
      SetBitBits(b / 2, k - 1, j - 1);
    }
  }

  lemma SetBitHalves(b: nat, k: nat)
    ensures SetBit(b, k) / 2 == if k == 0 then b / 2 else SetBit(b / 2, k - 1)
    ensures SetBit(b, k) % 2 == if k == 0 then 1 else b % 2
  {
    Halves(if k == 0 then b / 2 else SetBit(b / 2, k - 1), if k == 0 then 1 else b % 2);
  }

  lemma Halves(h: nat, r: nat)
    requires r < 2
    ensures (2 * h + r) / 2 == h && (2 * h + r) % 2 == r
  {
  }

  lemma {:induction false} SetBitBound(b: nat, k: nat, n: nat)
    requires b < Pow2(n) && k < n
    ensures SetBit(b, k) < Pow2(n)
    decreases k
  {
    if k > 0 {
      SetBitBound(b / 2, k - 1, n - 1);
    }
  }

  lemma {:induction false} ZeroBits(k: nat)
    ensures !Bit(0, k)
  {
    if k > 0 {
      ZeroBits(k - 1);
    }
  }

  lemma Pow2Values()
    ensures Pow2(1) == 2 && Pow2(2) == 4 && Pow2(3) == 8 && Pow2(4) == 16
    ensures Pow2(5) == 32 && Pow2(6) == 64 && Pow2(7) == 128 && Pow2(8) == 256
  {
    assert Pow2(4) == 16;
    assert Pow2(6) == 64;
  }

  function OrBit(b: byte, k: nat): (r: byte)
    requires k < 8
    ensures r == SetBit(b, k)
  {
    Pow2Values();
    SetBitBound(b, k, 8);
    SetBit(b, k)
  }

  /** `b & mask` for a mask of one bit. */
  predicate Masks(b: nat, mask: nat)
    requires mask > 0
  {
    b / mask % 2 == 1
  }

  lemma {:induction false} MasksBit(b: nat, k: nat)
    ensures Masks(b, Pow2(k)) == Bit(b, k)
    decreases k
  {
    if k > 0 {
      DivDouble(b, Pow2(k - 1));
      MasksBit(b / 2, k - 1);
    }
  }
}
