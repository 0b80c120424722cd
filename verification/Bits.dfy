/** The bits of a number, and of a machine word that represents it. */
module Bits {
  function Pow2(k: nat): (r: nat)
    ensures r > 0
  {
    if k == 0 then 1 else 2 * Pow2(k - 1)
  }

  predicate Bit(mask: nat, k: nat) {
    mask / Pow2(k) % 2 == 1
  }

  lemma {:induction false} Pow2Grows(i: nat, j: nat)
    requires i <= j
    ensures Pow2(i) <= Pow2(j)
    decreases j
  {
    if i < j {
      Pow2Grows(i, j - 1);
    }
  }

  lemma NoBitsAbove(mask: nat, k: nat, j: nat)
    requires mask < Pow2(k) && k <= j
    ensures !Bit(mask, j)
  {
    Pow2Grows(k, j);
    SmallQuotient(mask, Pow2(j));
  }

  lemma SmallQuotient(x: nat, d: nat)
    requires x < d
    ensures x / d == 0
  {
  }

  lemma Pow2Of32()
    ensures Pow2(32) == 0x1_0000_0000
  {
    assert Pow2(8) == 256;
    assert Pow2(16) == 65536;
    assert Pow2(24) == 16777216;
  }

  /** Bit k of a 32-bit word. */
  predicate HasBit(word: bv32, k: nat)
    requires k < 32
  {
    match k
    case 0 => word & 0x1 != 0
    case 1 => word & 0x2 != 0
    case 2 => word & 0x4 != 0
    case 3 => word & 0x8 != 0
    case 4 => word & 0x10 != 0
    case 5 => word & 0x20 != 0
    case 6 => word & 0x40 != 0
    case 7 => word & 0x80 != 0
    case 8 => word & 0x100 != 0
    case 9 => word & 0x200 != 0
    case 10 => word & 0x400 != 0
    case 11 => word & 0x800 != 0
    case 12 => word & 0x1000 != 0
    case 13 => word & 0x2000 != 0
    case 14 => word & 0x4000 != 0
    case 15 => word & 0x8000 != 0
    case 16 => word & 0x10000 != 0
    case 17 => word & 0x20000 != 0
    case 18 => word & 0x40000 != 0
    case 19 => word & 0x80000 != 0
    case 20 => word & 0x100000 != 0
    case 21 => word & 0x200000 != 0
    case 22 => word & 0x400000 != 0
    case 23 => word & 0x800000 != 0
    case 24 => word & 0x1000000 != 0
    case 25 => word & 0x2000000 != 0
    case 26 => word & 0x4000000 != 0
    case 27 => word & 0x8000000 != 0
    case 28 => word & 0x10000000 != 0
    case 29 => word & 0x20000000 != 0
    case 30 => word & 0x40000000 != 0
    case _ => word & 0x8000_0000 != 0
  }

  /** The word and the number have the same 32 bits. */
  ghost predicate Represents(word: bv32, n: nat) {
    forall k: nat :: k < 32 ==> (HasBit(word, k) <==> Bit(n, k))
  }
}
