/**
 * The stride request for an odd multiple of 256. The source computes it with bit operations on a 32-bit word, the
 * layout with a division; here the two are shown to be the same.
 */
module OddStride {
  import opened Alignment
  import opened Bits
  import opened Layout

  /** The source's expression on a 32-bit word. */
  function OddWord(x: bv32): bv32 {
    ((x + 255) & !255) | 256
  }

  predicate IsOddWord(y: bv32) {
    y & 0x1ff == 0x100
  }

  /** On words it is the least one with the low nine bits 0x100 that is not below x, if x + 255 fits. */
  lemma OddBitsAreLeast(x: bv32, y: bv32)
    requires x <= 0xffff_ff00
    ensures IsOddWord(OddWord(x)) && x <= OddWord(x)
    ensures IsOddWord(y) && x <= y ==> OddWord(x) <= y
  {
    hide OddWord, IsOddWord;
    OddWordIsOdd(x);
    if IsOddWord(y) && x <= y {
      NoSmallerWord(x, y);
    }
  }

  lemma OddWordIsOdd(x: bv32)
    requires x <= 0xffff_ff00
    ensures IsOddWord(OddWord(x)) && x <= OddWord(x)
  {
  }

  lemma NoSmallerWord(x: bv32, y: bv32)
    requires x <= 0xffff_ff00 && x <= y && IsOddWord(y)
    ensures OddWord(x) <= y
  {
  }

  /** On numbers the layout's form is the least odd multiple of 256 that is not below x. */
  lemma OddMultipleIsLeast(x: nat, y: nat)
    ensures OddMultipleOf256(x) % 512 == 256 && x <= OddMultipleOf256(x)
    ensures y % 512 == 256 && x <= y ==> OddMultipleOf256(x) <= y
  {
    var j := y / 512;
    assert y == 512 * j + y % 512;
  }

  /** The bits of the layout's form: those of x + 255 from bit 9 on, bit 8 set, none below. */
  lemma OddMultipleBits(x: nat, k: nat)
    ensures Bit(OddMultipleOf256(x), k) <==> k == 8 || (k > 8 && Bit(x + 255, k))
  {
    var h := (x + 255) / 512;
    if k > 8 {
      HighBits(h, 256, k - 9);
      HighBits(h, (x + 255) % 512, k - 9);
    } else {
      LowBits(h, k);
    }
  }

  lemma HighBits(h: nat, low: nat, k: nat)
    requires low < 512
    ensures Bit(512 * h + low, k + 9) <==> Bit(h, k)
  {
    assert (512 * h + low) / 512 == h;
    NinePowers(k);
    DivTwice(512 * h + low, 512, Pow2(k));
  }

  lemma NinePowers(k: nat)
    ensures Pow2(k + 9) == 512 * Pow2(k)
  {
    ThreePowers(k);
    ThreePowers(k + 3);
    ThreePowers(k + 6);
  }

  lemma ThreePowers(k: nat)
    ensures Pow2(k + 3) == 8 * Pow2(k)
  {
    assert Pow2(k + 1) == 2 * Pow2(k);
    assert Pow2(k + 2) == 2 * Pow2(k + 1);
    assert Pow2(k + 3) == 2 * Pow2(k + 2);
  }

  lemma DivTwice(x: nat, a: nat, b: nat)
    requires a > 0 && b > 0
    ensures a * b > 0 && x / (a * b) == x / a / b
  {
    MulFacts(b, a);
    DivBounds(x, a);
    DivBounds(Div(x, a), b);
    var q := Div(Div(x, a), b);
    MulMono(Mul(q, b), Div(x, a), a, a);
    MulMono(Div(x, a) + 1, Mul(q, b) + b, a, a);
    MulAdd(Mul(q, b), b, a);
    MulFacts(Div(x, a), a);
    MulAssoc(q, b, a);
    DivUnique(x, Mul(b, a), q);
  }

  lemma LowBits(h: nat, k: nat)
    requires k <= 8
    ensures Bit(512 * h + 256, k) <==> k == 8
  {
    LowPowers();
    match k {
      case 0 => assert (512 * h + 256) / 1 == 2 * (256 * h + 128);
      case 1 => assert (512 * h + 256) / 2 == 2 * (128 * h + 64);
      case 2 => assert (512 * h + 256) / 4 == 2 * (64 * h + 32);
      case 3 => assert (512 * h + 256) / 8 == 2 * (32 * h + 16);
      case 4 => assert (512 * h + 256) / 16 == 2 * (16 * h + 8);
      case 5 => assert (512 * h + 256) / 32 == 2 * (8 * h + 4);
      case 6 => assert (512 * h + 256) / 64 == 2 * (4 * h + 2);
      case 7 => assert (512 * h + 256) / 128 == 2 * (2 * h + 1);
      case 8 => assert (512 * h + 256) / 256 == 2 * h + 1;
    }
  }

  lemma LowPowers()
    ensures Pow2(0) == 1 && Pow2(1) == 2 && Pow2(2) == 4 && Pow2(3) == 8 && Pow2(4) == 16 && Pow2(5) == 32
    ensures Pow2(6) == 64 && Pow2(7) == 128 && Pow2(8) == 256
  {
  }

  /** The connection: when a word holds x + 255, the source's expression holds the layout's value, bit for bit. */
  lemma OddBitsAgree(sum: bv32, x: nat)
    requires Represents(sum, x + 255)
    ensures Represents((sum & !255) | 256, OddMultipleOf256(x))
  {
    hide HasBit, Bit, OddMultipleOf256;
    forall k: nat | k < 32
      ensures HasBit((sum & !255) | 256, k) <==> Bit(OddMultipleOf256(x), k)
    {
      OddMultipleBits(x, k);
      WordBits(sum, k);
    }
  }

  lemma WordBits(sum: bv32, k: nat)
    requires k < 32
    ensures HasBit((sum & !255) | 256, k) <==> k == 8 || (k > 8 && HasBit(sum, k))
  {
    match k {
      case 0 => case 1 => case 2 => case 3 => case 4 => case 5 => case 6 => case 7 => case 8 => case 9 => case 10 =>
      case 11 => case 12 => case 13 => case 14 => case 15 => case 16 => case 17 => case 18 => case 19 => case 20 =>
      case 21 => case 22 => case 23 => case 24 => case 25 => case 26 =>
      case 27 => case 28 => case 29 => case 30 => case 31 =>
    }
  }
}
