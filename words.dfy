/**
 * Register words as the three drivers handle them: C `u32` values and the
 * handful of mask operations applied to them.
 */
module Words {

  /** A C `u32`. */
  type U32 = n: nat | n < 0x1_0000_0000

  // The bit operations the drivers apply to register words. Every
  // statement about a word is phrased with these names.

  /** `w & ~m` */
  function ClearBits(w: bv32, m: bv32): bv32
  {
    w & !m
  }

  /** `w | m` */
  function SetBits(w: bv32, m: bv32): bv32
  {
    w | m
  }

  /** `w & m` */
  function Bits(w: bv32, m: bv32): bv32
  {
    w & m
  }

  /** No bit is set in both `a` and `b`. */
  predicate Disjoint(a: bv32, b: bv32)
  {
    Bits(a, b) == 0
  }

  /** Every bit of `a` is a bit of `m`. */
  predicate Within(a: bv32, m: bv32)
  {
    ClearBits(a, m) == 0
  }

  /**
   * A Rockchip "hiword" write: every value bit in the low half has its
   * write-enable bit, sixteen places up, set in the high half.
   */
  predicate HiwordEnabled(w: bv32)
  {
    Within(w & 0xFFFF, w >> 16)
  }

  /**
   * Moving two words up by the same amount keeps the one inside the other.
   * Stated on bare operators: the solver proves shift facts quickly only
   * when no function definition has to be unfolded beside them.
   */
  lemma ShiftKeepsWord(x: bv32, y: bv32, k: bv5)
    requires x & !y == 0
    ensures (x << k) & !(y << k) == 0
  {
  }

  // The field builders of rk31xx_lvds.h, also the way efuse.c places its
  // address field.

  /** `BIT(x, bit)`: `x` moved up by `bit` places. */
  function Bit(x: bv32, bit: bv5): bv32
  {
    x << bit
  }

  /** `BIT_MASK(x, mask, bit)`, that is `BIT(x & mask, bit)`: `x` cut to `mask`, then moved up by `bit`. */
  function BitMask(x: bv32, mask: bv32, bit: bv5): bv32
  {
    (x & mask) << bit
  }

  /** A field built by BIT_MASK never has a bit outside its mask in place. */
  lemma BitMaskWithin(x: bv32, mask: bv32, bit: bv5)
    ensures Within(BitMask(x, mask, bit), Bit(mask, bit))
  {
    BitMaskWord(x, mask, bit);
  }

  // The shift fact is kept apart from the unfolding of Bit and BitMask.

  lemma BitMaskWord(x: bv32, mask: bv32, bit: bv5)
    ensures BitMask(x, mask, bit) & !Bit(mask, bit) == 0
  {
    ShiftKeepsWord(x & mask, mask, bit);
    BitMaskUnfold(x, mask, bit);
    BitWord(mask, bit);
  }

  lemma BitMaskUnfold(x: bv32, mask: bv32, bit: bv5)
    ensures BitMask(x, mask, bit) == (x & mask) << bit
  {
  }

  lemma BitWord(x: bv32, bit: bv5)
    ensures Bit(x, bit) == x << bit
  {
  }

  lemma AppendAssoc<T>(a: seq<T>, b: seq<T>, c: seq<T>)
    ensures (a + b) + c == a + (b + c)
  {
  }
}
