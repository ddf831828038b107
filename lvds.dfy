/**
 * The RK31xx LVDS / MIPI-PHY register helpers
 * (drivers/video/rockchip/transmitter/rk31xx_lvds.h): the BIT / BIT_MASK /
 * BIT_EN field builders, the per-field encoders and masks of the GRF LVDS
 * control word and of the PHY registers, and the two register writers.
 */
module Lvds {
  import opened Words

  // ---------------------------------------------------------------------
  // Field builders (`BIT` and `BIT_MASK` are `Words.Bit` and `Words.BitMask`)

  /** `BIT_EN(mask, bit)`: the write-enable bits of a field, sixteen places above it. */
  function BitEn(mask: bv32, bit: bv5): bv32
    requires bit < 16
  {
    Bit(mask, bit + 16)
  }

  // ---------------------------------------------------------------------
  // RK31XX_GRF_LVDS_CON0: hiword fields (value low, write-enable high)

  const GrfLvdsCon0: bv32 := 0x0150

  /** LVDS_DATA_FROM_LCDC, LVDS_DATA_FORM_EBC */
  const DataFromLcdc: bv32 := 0
  const DataFromEbc: bv32 := 1
  /** LVDS_MSB_D0, LVDS_MSB_D7 */
  const MsbD0: bv32 := 0
  const MsbD7: bv32 := 1

  /** `v_LVDS_DATA_SEL(x)`: bit 0, write-enabled at bit 16. */
  function DataSel(x: bv32): (r: bv32)
    ensures HiwordEnabled(r) && r >> 16 == 1
    ensures r & 0xFFFF == x & 1
  {
    BitMask(x, 1, 0) | BitEn(1, 0)
  }

  /** `v_LVDS_OUTPUT_FORMAT(x)`: bits 1-2, write-enabled at bits 17-18. */
  function OutputFormat(x: bv32): (r: bv32)
    ensures HiwordEnabled(r) && r >> 16 == 3 << 1
    ensures (r & 0xFFFF) >> 1 == x & 3
  {
    BitMask(x, 3, 1) | BitEn(3, 1)
  }

  /** `v_LVDS_MSBSEL(x)`: bit 3, write-enabled at bit 19. */
  function MsbSel(x: bv32): (r: bv32)
    ensures HiwordEnabled(r) && r >> 16 == 1 << 3
    ensures (r & 0xFFFF) >> 3 == x & 1
  {
    BitMask(x, 1, 3) | BitEn(1, 3)
  }

  /** `v_LVDSMODE_EN(x)`: bit 6, write-enabled at bit 22. */
  function LvdsModeEnable(x: bv32): (r: bv32)
    ensures HiwordEnabled(r) && r >> 16 == 1 << 6
    ensures (r & 0xFFFF) >> 6 == x & 1
  {
    BitMask(x, 1, 6) | BitEn(1, 6)
  }

  /** `v_MIPIPHY_TTL_EN(x)`: bit 7, write-enabled at bit 23. */
  function MipiPhyTtlEnable(x: bv32): (r: bv32)
    ensures HiwordEnabled(r) && r >> 16 == 1 << 7
    ensures (r & 0xFFFF) >> 7 == x & 1
  {
    BitMask(x, 1, 7) | BitEn(1, 7)
  }

  /**
   * The five CON0 fields occupy distinct bits, so their words can be OR-ed
   * into one write that still enables exactly the fields it sets.
   */
  lemma Con0FieldsCombine(a: bv32, b: bv32, c: bv32, d: bv32, e: bv32)
    ensures HiwordEnabled(DataSel(a) | OutputFormat(b) | MsbSel(c) | LvdsModeEnable(d) | MipiPhyTtlEnable(e))
    ensures (DataSel(a) | OutputFormat(b) | MsbSel(c) | LvdsModeEnable(d) | MipiPhyTtlEnable(e)) >> 16 == 0xCF
  {
  }

  // ---------------------------------------------------------------------
  // MIPI PHY registers: plain fields (no write-enable half)

  const MipiPhyReg0: bv32 := 0x0000
  const MipiPhyReg3: bv32 := 0x000c
  const MipiPhyReg4: bv32 := 0x0010
  const MipiPhyRegE0: bv32 := 0x0380
  const MipiPhyRegE1: bv32 := 0x0384
  const MipiPhyRegE2: bv32 := 0x0388
  const MipiPhyRegE3: bv32 := 0x038c
  const MipiPhyRegE7: bv32 := 0x039C
  const MipiPhyRegEA: bv32 := 0x03A8

  /** `v_LANE0_EN(x)` .. `v_LANECLK_EN(x)` in MIPIPHY_REG0: one enable bit each, bits 2-6. */
  function Lane0Enable(x: bv32): (r: bv32)
    ensures r == if x & 1 == 1 then 1 << 2 else 0
  {
    BitMask(x, 1, 2)
  }

  function Lane1Enable(x: bv32): (r: bv32)
    ensures r == if x & 1 == 1 then 1 << 3 else 0
  {
    BitMask(x, 1, 3)
  }

  function Lane2Enable(x: bv32): (r: bv32)
    ensures r == if x & 1 == 1 then 1 << 4 else 0
  {
    BitMask(x, 1, 4)
  }

  function Lane3Enable(x: bv32): (r: bv32)
    ensures r == if x & 1 == 1 then 1 << 5 else 0
  {
    BitMask(x, 1, 5)
  }

  function LaneClkEnable(x: bv32): (r: bv32)
    ensures r == if x & 1 == 1 then 1 << 6 else 0
  {
    BitMask(x, 1, 6)
  }

  /** MIPIPHY_REG3: the 5-bit PLL pre-divider and the top bit of the feedback divider. */
  const PreDivMask: bv32 := Bit(0x1f, 0)
  const FbDivMsbMask: bv32 := Bit(1, 5)

  function PreDiv(x: bv32): (r: bv32)
    ensures Within(r, PreDivMask) && r & PreDivMask == x & 0x1f
  {
    BitMask(x, 0x1f, 0)
  }

  function FbDivMsb(x: bv32): (r: bv32)
    ensures Within(r, FbDivMsbMask) && (r & FbDivMsbMask) >> 5 == x & 1
  {
    BitMask(x, 1, 5)
  }

  /** MIPIPHY_REG4: the low eight bits of the feedback divider. */
  function FbDivLsb(x: bv32): (r: bv32)
    ensures Within(r, 0xFF) && r == x & 0xFF
  {
    BitMask(x, 0xff, 0)
  }

  /**
   * A 9-bit feedback divider split as `v_FBDIV_MSB(fb >> 8)` in REG3 and
   * `v_FBDIV_LSB(fb)` in REG4 is recovered whole from the two fields.
   */
  lemma FbDivRoundTrip(fb: bv32)
    requires fb < 0x200
    ensures (((FbDivMsb(fb >> 8) & FbDivMsbMask) >> 5) << 8) | FbDivLsb(fb) == fb
  {
  }

  /** MIPIPHY_REGE0: five single-bit controls. */
  const MsbSelMask: bv32 := Bit(1, 0)
  const DigInterRstMask: bv32 := Bit(1, 2)
  const LvdsModeEnMask: bv32 := Bit(1, 5)
  const TtlModeEnMask: bv32 := Bit(1, 6)
  const MipiModeEnMask: bv32 := Bit(1, 7)

  function PhyMsbSel(x: bv32): (r: bv32)
    ensures Within(r, MsbSelMask) && (r == MsbSelMask <==> x & 1 == 1)
  {
    BitMask(x, 1, 0)
  }

  function DigInterRst(x: bv32): (r: bv32)
    ensures Within(r, DigInterRstMask) && (r == DigInterRstMask <==> x & 1 == 1)
  {
    BitMask(x, 1, 2)
  }

  function LvdsModeEn(x: bv32): (r: bv32)
    ensures Within(r, LvdsModeEnMask) && (r == LvdsModeEnMask <==> x & 1 == 1)
  {
    BitMask(x, 1, 5)
  }

  function TtlModeEn(x: bv32): (r: bv32)
    ensures Within(r, TtlModeEnMask) && (r == TtlModeEnMask <==> x & 1 == 1)
  {
    BitMask(x, 1, 6)
  }

  function MipiModeEn(x: bv32): (r: bv32)
    ensures Within(r, MipiModeEnMask) && (r == MipiModeEnMask <==> x & 1 == 1)
  {
    BitMask(x, 1, 7)
  }

  /** The REGE0 masks are pairwise disjoint. */
  lemma RegE0MasksDisjoint()
    ensures Disjoint(MsbSelMask, DigInterRstMask) && Disjoint(MsbSelMask, LvdsModeEnMask)
    ensures Disjoint(MsbSelMask, TtlModeEnMask) && Disjoint(MsbSelMask, MipiModeEnMask)
    ensures Disjoint(DigInterRstMask, LvdsModeEnMask) && Disjoint(DigInterRstMask, TtlModeEnMask)
    ensures Disjoint(DigInterRstMask, MipiModeEnMask) && Disjoint(LvdsModeEnMask, TtlModeEnMask)
    ensures Disjoint(LvdsModeEnMask, MipiModeEnMask) && Disjoint(TtlModeEnMask, MipiModeEnMask)
  {
  }

  /** MIPIPHY_REGE1: the digital interface enable. */
  const DigInterEnMask: bv32 := Bit(1, 7)

  function DigInterEn(x: bv32): (r: bv32)
    ensures Within(r, DigInterEnMask) && (r == DigInterEnMask <==> x & 1 == 1)
  {
    BitMask(x, 1, 7)
  }

  /** MIPIPHY_REGE3: the MIPI, LVDS and TTL enables. */
  const MipiEnMask: bv32 := Bit(1, 0)
  const LvdsEnMask: bv32 := Bit(1, 1)
  const TtlEnMask: bv32 := Bit(1, 2)

  function MipiEn(x: bv32): (r: bv32)
    ensures Within(r, MipiEnMask) && (r == MipiEnMask <==> x & 1 == 1)
  {
    BitMask(x, 1, 0)
  }

  function LvdsEn(x: bv32): (r: bv32)
    ensures Within(r, LvdsEnMask) && (r == LvdsEnMask <==> x & 1 == 1)
  {
    BitMask(x, 1, 1)
  }

  function TtlEn(x: bv32): (r: bv32)
    ensures Within(r, TtlEnMask) && (r == TtlEnMask <==> x & 1 == 1)
  {
    BitMask(x, 1, 2)
  }

  /** MIPIPHY_REGEA: band-gap and PLL power-down. */
  const BgPowerDownMask: bv32 := Bit(1, 0)
  const PllPowerDownMask: bv32 := Bit(1, 2)

  function BgPowerDown(x: bv32): (r: bv32)
    ensures Within(r, BgPowerDownMask) && (r == BgPowerDownMask <==> x & 1 == 1)
  {
    BitMask(x, 1, 0)
  }

  function PllPowerDown(x: bv32): (r: bv32)
    ensures Within(r, PllPowerDownMask) && (r == PllPowerDownMask <==> x & 1 == 1)
  {
    BitMask(x, 1, 2)
  }

  // ---------------------------------------------------------------------
  // The masked update of `lvds_msk_reg`

  /**
   * The word `lvds_msk_reg` writes back: the old word cut to
   * `0xFF - msk` (u32 subtraction, so it wraps for `msk > 0xFF`), with
   * `val & msk` OR-ed in.
   */
  function MskRegValue(cur: bv32, msk: bv32, val: bv32): bv32
  {
    (cur & (0xFF - msk)) | (val & msk)
  }

  /**
   * For a mask within the low byte: the masked bits come from `val`, the
   * other low-byte bits from the old word, and bits 8-31 are cleared (the
   * word is at most 0xFF).
   */
  lemma MskRegByteMask(cur: bv32, msk: bv32, val: bv32)
    requires msk <= 0xFF
    ensures MskRegValue(cur, msk, val) & msk == val & msk
    ensures MskRegValue(cur, msk, val) & (0xFF & !msk) == cur & (0xFF & !msk)
    ensures MskRegValue(cur, msk, val) <= 0xFF
  {
    MskRegUnfold(cur, msk, val);
    ByteComplement(msk);
    ByteMaskWord(cur, msk, val, 0xFF & !msk);
  }

  lemma MskRegUnfold(cur: bv32, msk: bv32, val: bv32)
    ensures MskRegValue(cur, msk, val) == (cur & (0xFF - msk)) | (val & msk)
  {
  }

  /** Within the low byte, `0xFF - msk` is the complement of `msk`. */
  lemma ByteComplement(msk: bv32)
    requires msk <= 0xFF
    ensures 0xFF - msk == 0xFF & !msk
  {
  }

  lemma ByteMaskWord(cur: bv32, msk: bv32, val: bv32, keep: bv32)
    requires keep == 0xFF & !msk && msk <= 0xFF
    ensures ((cur & keep) | (val & msk)) & msk == val & msk
    ensures ((cur & keep) | (val & msk)) & keep == cur & keep
    ensures (cur & keep) | (val & msk) <= 0xFF
  {
  }

  /** Updating twice with the same mask and value gives the word of one update. */
  lemma MskRegIdempotent(cur: bv32, msk: bv32, val: bv32)
    ensures MskRegValue(MskRegValue(cur, msk, val), msk, val) == MskRegValue(cur, msk, val)
  {
  }

  /**
   * A mask beyond the low byte: `0xFF - 0x100` wraps to all ones, so the
   * old bit 8 survives and the masked bit does not follow `val`.
   */
  lemma MskRegWideMask()
    ensures Bits(MskRegValue(0x100, 0x100, 0), 0x100) != Bits(0, 0x100)
  {
  }

  // ---------------------------------------------------------------------
  // The device

  /**
   * The register window at `regbase`: a word per offset. The `dev`,
   * `pclk`, `pd` and `screen` members are not part of this model.
   */
  class LvdsDevice {
    var regs: bv32 -> bv32

    constructor (initial: bv32 -> bv32)
      ensures regs == initial
    {
      regs := initial;
    }

    /** `readl_relaxed(regbase + offset)` */
    method Readl(offset: bv32) returns (v: bv32)
      ensures v == regs(offset)
    {
      v := regs(offset);
    }

    /** `writel_relaxed(val, regbase + offset)` */
    method WriteRaw(offset: bv32, val: bv32)
      modifies this`regs
      ensures regs(offset) == val
      ensures forall o :: o != offset ==> regs(o) == old(regs(o))
    {
      var r := regs;
      regs := o => if o == offset then val else r(o);
    }

    /** `lvds_writel`: the word at `offset` becomes `val`, nothing else changes; returns 0. */
    method Writel(offset: bv32, val: bv32) returns (ret: int)
      modifies this`regs
      ensures ret == 0
      ensures regs(offset) == val
      ensures forall o :: o != offset ==> regs(o) == old(regs(o))
    {
      WriteRaw(offset, val);
      ret := 0;
    }

    /**
     * `lvds_msk_reg`: read the word at `offset`, keep `0xFF - msk` of it,
     * OR in `val & msk`, write it back; nothing else changes; returns 0.
     */
    method MskReg(offset: bv32, msk: bv32, val: bv32) returns (ret: int)
      modifies this`regs
      ensures ret == 0
      ensures regs(offset) == MskRegValue(old(regs(offset)), msk, val)
      ensures forall o :: o != offset ==> regs(o) == old(regs(o))
    {
      var temp := Readl(offset);
      temp := temp & (0xFF - msk);
      WriteRaw(offset, temp | (val & msk));
      ret := 0;
    }
  }
}
