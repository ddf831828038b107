/**
 * The Rockchip glue of the STMMAC Ethernet driver
 * (drivers/net/ethernet/rockchip/gmac/stmmac_platform.c), RK312x variant:
 * the GRF "hiword" values that select the PHY interface and speed, the
 * interface and speed dispatch that writes them, the idempotent clock
 * switch, the GPIO power and reset sequence, and the device-tree flag
 * resolution of the probe.
 *
 * The kernel services the glue calls (GRF writes, the clock framework,
 * GPIO outputs, sleeps) are recorded as traces of calls; their effect on
 * the hardware is not part of this model.
 */
module Gmac {
  import opened Words

  // ---------------------------------------------------------------------
  // GRF values: write-enable mask in the high half, value in the low half

  /** `(mask << 16) | val` */
  function Hiword(mask: bv32, val: bv32): bv32
  {
    (mask << 16) | val
  }

  // RK312X_GRF_MAC_CON1
  const PhyIntfSelRgmii: bv32 := Hiword(0x01C0, 0x0040)
  const PhyIntfSelRmii: bv32 := Hiword(0x01C0, 0x0100)
  const FlowCtrl: bv32 := Hiword(0x0200, 0x0200)
  const FlowCtrlClr: bv32 := Hiword(0x0200, 0x0000)
  const Speed10M: bv32 := Hiword(0x0400, 0x0000)
  const Speed100M: bv32 := Hiword(0x0400, 0x0400)
  const RmiiClk25M: bv32 := Hiword(0x0800, 0x0800)
  const RmiiClk2_5M: bv32 := Hiword(0x0800, 0x0000)
  const Clk125M: bv32 := Hiword(0x3000, 0x0000)
  const Clk25M: bv32 := Hiword(0x3000, 0x3000)
  const Clk2_5M: bv32 := Hiword(0x3000, 0x2000)
  const RmiiMode: bv32 := Hiword(0x4000, 0x4000)
  const RmiiModeClr: bv32 := Hiword(0x4000, 0x0000)

  // RK312X_GRF_MAC_CON0
  const TxClkDlyEnable: bv32 := Hiword(0x4000, 0x4000)
  const TxClkDlyDisable: bv32 := Hiword(0x4000, 0x0000)
  const RxClkDlyEnable: bv32 := Hiword(0x8000, 0x8000)
  const RxClkDlyDisable: bv32 := Hiword(0x8000, 0x0000)

  /** `GMAC_CLK_RX_DL_CFG(val)`: the 7-bit RX delay line setting in bits 7-13. */
  function ClkRxDlCfg(val: bv32): (r: bv32)
    ensures val < 0x80 ==> HiwordEnabled(r) && r >> 16 == 0x3F80 && r & 0xFFFF == val << 7
  {
    Hiword(0x3F80, val << 7)
  }

  /** `GMAC_CLK_TX_DL_CFG(val)`: the 7-bit TX delay line setting in bits 0-6. */
  function ClkTxDlCfg(val: bv32): (r: bv32)
    ensures val < 0x80 ==> HiwordEnabled(r) && r >> 16 == 0x7F && r & 0xFFFF == val
  {
    Hiword(0x007F, val)
  }

  /** A delay value of eight bits or more spills outside the mask it enables. */
  lemma ClkRxDlCfgTooWide()
    ensures !HiwordEnabled(ClkRxDlCfg(0x80))
  {
  }

  /** Every GMAC_* constant enables each value bit it sets. */
  lemma GrfConstantsEnabled()
    ensures HiwordEnabled(PhyIntfSelRgmii) && HiwordEnabled(PhyIntfSelRmii)
    ensures HiwordEnabled(FlowCtrl) && HiwordEnabled(FlowCtrlClr)
    ensures HiwordEnabled(Speed10M) && HiwordEnabled(Speed100M)
    ensures HiwordEnabled(RmiiClk25M) && HiwordEnabled(RmiiClk2_5M)
    ensures HiwordEnabled(Clk125M) && HiwordEnabled(Clk25M) && HiwordEnabled(Clk2_5M)
    ensures HiwordEnabled(RmiiMode) && HiwordEnabled(RmiiModeClr)
    ensures HiwordEnabled(TxClkDlyEnable) && HiwordEnabled(TxClkDlyDisable)
    ensures HiwordEnabled(RxClkDlyEnable) && HiwordEnabled(RxClkDlyDisable)
  {
  }

  // ---------------------------------------------------------------------
  // GRF write sequences

  /** The two GRF registers of the RK312x MAC (their offsets live in grf.h). */
  datatype GrfReg = MacCon0 | MacCon1

  /** One `grf_writel(value, reg)`. */
  datatype GrfWrite = GrfWrite(reg: GrfReg, value: bv32)

  /** `PHY_INTERFACE_MODE_*`: the two modes the glue tests for, and the rest. */
  datatype PhyMode = Rgmii | Rmii | OtherMode

  /** `SET_RGMII` */
  const SetRgmii: seq<GrfWrite> := [
    GrfWrite(MacCon1, PhyIntfSelRgmii),
    GrfWrite(MacCon1, RmiiModeClr),
    GrfWrite(MacCon0, RxClkDlyEnable),
    GrfWrite(MacCon0, TxClkDlyEnable),
    GrfWrite(MacCon0, ClkRxDlCfg(0x10)),
    GrfWrite(MacCon0, ClkTxDlCfg(0x30))
  ]

  /** `SET_RMII` */
  const SetRmii: seq<GrfWrite> := [
    GrfWrite(MacCon1, PhyIntfSelRmii),
    GrfWrite(MacCon1, RmiiMode)
  ]

  /** Every write of the sequence enables each value bit it sets. */
  predicate AllEnabled(ws: seq<GrfWrite>)
  {
    forall i :: 0 <= i < |ws| ==> HiwordEnabled(ws[i].value)
  }

  /** The 3-bit interface selector (bits 6-8 of MAC_CON1) a write sets, if it enables it. */
  function IntfSel(w: GrfWrite): bv32
  {
    if w.reg == MacCon1 && (w.value >> 16) & 0x1C0 == 0x1C0 then (w.value & 0x1C0) >> 6 else 0xFF
  }

  /**
   * SET_RGMII selects interface 1 and clears RMII mode; SET_RMII selects
   * interface 4 and sets RMII mode. Every write in each is enabled.
   */
  lemma InterfaceSelection()
    ensures AllEnabled(SetRgmii) && |SetRgmii| == 6
    ensures IntfSel(SetRgmii[0]) == 1 && SetRgmii[1].value & 0x4000 == 0 && (SetRgmii[1].value >> 16) & 0x4000 != 0
    ensures AllEnabled(SetRmii) && |SetRmii| == 2
    ensures IntfSel(SetRmii[0]) == 4 && SetRmii[1].value & 0x4000 != 0
    ensures SetRgmii[0].reg == MacCon1 && SetRgmii[1].reg == MacCon1
    ensures forall i :: 0 <= i < 2 ==> SetRmii[i].reg == MacCon1
  {
    GrfConstantsEnabled();
  }

  /** The writes of `stmmc_pltfr_init` for an interface. */
  function InitWrites(iface: PhyMode): seq<GrfWrite>
  {
    match iface
    case Rgmii => SetRgmii
    case Rmii => SetRmii
    case OtherMode => []
  }

  /** The writes of `stmmc_pltfr_fix_mac_speed` for an interface and a speed. */
  function SpeedWrites(iface: PhyMode, speed: U32): seq<GrfWrite>
  {
    match iface
    case Rgmii =>
      if speed == 10 then [GrfWrite(MacCon1, Clk2_5M)]
      else if speed == 100 then [GrfWrite(MacCon1, Clk25M)]
      else if speed == 1000 then [GrfWrite(MacCon1, Clk125M)]
      else []
    case Rmii =>
      if speed == 10 then [GrfWrite(MacCon1, RmiiClk2_5M), GrfWrite(MacCon1, Speed10M)]
      else if speed == 100 then [GrfWrite(MacCon1, RmiiClk25M), GrfWrite(MacCon1, Speed100M)]
      else []
    case OtherMode => []
  }

  /**
   * A speed fix writes something exactly for RGMII at 10, 100 or 1000 and
   * for RMII at 10 or 100; every write goes to MAC_CON1 and is enabled.
   */
  lemma SpeedWritesSupported(iface: PhyMode, speed: U32)
    ensures |SpeedWrites(iface, speed)| > 0 <==>
      (iface == Rgmii && speed in {10, 100, 1000}) || (iface == Rmii && speed in {10, 100})
    ensures AllEnabled(SpeedWrites(iface, speed))
    ensures forall i :: 0 <= i < |SpeedWrites(iface, speed)| ==> SpeedWrites(iface, speed)[i].reg == MacCon1
  {
    GrfConstantsEnabled();
  }

  /**
   * RGMII: the 2-bit clock selector (bits 12-13) takes a different value for
   * each speed. RMII: the clock bit (11) and the speed bit (10) agree, set
   * at 100 Mbit/s and clear at 10 Mbit/s, and both are enabled.
   */
  lemma SpeedSelectors(speed: U32)
    ensures speed in {10, 100, 1000} ==> |SpeedWrites(Rgmii, speed)| == 1
    ensures (SpeedWrites(Rgmii, 10)[0].value & 0x3000) != (SpeedWrites(Rgmii, 100)[0].value & 0x3000)
    ensures (SpeedWrites(Rgmii, 10)[0].value & 0x3000) != (SpeedWrites(Rgmii, 1000)[0].value & 0x3000)
    ensures (SpeedWrites(Rgmii, 100)[0].value & 0x3000) != (SpeedWrites(Rgmii, 1000)[0].value & 0x3000)
    ensures speed in {10, 100} ==>
      var ws := SpeedWrites(Rmii, speed);
      |ws| == 2 && (ws[0].value >> 16) & 0x800 != 0 && (ws[1].value >> 16) & 0x400 != 0 &&
      (ws[0].value & 0x800 != 0 <==> speed == 100) && (ws[1].value & 0x400 != 0 <==> speed == 100)
  {
  }

  // ---------------------------------------------------------------------
  // Clocks

  /** The clock handles `gmac_clk_init` looks up. */
  datatype ClkId = MacClkRx | MacClkTx | ClkMacRef | ClkMacRefout | AclkMac | PclkMac | ClkMacPll | GmacClkin | ClkMac

  /** A call into the clock framework. */
  datatype ClkOp = SetRate(clk: ClkId, rate: nat) | PrepareEnable(clk: ClkId) | DisableUnprepare(clk: ClkId)

  /** The clocks only RMII uses. */
  predicate RmiiOnly(c: ClkId)
  {
    c == MacClkRx || c == ClkMacRef || c == ClkMacRefout
  }

  /** `if (!IS_ERR(clk)) op`: the call, unless its handle is an error. */
  function Guarded(errs: set<ClkId>, op: ClkOp): seq<ClkOp>
  {
    if op.clk in errs then [] else [op]
  }

  /** The RMII-only part of `gmac_clk_enable(true)`: the 50 MHz rate, then the RMII clocks. */
  function RmiiOnOps(errs: set<ClkId>): seq<ClkOp>
  {
    Guarded(errs, SetRate(ClkMac, 50_000_000)) + Guarded(errs, PrepareEnable(MacClkRx))
    + Guarded(errs, PrepareEnable(ClkMacRef)) + Guarded(errs, PrepareEnable(ClkMacRefout))
  }

  /** The part of `gmac_clk_enable(true)` common to all interfaces. */
  function CommonOnOps(errs: set<ClkId>): seq<ClkOp>
  {
    Guarded(errs, PrepareEnable(AclkMac)) + Guarded(errs, PrepareEnable(PclkMac))
    + Guarded(errs, PrepareEnable(MacClkTx)) + Guarded(errs, PrepareEnable(ClkMac))
  }

  /** The RMII-only part of `gmac_clk_enable(false)`. */
  function RmiiOffOps(errs: set<ClkId>): seq<ClkOp>
  {
    Guarded(errs, DisableUnprepare(MacClkRx)) + Guarded(errs, DisableUnprepare(ClkMacRef))
    + Guarded(errs, DisableUnprepare(ClkMacRefout))
  }

  /** The part of `gmac_clk_enable(false)` common to all interfaces. */
  function CommonOffOps(errs: set<ClkId>): seq<ClkOp>
  {
    Guarded(errs, DisableUnprepare(AclkMac)) + Guarded(errs, DisableUnprepare(PclkMac))
    + Guarded(errs, DisableUnprepare(MacClkTx)) + Guarded(errs, DisableUnprepare(ClkMac))
  }

  /** The calls of `gmac_clk_enable(true)` when the clocks are off. */
  function EnableOps(iface: PhyMode, errs: set<ClkId>): seq<ClkOp>
  {
    (if iface == Rmii then RmiiOnOps(errs) else []) + CommonOnOps(errs)
  }

  /** The calls of `gmac_clk_enable(false)` when the clocks are on. */
  function DisableOps(iface: PhyMode, errs: set<ClkId>): seq<ClkOp>
  {
    (if iface == Rmii then RmiiOffOps(errs) else []) + CommonOffOps(errs)
  }

  /** The clocks a sequence of calls enables. */
  function Enabled(ops: seq<ClkOp>): set<ClkId>
  {
    set op | op in ops && op.PrepareEnable? :: op.clk
  }

  /** The clocks a sequence of calls disables. */
  function Disabled(ops: seq<ClkOp>): set<ClkId>
  {
    set op | op in ops && op.DisableUnprepare? :: op.clk
  }

  /** The clocks of a mode that `gmac_clk_enable` switches, when their handles are usable. */
  predicate Switched(iface: PhyMode, errs: set<ClkId>, c: ClkId)
  {
    c !in errs && c != ClkMacPll && c != GmacClkin && (RmiiOnly(c) ==> iface == Rmii)
  }

  lemma GuardedIn(errs: set<ClkId>, x: ClkOp, op: ClkOp)
    ensures op in Guarded(errs, x) <==> op == x && x.clk !in errs
  {
  }

  lemma RmiiOnOpsIn(errs: set<ClkId>, op: ClkOp)
    ensures op in RmiiOnOps(errs) <==> (op.clk !in errs &&
      (op == SetRate(ClkMac, 50_000_000) || op == PrepareEnable(MacClkRx)
       || op == PrepareEnable(ClkMacRef) || op == PrepareEnable(ClkMacRefout)))
  {
    GuardedIn(errs, SetRate(ClkMac, 50_000_000), op);
    GuardedIn(errs, PrepareEnable(MacClkRx), op);
    GuardedIn(errs, PrepareEnable(ClkMacRef), op);
    GuardedIn(errs, PrepareEnable(ClkMacRefout), op);
  }

  lemma CommonOnOpsIn(errs: set<ClkId>, op: ClkOp)
    ensures op in CommonOnOps(errs) <==> (op.clk !in errs &&
      (op == PrepareEnable(AclkMac) || op == PrepareEnable(PclkMac)
       || op == PrepareEnable(MacClkTx) || op == PrepareEnable(ClkMac)))
  {
    GuardedIn(errs, PrepareEnable(AclkMac), op);
    GuardedIn(errs, PrepareEnable(PclkMac), op);
    GuardedIn(errs, PrepareEnable(MacClkTx), op);
    GuardedIn(errs, PrepareEnable(ClkMac), op);
  }

  lemma RmiiOffOpsIn(errs: set<ClkId>, op: ClkOp)
    ensures op in RmiiOffOps(errs) <==> (op.clk !in errs &&
      (op == DisableUnprepare(MacClkRx) || op == DisableUnprepare(ClkMacRef) || op == DisableUnprepare(ClkMacRefout)))
  {
    GuardedIn(errs, DisableUnprepare(MacClkRx), op);
    GuardedIn(errs, DisableUnprepare(ClkMacRef), op);
    GuardedIn(errs, DisableUnprepare(ClkMacRefout), op);
  }

  lemma CommonOffOpsIn(errs: set<ClkId>, op: ClkOp)
    ensures op in CommonOffOps(errs) <==> (op.clk !in errs &&
      (op == DisableUnprepare(AclkMac) || op == DisableUnprepare(PclkMac)
       || op == DisableUnprepare(MacClkTx) || op == DisableUnprepare(ClkMac)))
  {
    GuardedIn(errs, DisableUnprepare(AclkMac), op);
    GuardedIn(errs, DisableUnprepare(PclkMac), op);
    GuardedIn(errs, DisableUnprepare(MacClkTx), op);
    GuardedIn(errs, DisableUnprepare(ClkMac), op);
  }

  /** Every clock is either never switched, RMII-only, or one of the four common ones. */
  lemma ClkCases(c: ClkId)
    ensures c == ClkMacPll || c == GmacClkin || RmiiOnly(c) || c == AclkMac || c == PclkMac || c == MacClkTx || c == ClkMac
  {
  }

  lemma GuardedCount(errs: set<ClkId>, x: ClkOp, op: ClkOp)
    ensures multiset(Guarded(errs, x))[op] == if op == x && x.clk !in errs then 1 else 0
  {
  }

  lemma RmiiOnOpsCount(errs: set<ClkId>, op: ClkOp)
    ensures multiset(RmiiOnOps(errs))[op] == if op.clk !in errs &&
      (op == SetRate(ClkMac, 50_000_000) || op == PrepareEnable(MacClkRx)
       || op == PrepareEnable(ClkMacRef) || op == PrepareEnable(ClkMacRefout)) then 1 else 0
  {
    GuardedCount(errs, SetRate(ClkMac, 50_000_000), op);
    GuardedCount(errs, PrepareEnable(MacClkRx), op);
    GuardedCount(errs, PrepareEnable(ClkMacRef), op);
    GuardedCount(errs, PrepareEnable(ClkMacRefout), op);
  }

  lemma CommonOnOpsCount(errs: set<ClkId>, op: ClkOp)
    ensures multiset(CommonOnOps(errs))[op] == if op.clk !in errs &&
      (op == PrepareEnable(AclkMac) || op == PrepareEnable(PclkMac)
       || op == PrepareEnable(MacClkTx) || op == PrepareEnable(ClkMac)) then 1 else 0
  {
    GuardedCount(errs, PrepareEnable(AclkMac), op);
    GuardedCount(errs, PrepareEnable(PclkMac), op);
    GuardedCount(errs, PrepareEnable(MacClkTx), op);
    GuardedCount(errs, PrepareEnable(ClkMac), op);
  }

  lemma RmiiOffOpsCount(errs: set<ClkId>, op: ClkOp)
    ensures multiset(RmiiOffOps(errs))[op] == if op.clk !in errs &&
      (op == DisableUnprepare(MacClkRx) || op == DisableUnprepare(ClkMacRef) || op == DisableUnprepare(ClkMacRefout))
      then 1 else 0
  {
    GuardedCount(errs, DisableUnprepare(MacClkRx), op);
    GuardedCount(errs, DisableUnprepare(ClkMacRef), op);
    GuardedCount(errs, DisableUnprepare(ClkMacRefout), op);
  }

  lemma CommonOffOpsCount(errs: set<ClkId>, op: ClkOp)
    ensures multiset(CommonOffOps(errs))[op] == if op.clk !in errs &&
      (op == DisableUnprepare(AclkMac) || op == DisableUnprepare(PclkMac)
       || op == DisableUnprepare(MacClkTx) || op == DisableUnprepare(ClkMac)) then 1 else 0
  {
    GuardedCount(errs, DisableUnprepare(AclkMac), op);
    GuardedCount(errs, DisableUnprepare(PclkMac), op);
    GuardedCount(errs, DisableUnprepare(MacClkTx), op);
    GuardedCount(errs, DisableUnprepare(ClkMac), op);
  }

  lemma EnableOpsSplit(iface: PhyMode, errs: set<ClkId>, op: ClkOp)
    ensures multiset(EnableOps(iface, errs))[op] ==
      (if iface == Rmii then multiset(RmiiOnOps(errs))[op] else 0) + multiset(CommonOnOps(errs))[op]
  {
    if iface != Rmii {
      assert EnableOps(iface, errs) == CommonOnOps(errs);
    }
  }

  /**
   * Switching on makes each of its calls exactly once: one enable per
   * switched clock and, in RMII, one 50 MHz rate on `clk_mac`.
   */
  lemma EnableOpsOnce(iface: PhyMode, errs: set<ClkId>, op: ClkOp)
    ensures multiset(EnableOps(iface, errs))[op] ==
      if (op.PrepareEnable? && Switched(iface, errs, op.clk))
         || (op == SetRate(ClkMac, 50_000_000) && iface == Rmii && ClkMac !in errs) then 1 else 0
  {
    EnableOpsSplit(iface, errs, op);
    RmiiOnOpsCount(errs, op);
    CommonOnOpsCount(errs, op);
    if op.PrepareEnable? {
      ClkCases(op.clk);
    }
  }

  lemma DisableOpsSplit(iface: PhyMode, errs: set<ClkId>, op: ClkOp)
    ensures multiset(DisableOps(iface, errs))[op] ==
      (if iface == Rmii then multiset(RmiiOffOps(errs))[op] else 0) + multiset(CommonOffOps(errs))[op]
  {
    if iface != Rmii {
      assert DisableOps(iface, errs) == CommonOffOps(errs);
    }
  }

  /** Switching off makes exactly one disable per switched clock. */
  lemma DisableOpsOnce(iface: PhyMode, errs: set<ClkId>, op: ClkOp)
    ensures multiset(DisableOps(iface, errs))[op] ==
      if op.DisableUnprepare? && Switched(iface, errs, op.clk) then 1 else 0
  {
    DisableOpsSplit(iface, errs, op);
    RmiiOffOpsCount(errs, op);
    CommonOffOpsCount(errs, op);
    if op.DisableUnprepare? {
      ClkCases(op.clk);
    }
  }

  /** The calls switching on are the 50 MHz rate (RMII) and an enable for every switched clock, and nothing else. */
  lemma EnableOpsExactly(iface: PhyMode, errs: set<ClkId>, op: ClkOp)
    ensures op in EnableOps(iface, errs) <==>
      (op.PrepareEnable? && Switched(iface, errs, op.clk))
      || (op == SetRate(ClkMac, 50_000_000) && iface == Rmii && ClkMac !in errs)
  {
    var rm := if iface == Rmii then RmiiOnOps(errs) else [];
    assert op in EnableOps(iface, errs) <==> op in rm || op in CommonOnOps(errs);
    RmiiOnOpsIn(errs, op);
    CommonOnOpsIn(errs, op);
  }

  /** The calls switching off are a disable for every switched clock, and nothing else. */
  lemma DisableOpsExactly(iface: PhyMode, errs: set<ClkId>, op: ClkOp)
    ensures op in DisableOps(iface, errs) <==> op.DisableUnprepare? && Switched(iface, errs, op.clk)
  {
    var rm := if iface == Rmii then RmiiOffOps(errs) else [];
    assert op in DisableOps(iface, errs) <==> op in rm || op in CommonOffOps(errs);
    RmiiOffOpsIn(errs, op);
    CommonOffOpsIn(errs, op);
  }

  /**
   * Switching the clocks on or off never touches an error handle, touches
   * the RMII-only clocks only in RMII mode, and sets a rate only in RMII
   * mode and only to 50 MHz, on `clk_mac`.
   */
  lemma ClkOpsGuarded(iface: PhyMode, errs: set<ClkId>)
    ensures forall op :: op in EnableOps(iface, errs) ==> op.clk !in errs && (RmiiOnly(op.clk) ==> iface == Rmii)
    ensures forall op :: op in DisableOps(iface, errs) ==> op.clk !in errs && (RmiiOnly(op.clk) ==> iface == Rmii)
    ensures forall op :: op in EnableOps(iface, errs) && op.SetRate? ==>
      iface == Rmii && op.clk == ClkMac && op.rate == 50_000_000
    ensures forall op :: op in DisableOps(iface, errs) ==> op.DisableUnprepare?
  {
    forall op | op in EnableOps(iface, errs)
      ensures op.clk !in errs && (RmiiOnly(op.clk) ==> iface == Rmii)
      ensures op.SetRate? ==> iface == Rmii && op.clk == ClkMac && op.rate == 50_000_000
    {
      EnableOpsExactly(iface, errs, op);
    }
    forall op | op in DisableOps(iface, errs)
      ensures op.clk !in errs && (RmiiOnly(op.clk) ==> iface == Rmii) && op.DisableUnprepare?
    {
      DisableOpsExactly(iface, errs, op);
    }
  }

  /**
   * Switching off releases exactly the clocks switching on took: every
   * switched clock of the mode, and no other.
   */
  lemma ClkOpsBalanced(iface: PhyMode, errs: set<ClkId>)
    ensures Enabled(EnableOps(iface, errs)) == Disabled(DisableOps(iface, errs))
    ensures forall c :: c in Enabled(EnableOps(iface, errs)) <==> Switched(iface, errs, c)
  {
    forall c ensures c in Enabled(EnableOps(iface, errs)) <==> Switched(iface, errs, c)
    {
      EnableOpsExactly(iface, errs, PrepareEnable(c));
      if c in Enabled(EnableOps(iface, errs)) {
        var op :| op in EnableOps(iface, errs) && op.PrepareEnable? && op.clk == c;
        EnableOpsExactly(iface, errs, op);
      }
    }
    forall c ensures c in Disabled(DisableOps(iface, errs)) <==> Switched(iface, errs, c)
    {
      DisableOpsExactly(iface, errs, DisableUnprepare(c));
      if c in Disabled(DisableOps(iface, errs)) {
        var op :| op in DisableOps(iface, errs) && op.DisableUnprepare? && op.clk == c;
        DisableOpsExactly(iface, errs, op);
      }
    }
  }

  // ---------------------------------------------------------------------
  // GPIO power and reset

  /** A GPIO output call or a sleep. */
  datatype GpioEvent = Drive(gpio: int, level: int) | Sleep(ms: nat)

  /** C `!level` on an `int`. */
  function Not(level: int): int
  {
    if level == 0 then 1 else 0
  }

  /** The calls of `power_on_by_gpio(enable)`, given which GPIO numbers are valid. */
  function PowerEvents(enable: bool, valid: int -> bool, powerIo: int, powerLevel: int, resetIo: int, resetLevel: int): seq<GpioEvent>
  {
    if enable then
      (if valid(powerIo) then [Drive(powerIo, powerLevel)] else [])
      + (if valid(resetIo) then ResetPulse(resetIo, resetLevel) else [])
      + [Sleep(100)]
    else
      (if valid(powerIo) then [Drive(powerIo, Not(powerLevel))] else [])
      + (if valid(resetIo) then [Drive(resetIo, Not(resetLevel))] else [])
  }

  /** The levels driven onto one GPIO, in order. */
  function LevelsOn(es: seq<GpioEvent>, gpio: int): seq<int>
    decreases |es|
  {
    if es == [] then []
    else LevelsOn(es[..|es| - 1], gpio)
         + (if es[|es| - 1].Drive? && es[|es| - 1].gpio == gpio then [es[|es| - 1].level] else [])
  }

  /** The level one event drives onto a GPIO, if any. */
  function LevelOf(e: GpioEvent, gpio: int): seq<int>
  {
    if e.Drive? && e.gpio == gpio then [e.level] else []
  }

  lemma {:induction false} LevelsOnAppend(a: seq<GpioEvent>, b: seq<GpioEvent>, gpio: int)
    ensures LevelsOn(a + b, gpio) == LevelsOn(a, gpio) + LevelsOn(b, gpio)
    decreases |b|
  {
    if b == [] {
      assert a + b == a;
    } else {
      var b' := b[..|b| - 1];
      assert (a + b)[..|a + b| - 1] == a + b';
      LevelsOnAppend(a, b', gpio);
    }
  }

  lemma LevelsOnSingle(e: GpioEvent, gpio: int)
    ensures LevelsOn([e], gpio) == LevelOf(e, gpio)
  {
    assert [e][..0] == [];
  }

  lemma LevelsOnPair(e: GpioEvent, f: GpioEvent, gpio: int)
    ensures LevelsOn([e, f], gpio) == LevelOf(e, gpio) + LevelOf(f, gpio)
  {
    assert [e, f] == [e] + [f];
    LevelsOnAppend([e], [f], gpio);
    LevelsOnSingle(e, gpio);
    LevelsOnSingle(f, gpio);
  }

  /** The reset pulse: active level, 10 ms, released level. */
  function ResetPulse(resetIo: int, resetLevel: int): seq<GpioEvent>
  {
    [Drive(resetIo, resetLevel), Sleep(10), Drive(resetIo, Not(resetLevel))]
  }

  lemma ResetPulseLevels(resetIo: int, resetLevel: int, gpio: int)
    ensures LevelsOn(ResetPulse(resetIo, resetLevel), gpio) == if gpio == resetIo then [resetLevel, Not(resetLevel)] else []
  {
    var d := Drive(resetIo, resetLevel);
    assert ResetPulse(resetIo, resetLevel) == [d] + [Sleep(10), Drive(resetIo, Not(resetLevel))];
    LevelsOnAppend([d], [Sleep(10), Drive(resetIo, Not(resetLevel))], gpio);
    LevelsOnSingle(d, gpio);
    LevelsOnPair(Sleep(10), Drive(resetIo, Not(resetLevel)), gpio);
  }

  /** The levels powering up drives onto any one GPIO. */
  lemma PowerUpOn(valid: int -> bool, powerIo: int, powerLevel: int, resetIo: int, resetLevel: int, gpio: int)
    ensures LevelsOn(PowerEvents(true, valid, powerIo, powerLevel, resetIo, resetLevel), gpio)
      == (if valid(powerIo) && gpio == powerIo then [powerLevel] else [])
         + (if valid(resetIo) && gpio == resetIo then [resetLevel, Not(resetLevel)] else [])
  {
    var p: seq<GpioEvent> := if valid(powerIo) then [Drive(powerIo, powerLevel)] else [];
    var r: seq<GpioEvent> := if valid(resetIo) then ResetPulse(resetIo, resetLevel) else [];
    assert PowerEvents(true, valid, powerIo, powerLevel, resetIo, resetLevel) == (p + r) + [Sleep(100)];
    LevelsOnSingle(Sleep(100), gpio);
    LevelsOnAppend(p + r, [Sleep(100)], gpio);
    LevelsOnAppend(p, r, gpio);
    LevelsOnSingle(Drive(powerIo, powerLevel), gpio);
    ResetPulseLevels(resetIo, resetLevel, gpio);
  }

  /**
   * Powering up drives the power pin to its active level once, and pulses
   * the reset pin: active, then released.
   */
  lemma PowerUpLevels(valid: int -> bool, powerIo: int, powerLevel: int, resetIo: int, resetLevel: int)
    requires powerIo != resetIo
    ensures var up := PowerEvents(true, valid, powerIo, powerLevel, resetIo, resetLevel);
      && LevelsOn(up, powerIo) == (if valid(powerIo) then [powerLevel] else [])
      && LevelsOn(up, resetIo) == (if valid(resetIo) then [resetLevel, Not(resetLevel)] else [])
  {
    PowerUpOn(valid, powerIo, powerLevel, resetIo, resetLevel, powerIo);
    PowerUpOn(valid, powerIo, powerLevel, resetIo, resetLevel, resetIo);
  }

  /** The levels powering down drives onto any one GPIO. */
  lemma PowerDownOn(valid: int -> bool, powerIo: int, powerLevel: int, resetIo: int, resetLevel: int, gpio: int)
    ensures LevelsOn(PowerEvents(false, valid, powerIo, powerLevel, resetIo, resetLevel), gpio)
      == (if valid(powerIo) && gpio == powerIo then [Not(powerLevel)] else [])
         + (if valid(resetIo) && gpio == resetIo then [Not(resetLevel)] else [])
  {
    var p: seq<GpioEvent> := if valid(powerIo) then [Drive(powerIo, Not(powerLevel))] else [];
    var r: seq<GpioEvent> := if valid(resetIo) then [Drive(resetIo, Not(resetLevel))] else [];
    assert PowerEvents(false, valid, powerIo, powerLevel, resetIo, resetLevel) == p + r;
    LevelsOnAppend(p, r, gpio);
    LevelsOnSingle(Drive(powerIo, Not(powerLevel)), gpio);
    LevelsOnSingle(Drive(resetIo, Not(resetLevel)), gpio);
  }

  /** Powering down leaves both pins at their inactive levels. */
  lemma PowerDownLevels(valid: int -> bool, powerIo: int, powerLevel: int, resetIo: int, resetLevel: int)
    requires powerIo != resetIo
    ensures var down := PowerEvents(false, valid, powerIo, powerLevel, resetIo, resetLevel);
      && LevelsOn(down, powerIo) == (if valid(powerIo) then [Not(powerLevel)] else [])
      && LevelsOn(down, resetIo) == (if valid(resetIo) then [Not(resetLevel)] else [])
  {
    PowerDownOn(valid, powerIo, powerLevel, resetIo, resetLevel, powerIo);
    PowerDownOn(valid, powerIo, powerLevel, resetIo, resetLevel, resetIo);
  }

  /** Only a valid GPIO is ever driven, and only the power and reset pins. */
  lemma PowerDrivesValid(enable: bool, valid: int -> bool, powerIo: int, powerLevel: int, resetIo: int, resetLevel: int)
    ensures forall e :: e in PowerEvents(enable, valid, powerIo, powerLevel, resetIo, resetLevel) && e.Drive? ==>
      valid(e.gpio) && (e.gpio == powerIo || e.gpio == resetIo)
  {
    var p: seq<GpioEvent> := if valid(powerIo) then [Drive(powerIo, if enable then powerLevel else Not(powerLevel))] else [];
    var r: seq<GpioEvent> := if !valid(resetIo) then [] else if enable then ResetPulse(resetIo, resetLevel) else [Drive(resetIo, Not(resetLevel))];
    var s: seq<GpioEvent> := if enable then [Sleep(100)] else [];
    assert PowerEvents(enable, valid, powerIo, powerLevel, resetIo, resetLevel) == p + r + s;
  }

  // ---------------------------------------------------------------------
  // Device tree

  /** `GPIO_ACTIVE_HIGH` of dt-bindings/gpio/gpio.h. */
  const GpioActiveHigh: int := 0

  /** `-ENODEV` */
  const ENODEV: int := 19

  /** A GPIO property: the number and the flags `of_get_named_gpio_flags` returns. */
  datatype GpioProp = GpioProp(gpio: int, flags: int)

  /**
   * What the probe reads from the device node: the two optional PMU
   * properties, the two GPIOs and whether the node is "rockchip,gmac".
   */
  datatype DtNode = DtNode(pmuRegulator: Option<string>, pmuEnableLevel: Option<int>,
                           resetGpio: GpioProp, powerGpio: GpioProp, gmacCompatible: bool)

  datatype Option<T> = None | Some(value: T)

  /** The fields of `plat_stmmacenet_data` the probe fills. */
  datatype PlatData = PlatData(iface: PhyMode, hasGmac: bool, pmt: bool)

  /** The io level of a GPIO property: 1 when active high, else 0. */
  function IoLevel(p: GpioProp): (level: int)
    ensures level == 1 <==> p.flags == GpioActiveHigh
    ensures level == 0 || level == 1
  {
    if p.flags == GpioActiveHigh then 1 else 0
  }

  // ---------------------------------------------------------------------
  // The glue's state: `g_bsp_priv` and the calls it makes

  class BspPriv {
    var phyIface: PhyMode
    var clkEnable: bool
    /** The handles `gmac_clk_init` found to be errors. */
    const clkErrs: set<ClkId>
    /** `gpio_is_valid` */
    const gpioValid: int -> bool
    var powerCtrlByPmu: bool
    var pmuRegulator: string
    var pmuEnableLevel: int
    var resetIo: int
    var resetIoLevel: int
    var powerIo: int
    var powerIoLevel: int
    var grfWrites: seq<GrfWrite>
    var clkOps: seq<ClkOp>
    var gpioEvents: seq<GpioEvent>

    /** The static `g_bsp_priv` (zeroed) after `gmac_clk_init`. */
    constructor (errs: set<ClkId>, valid: int -> bool)
      ensures clkErrs == errs && gpioValid == valid && !clkEnable
      ensures phyIface == OtherMode && !powerCtrlByPmu
      ensures pmuRegulator == "" && pmuEnableLevel == 0
      ensures resetIo == 0 && resetIoLevel == 0 && powerIo == 0 && powerIoLevel == 0
      ensures grfWrites == [] && clkOps == [] && gpioEvents == []
    {
      phyIface := OtherMode;
      clkEnable := false;
      clkErrs := errs;
      gpioValid := valid;
      powerCtrlByPmu := false;
      pmuRegulator := "";
      pmuEnableLevel := 0;
      resetIo := 0;
      resetIoLevel := 0;
      powerIo := 0;
      powerIoLevel := 0;
      grfWrites := [];
      clkOps := [];
      gpioEvents := [];
    }

    method GrfWritel(value: bv32, reg: GrfReg)
      modifies this`grfWrites
      ensures grfWrites == old(grfWrites) + [GrfWrite(reg, value)]
    {
      grfWrites := grfWrites + [GrfWrite(reg, value)];
    }

    method ClkCall(op: ClkOp)
      modifies this`clkOps
      ensures clkOps == old(clkOps) + Guarded(clkErrs, op)
    {
      if op.clk !in clkErrs {
        clkOps := clkOps + [op];
      }
    }

    method GpioDirectionOutput(gpio: int, level: int)
      modifies this`gpioEvents
      ensures gpioEvents == old(gpioEvents) + [Drive(gpio, level)]
    {
      gpioEvents := gpioEvents + [Drive(gpio, level)];
    }

    method Msleep(ms: nat)
      modifies this`gpioEvents
      ensures gpioEvents == old(gpioEvents) + [Sleep(ms)]
    {
      gpioEvents := gpioEvents + [Sleep(ms)];
    }

    method RmiiClocksOn()
      modifies this`clkOps
      ensures clkOps == old(clkOps) + RmiiOnOps(clkErrs)
    {
      ClkCall(SetRate(ClkMac, 50_000_000));
      ClkCall(PrepareEnable(MacClkRx));
      ClkCall(PrepareEnable(ClkMacRef));
      ClkCall(PrepareEnable(ClkMacRefout));
    }

    method CommonClocksOn()
      modifies this`clkOps
      ensures clkOps == old(clkOps) + CommonOnOps(clkErrs)
    {
      ClkCall(PrepareEnable(AclkMac));
      ClkCall(PrepareEnable(PclkMac));
      ClkCall(PrepareEnable(MacClkTx));
      ClkCall(PrepareEnable(ClkMac));
    }

    method RmiiClocksOff()
      modifies this`clkOps
      ensures clkOps == old(clkOps) + RmiiOffOps(clkErrs)
    {
      ClkCall(DisableUnprepare(MacClkRx));
      ClkCall(DisableUnprepare(ClkMacRef));
      ClkCall(DisableUnprepare(ClkMacRefout));
    }

    method CommonClocksOff()
      modifies this`clkOps
      ensures clkOps == old(clkOps) + CommonOffOps(clkErrs)
    {
      ClkCall(DisableUnprepare(AclkMac));
      ClkCall(DisableUnprepare(PclkMac));
      ClkCall(DisableUnprepare(MacClkTx));
      ClkCall(DisableUnprepare(ClkMac));
    }

    /**
     * `gmac_clk_enable(enable)`: returns 0 and leaves `clk_enable == enable`.
     * A switch to the state already held makes no call; otherwise the calls
     * are those of EnableOps or DisableOps.
     */
    method GmacClkEnable(enable: bool) returns (ret: int)
      modifies this`clkOps, this`clkEnable
      ensures ret == 0 && clkEnable == enable
      ensures clkOps == old(clkOps) +
        (if enable == old(clkEnable) then []
         else if enable then EnableOps(phyIface, clkErrs)
         else DisableOps(phyIface, clkErrs))
    {
      ghost var before := clkOps;
      if enable {
        if !clkEnable {
          if phyIface == Rmii {
            RmiiClocksOn();
          }
          ghost var mid := clkOps;
          CommonClocksOn();
          assert mid == before + (if phyIface == Rmii then RmiiOnOps(clkErrs) else []);
          AppendAssoc(before, if phyIface == Rmii then RmiiOnOps(clkErrs) else [], CommonOnOps(clkErrs));
          clkEnable := true;
        }
      } else {
        if clkEnable {
          if phyIface == Rmii {
            RmiiClocksOff();
          }
          ghost var mid := clkOps;
          CommonClocksOff();
          assert mid == before + (if phyIface == Rmii then RmiiOffOps(clkErrs) else []);
          AppendAssoc(before, if phyIface == Rmii then RmiiOffOps(clkErrs) else [], CommonOffOps(clkErrs));
          clkEnable := false;
        }
      }
      ret := 0;
    }

    /** `power_on_by_gpio(enable)`: returns 0; the calls are those of PowerEvents. */
    method PowerOnByGpio(enable: bool) returns (ret: int)
      modifies this`gpioEvents
      ensures ret == 0
      ensures gpioEvents == old(gpioEvents) + PowerEvents(enable, gpioValid, powerIo, powerIoLevel, resetIo, resetIoLevel)
    {
      if enable {
        if gpioValid(powerIo) {
          GpioDirectionOutput(powerIo, powerIoLevel);
        }
        if gpioValid(resetIo) {
          GpioDirectionOutput(resetIo, resetIoLevel);
          Msleep(10);
          GpioDirectionOutput(resetIo, Not(resetIoLevel));
        }
        Msleep(100);
      } else {
        if gpioValid(powerIo) {
          GpioDirectionOutput(powerIo, Not(powerIoLevel));
        }
        if gpioValid(resetIo) {
          GpioDirectionOutput(resetIo, Not(resetIoLevel));
        }
      }
      ret := 0;
    }

    /** `stmmc_pltfr_init`: returns 0; the GRF writes are those of InitWrites. */
    method PltfrInit() returns (ret: int)
      modifies this`grfWrites
      ensures ret == 0
      ensures grfWrites == old(grfWrites) + InitWrites(phyIface)
    {
      if phyIface == Rgmii {
        GrfWritel(PhyIntfSelRgmii, MacCon1);
        GrfWritel(RmiiModeClr, MacCon1);
        GrfWritel(RxClkDlyEnable, MacCon0);
        GrfWritel(TxClkDlyEnable, MacCon0);
        GrfWritel(ClkRxDlCfg(0x10), MacCon0);
        GrfWritel(ClkTxDlCfg(0x30), MacCon0);
      } else if phyIface == Rmii {
        GrfWritel(PhyIntfSelRmii, MacCon1);
        GrfWritel(RmiiMode, MacCon1);
      }
      ret := 0;
    }

    /** `stmmc_pltfr_fix_mac_speed(priv, speed)`: the GRF writes are those of SpeedWrites. */
    method FixMacSpeed(speed: U32)
      modifies this`grfWrites
      ensures grfWrites == old(grfWrites) + SpeedWrites(phyIface, speed)
    {
      if phyIface == Rgmii {
        if speed == 10 {
          GrfWritel(Clk2_5M, MacCon1);
        } else if speed == 100 {
          GrfWritel(Clk25M, MacCon1);
        } else if speed == 1000 {
          GrfWritel(Clk125M, MacCon1);
        }
      } else if phyIface == Rmii {
        if speed == 10 {
          GrfWritel(RmiiClk2_5M, MacCon1);
          GrfWritel(Speed10M, MacCon1);
        } else if speed == 100 {
          GrfWritel(RmiiClk25M, MacCon1);
          GrfWritel(Speed100M, MacCon1);
        }
      }
    }

    /**
     * The flag logic of `stmmac_probe_config_dt`. Without a node: -ENODEV
     * and nothing changes. Otherwise returns 0; the interface is RMII or
     * RGMII as configured at build time; `power_ctrl_by_pmu` ends up
     * telling whether `pmu_enable_level` could be read (the second
     * assignment overrides the first); each io level is 1 when its GPIO is
     * active high and 0 otherwise; has_gmac and pmt are set for "rockchip,gmac".
     */
    method ProbeConfigDt(np: Option<DtNode>, configRmii: bool, plat: PlatData) returns (ret: int, plat': PlatData)
      modifies this`powerCtrlByPmu, this`pmuRegulator, this`pmuEnableLevel, this`resetIo, this`resetIoLevel
      modifies this`powerIo, this`powerIoLevel, this`phyIface
      ensures np.None? ==> ret == -ENODEV && plat' == plat
      ensures np.None? ==> powerCtrlByPmu == old(powerCtrlByPmu) && pmuRegulator == old(pmuRegulator)
      ensures np.None? ==> pmuEnableLevel == old(pmuEnableLevel) && phyIface == old(phyIface)
      ensures np.None? ==> resetIo == old(resetIo) && resetIoLevel == old(resetIoLevel)
      ensures np.None? ==> powerIo == old(powerIo) && powerIoLevel == old(powerIoLevel)
      ensures np.Some? ==> ret == 0
      ensures np.Some? ==> plat'.iface == (if configRmii then Rmii else Rgmii) && phyIface == plat'.iface
      ensures np.Some? ==> powerCtrlByPmu == np.value.pmuEnableLevel.Some?
      ensures np.Some? ==> pmuRegulator == (if np.value.pmuRegulator.Some? then np.value.pmuRegulator.value else old(pmuRegulator))
      ensures np.Some? ==> pmuEnableLevel == (if np.value.pmuEnableLevel.Some? then np.value.pmuEnableLevel.value else old(pmuEnableLevel))
      ensures np.Some? ==> resetIo == np.value.resetGpio.gpio && resetIoLevel == IoLevel(np.value.resetGpio)
      ensures np.Some? ==> powerIo == np.value.powerGpio.gpio && powerIoLevel == IoLevel(np.value.powerGpio)
      ensures np.Some? ==> (plat'.hasGmac == (np.value.gmacCompatible || plat.hasGmac)) && (plat'.pmt == (np.value.gmacCompatible || plat.pmt))
    {
      if np.None? {
        return -ENODEV, plat;
      }
      var node := np.value;
      plat' := plat.(iface := if configRmii then Rmii else Rgmii);
      match node.pmuRegulator {
        case None =>
          powerCtrlByPmu := false;
        case Some(s) =>
          powerCtrlByPmu := true;
          pmuRegulator := s;
      }
      match node.pmuEnableLevel {
        case None =>
          powerCtrlByPmu := false;
        case Some(v) =>
          powerCtrlByPmu := true;
          pmuEnableLevel := v;
      }
      resetIo := node.resetGpio.gpio;
      resetIoLevel := IoLevel(node.resetGpio);
      powerIo := node.powerGpio.gpio;
      powerIoLevel := IoLevel(node.powerGpio);
      phyIface := plat'.iface;
      if node.gmacCompatible {
        plat' := plat'.(hasGmac := true, pmt := true);
      }
      ret := 0;
    }
  }
}
