# Rockchip RK312x register logic in Dafny

This project models three small pieces of register logic from a Rockchip
RK312x Linux kernel tree and proves properties about them.

- **E-fuse reader** (`Efuse`, `efuse.dfy`). This is the bit-banged read
  protocol of `efuse_readregs`, which runs over the controller's CTRL and
  DOUT registers.
  - The controller is a class. CTRL is a `bv32` field, and DOUT is what
    the fuse array delivers for the address field that CTRL presents
    while STROBE is high.
  - A ghost log records every rising edge of STROBE together with the
    address field at that moment.
  - The do-while loop is a `for` loop whose invariant ties the buffer to a
    specification function, `FuseBytes`.
  - The 33-byte `efuse_buf` snapshot (`efuse_init`) is an `array<bv8>`.
    The accessors `rockchip_efuse_version` and `rockchip_get_leakage` are
    functions over it. `proc_efuse_ioctl` copies parts of it into a
    caller array.
  - The bit constants of `efuse.h` are a parameter, `Layout`. Its
    well-formedness states that STROBE is non-zero and that the address
    field and STROBE do not overlap each other or CSB, LOAD and PGENB.
- **LVDS / MIPI-PHY helpers** (`Lvds`, `lvds.dfy`).
  - The `v_*` encoders are `bv32` functions whose contracts state the bits
    they may set and the value they carry.
  - `BIT`, `BIT_MASK` and `BIT_EN` are plain functions (`Bit`, `BitMask`,
    `BitEn`); the bound on `BIT_MASK` is the lemma `BitMaskWithin`.
    `Bit` and `BitMask` live in `Words`, because `efuse_readregs` places
    its address field the same way.
  - The `m_*` masks are constants.
  - `lvds_writel` and the read-modify-write `lvds_msk_reg` are methods on
    a register window, `offset -> word`.
- **GMAC SoC glue** (`Gmac`, `gmac.dfy`). The state lives in `BspPriv`,
  which is the global `g_bsp_priv`.
  - The GRF "hiword" constants are modelled, along with the RK3128
    `SET_*` write sequences.
  - The interface dispatch of `stmmc_pltfr_init` and the
    interface/speed dispatch of `stmmc_pltfr_fix_mac_speed` are modelled.
  - So are the idempotent clock switch `gmac_clk_enable`, the GPIO
    sequence of `power_on_by_gpio`, and the flag resolution of
    `stmmac_probe_config_dt`.
  - Calls into kernel services are recorded in ordered traces:
    `grfWrites`, `clkOps` and `gpioEvents`. The traces only record the
    calls, not what they do to the hardware.

`Words` (`words.dfy`) holds the shared 32-bit word vocabulary:
`ClearBits`, `SetBits`, `Bits`, `Disjoint`, `Within`, `HiwordEnabled`,
the `U32` range, and the field builders `Bit` and `BitMask` with their
bound `BitMaskWithin`.

## Model

| member | source | states |
|---|---|---|
| Efuse.ToCInt | arch/arm/mach-rockchip/efuse.c:27 | `int ret = length` keeps any length below 2^31, lands in the `int` range and is congruent to the length modulo 2^32 |
| Efuse.Low8 | arch/arm/mach-rockchip/efuse.c:47 | storing a DOUT word into a `u8` keeps exactly its low eight bits |
| Efuse.AddrField | arch/arm/mach-rockchip/efuse.c:38-39 | the address field `EFUSE_A_MASK << EFUSE_A_SHIFT` that the clear step empties; `WellFormed` keeps it apart from STROBE, CSB, LOAD and PGENB |
| Efuse.AddrBits | arch/arm/mach-rockchip/efuse.c:40-42 | the presented address `(addr & EFUSE_A_MASK) << EFUSE_A_SHIFT`; `AddrBitsInField` states that it stays inside `AddrField`, `StrobedWord` that it is the field under STROBE |
| Efuse.ReadMode | arch/arm/mach-rockchip/efuse.c:35 | the word `EFUSE_LOAD \| EFUSE_PGENB`; `ReadModeIdle` states that it is read-idle with STROBE low |
| Efuse.WellFormed | arch/arm/mach-rockchip/efuse.c:34-55 | what the protocol relies on of the `efuse.h` constants: STROBE is non-zero, and the address field and STROBE overlap neither each other nor CSB, LOAD or PGENB |
| Efuse.StrobeHigh | arch/arm/mach-rockchip/efuse.c:44-49 | the STROBE bit of a CTRL word is set; `StrobedWord`, `ReleasedLow` and `IdleLow` state when it is |
| Efuse.FieldOf | arch/arm/mach-rockchip/efuse.c:38-42 | the address-field bits of a CTRL word; `StrobedWord` states that the strobed word holds exactly the placed address there |
| Efuse.ReadIdle | arch/arm/mach-rockchip/efuse.c:35-50 | outside the address field, CTRL is `LOAD \| PGENB`; `ReadModeIdle` states that the opening writes reach it and `ReleasedIdle` that every iteration keeps it |
| Efuse.ReadClosed | arch/arm/mach-rockchip/efuse.c:55 | CSB set and STROBE low; `ClosedDeselected` states that the closing write reaches it |
| Efuse.Rise | arch/arm/mach-rockchip/efuse.c:44-45 | the pulse a CTRL write makes: the address field on a rising edge of STROBE, nothing otherwise; `LowWriteNoPulse` states that a write leaving STROBE low makes none |
| Efuse.FuseByte | arch/arm/mach-rockchip/efuse.c:44-47 | the byte one iteration stores: the low byte of the fuse word at the placed address; `SampleDeliversFuseByte` states that the DOUT sample is this byte |
| Efuse.FuseAddrs | arch/arm/mach-rockchip/efuse.c:37-53 | the address fields presented by n iterations from `addr`, in order; `FuseAddrsAt` gives its length and i-th entry |
| Efuse.FuseBytes | arch/arm/mach-rockchip/efuse.c:37-53 | the bytes stored by n iterations from `addr`, in order; `FuseBytesAt` gives its length and i-th byte |
| Efuse.Cleared | arch/arm/mach-rockchip/efuse.c:38-39 | CTRL after clearing the address field; `AddressingLow` and `ReleasedIdle` state its effect |
| Efuse.Addressed | arch/arm/mach-rockchip/efuse.c:40-42 | CTRL after OR-ing in the masked, shifted address; `AddrBitsInField` and `AddressingLow` state its effect |
| Efuse.Strobed | arch/arm/mach-rockchip/efuse.c:44-45 | CTRL after raising STROBE; `StrobedWord`, `StrobedSelected` and `SampleDeliversFuseByte` state its effect |
| Efuse.Released | arch/arm/mach-rockchip/efuse.c:48-49 | CTRL after dropping STROBE; `ReleasedLow` and `ReleasedIdle` state its effect |
| Efuse.Dout | arch/arm/mach-rockchip/efuse.c:47 | DOUT: the fuse word of the presented address field while STROBE is high, a fixed idle value otherwise; `SampleDeliversFuseByte` states what the loop reads from it |
| Efuse.AddrBitsInField | arch/arm/mach-rockchip/efuse.c:38-42 | the address the loop presents lies inside the field that the clear step emptied |
| Efuse.StrobedWord | arch/arm/mach-rockchip/efuse.c:38-45 | after the clear, set and strobe writes, STROBE is high and the address field holds exactly `addr & EFUSE_A_MASK` |
| Efuse.ReleasedLow | arch/arm/mach-rockchip/efuse.c:48-49 | dropping STROBE leaves STROBE low |
| Efuse.AddressingLow | arch/arm/mach-rockchip/efuse.c:38-42 | the two address writes never raise STROBE, so they make no pulse |
| Efuse.ReleasedIdle | arch/arm/mach-rockchip/efuse.c:38-50 | one iteration leaves CTRL in the read-idle state it started from: outside the address field, CTRL is exactly `LOAD \| PGENB` |
| Efuse.ReadModeIdle | arch/arm/mach-rockchip/efuse.c:34-35 | the opening writes leave CTRL at `LOAD \| PGENB`, which is read-idle with STROBE low |
| Efuse.IdleLow | arch/arm/mach-rockchip/efuse.c:44-50 | STROBE is low at the end of every iteration |
| Efuse.IdleSelected | arch/arm/mach-rockchip/efuse.c:35-53 | when CSB lies outside `LOAD \| PGENB`, CSB is clear in every read-idle word: after the opening writes and at the end of every iteration |
| Efuse.StrobedSelected | arch/arm/mach-rockchip/efuse.c:38-47 | when CSB lies outside `LOAD \| PGENB`, CSB is also clear in the strobed word under which DOUT is sampled |
| Efuse.ClosedDeselected | arch/arm/mach-rockchip/efuse.c:55 | the closing write sets CSB and leaves STROBE low |
| Efuse.LowWriteNoPulse | arch/arm/mach-rockchip/efuse.c:38-55 | a CTRL write that leaves STROBE low makes no strobe pulse |
| Efuse.SampleDeliversFuseByte | arch/arm/mach-rockchip/efuse.c:44-47 | the DOUT byte sampled while STROBE is high is the fuse byte of `addr & EFUSE_A_MASK` |
| Efuse.FuseAddrsAt | arch/arm/mach-rockchip/efuse.c:37-53 | N iterations present exactly N addresses, the i-th being `(addr + i) & EFUSE_A_MASK` placed in the field, with u32 wrap |
| Efuse.FuseBytesAt | arch/arm/mach-rockchip/efuse.c:47-52 | the i-th byte read is the fuse byte of address `addr + i` |
| Efuse.AdvanceFromZero | arch/arm/mach-rockchip/efuse.c:52 | the `addr++` counter started at 0 (`efuse_init`) reaches exactly i after i increments, for i < 32, with no wrap |
| Efuse.Advance | arch/arm/mach-rockchip/efuse.c:52 | `addr` after i executions of `addr++` in u32 arithmetic, wrapping at 2^32; `FuseAddrsAt`, `FuseBytesAt` and `AdvanceFromZero` state what the loop presents with it |
| Efuse.IoW | arch/arm/mach-rockchip/efuse.c:132-134 | the `_IOW(type, nr, int)` encoding; `IoctlNumbers` gives its values for the three commands |
| Efuse.IoctlNumbers | arch/arm/mach-rockchip/efuse.c:130-134 | `_IOW('M', 0..2, int)` is 0x40044D00, 0x40044D01 and 0x40044D02; the three commands are distinct |
| Efuse.EfuseDevice.constructor | arch/arm/mach-rockchip/efuse.c:18 | `efuse_buf` has 33 bytes and starts zeroed; no pulse has occurred |
| Efuse.EfuseDevice.Valid | arch/arm/mach-rockchip/efuse.c:18 | `efuse_buf` has 32 + 1 bytes |
| Efuse.EfuseDevice.Loaded | arch/arm/mach-rockchip/efuse.c:37-53 | the first p bytes of a buffer hold the fuse bytes from `addr` on; `ReadByte`, `ReadLoop` and `ReadRegs` keep or establish it |
| Efuse.EfuseDevice.Booted | arch/arm/mach-rockchip/efuse.c:167-174 | `efuse_buf[0..32)` holds the fuse bytes from address 0 on; `Init` establishes it and `SnapshotIsFuse` reads it back per byte |
| Efuse.EfuseDevice.ReadCtrl | arch/arm/mach-rockchip/efuse.c:15 | `efuse_readl(REG_EFUSE_CTRL)` returns the CTRL word |
| Efuse.EfuseDevice.WriteCtrl | arch/arm/mach-rockchip/efuse.c:16 | `efuse_writel` replaces CTRL and logs a pulse exactly on a STROBE rising edge |
| Efuse.EfuseDevice.ReadDout | arch/arm/mach-rockchip/efuse.c:47 | `efuse_readl(REG_EFUSE_DOUT)` returns what the fuse array drives for the current CTRL |
| Efuse.EfuseDevice.Udelay | arch/arm/mach-rockchip/efuse.c:36-56 | `udelay`: a delay with no effect on the modelled state, since timing is not modelled |
| Efuse.EfuseDevice.ClearCtrl | arch/arm/mach-rockchip/efuse.c:38-39 | the read-modify-write `ctrl & ~m` |
| Efuse.EfuseDevice.SetCtrl | arch/arm/mach-rockchip/efuse.c:40-45 | the read-modify-write `ctrl \| m` |
| Efuse.EfuseDevice.Open | arch/arm/mach-rockchip/efuse.c:34-36 | CTRL ends at `LOAD \| PGENB`, read-idle, with no pulse |
| Efuse.EfuseDevice.Present | arch/arm/mach-rockchip/efuse.c:38-46 | CTRL ends with the address placed and STROBE high, and exactly one pulse is logged for that address |
| Efuse.EfuseDevice.Sample | arch/arm/mach-rockchip/efuse.c:47-50 | returns the low byte of DOUT under the strobed word, then drops STROBE with no pulse |
| Efuse.EfuseDevice.Step | arch/arm/mach-rockchip/efuse.c:38-50 | one iteration returns the fuse byte of the address, logs one pulse and returns to read-idle with STROBE low |
| Efuse.EfuseDevice.ReadByte | arch/arm/mach-rockchip/efuse.c:38-52 | stores byte p, keeps bytes 0..p loaded and touches no later byte |
| Efuse.EfuseDevice.ReadLoop | arch/arm/mach-rockchip/efuse.c:37-53 | N iterations load `buf[0..N)` with the fuse bytes from `addr` on, log the N addresses in order and leave later bytes untouched |
| Efuse.EfuseDevice.Close | arch/arm/mach-rockchip/efuse.c:54-56 | sets CSB with STROBE low and no pulse |
| Efuse.EfuseDevice.ReadRegs | arch/arm/mach-rockchip/efuse.c:20-61 | returns `length` (as a C int); with length 0 it touches nothing; otherwise it loads `buf[0..length)`, logs exactly `length` pulses, ends deselected, and never writes `buf[length..]` |
| Efuse.EfuseDevice.Init | arch/arm/mach-rockchip/efuse.c:167-174 | returns 0 with `efuse_buf[0..32)` loaded from fuse addresses 0..31 and `efuse_buf[32]` kept |
| Efuse.EfuseDevice.SnapshotIsFuse | arch/arm/mach-rockchip/efuse.c:169 | after boot, `efuse_buf[i]` is the fuse byte of address i, with no wrap, for every i < 32 |
| Efuse.EfuseDevice.Version | arch/arm/mach-rockchip/efuse.c:114-118 | the version lies in 0..255, has bit 3 clear, and agrees with `efuse_buf[4]` on every other bit |
| Efuse.EfuseDevice.VersionIsFuse | arch/arm/mach-rockchip/efuse.c:114-118 | after boot, the version is fuse byte 4 with bit 3 cleared |
| Efuse.EfuseDevice.GetLeakage | arch/arm/mach-rockchip/efuse.c:120-126 | returns 0 for any channel outside 0..2, including negatives; otherwise `efuse_buf[23 + ch]`, whose index stays inside the 33-byte buffer |
| Efuse.EfuseDevice.LeakageIsFuse | arch/arm/mach-rockchip/efuse.c:120-126 | after boot, channels 0, 1 and 2 give fuse bytes 23, 24 and 25 |
| Efuse.EfuseDevice.ProcIoctl | arch/arm/mach-rockchip/efuse.c:136-161 | returns 0; DECRYPT copies `efuse_buf[6..22)` to `num[0..16)`; FULLINFO copies `efuse_buf[0..32)` to `num[0..32)`; bytes beyond these, and all of `num` for ECRYPT or an unknown command, are untouched |
| Words.BitMaskWithin | drivers/video/rockchip/transmitter/rk31xx_lvds.h:9-14 | `BIT_MASK(x, mask, bit)` never sets a bit outside `mask << bit` |
| Words.Bit | drivers/video/rockchip/transmitter/rk31xx_lvds.h:9 | `BIT(x, bit)`, the shift the other builders and masks are written with |
| Words.BitMask | drivers/video/rockchip/transmitter/rk31xx_lvds.h:14 | `BIT_MASK(x, mask, bit)`; `BitMaskWithin` states that it stays within `BIT(mask, bit)` |
| Words.HiwordEnabled | drivers/net/ethernet/rockchip/gmac/stmmac_platform.c:43-64 | the hiword form: every value bit in the low half has its write-enable bit sixteen places up; `GrfConstantsEnabled` and `Con0FieldsCombine` state which words have it |
| Lvds.BitEn | drivers/video/rockchip/transmitter/rk31xx_lvds.h:15 | `BIT_EN(mask, bit)`, the mask placed sixteen bits up; the CON0 encoders' contracts state the enable half it gives |
| Lvds.DataSel | drivers/video/rockchip/transmitter/rk31xx_lvds.h:15-18 | `v_LVDS_DATA_SEL` enables exactly bit 0 and carries `x & 1` there |
| Lvds.OutputFormat | drivers/video/rockchip/transmitter/rk31xx_lvds.h:15-19 | `v_LVDS_OUTPUT_FORMAT` enables exactly bits 1-2 and carries `x & 3` there |
| Lvds.MsbSel | drivers/video/rockchip/transmitter/rk31xx_lvds.h:15-20 | `v_LVDS_MSBSEL` enables exactly bit 3 and carries `x & 1` there |
| Lvds.LvdsModeEnable | drivers/video/rockchip/transmitter/rk31xx_lvds.h:15-21 | `v_LVDSMODE_EN` enables exactly bit 6 and carries `x & 1` there |
| Lvds.MipiPhyTtlEnable | drivers/video/rockchip/transmitter/rk31xx_lvds.h:15-22 | `v_MIPIPHY_TTL_EN` enables exactly bit 7 and carries `x & 1` there |
| Lvds.Con0FieldsCombine | drivers/video/rockchip/transmitter/rk31xx_lvds.h:17-22 | the OR of all five CON0 encoders is still hiword-enabled, with write-enable mask 0xCF |
| Lvds.Lane0Enable | drivers/video/rockchip/transmitter/rk31xx_lvds.h:35 | bit 2 is set exactly when `x & 1` is 1; nothing else is set |
| Lvds.Lane1Enable | drivers/video/rockchip/transmitter/rk31xx_lvds.h:36 | bit 3 is set exactly when `x & 1` is 1; nothing else is set |
| Lvds.Lane2Enable | drivers/video/rockchip/transmitter/rk31xx_lvds.h:37 | bit 4 is set exactly when `x & 1` is 1; nothing else is set |
| Lvds.Lane3Enable | drivers/video/rockchip/transmitter/rk31xx_lvds.h:38 | bit 5 is set exactly when `x & 1` is 1; nothing else is set |
| Lvds.LaneClkEnable | drivers/video/rockchip/transmitter/rk31xx_lvds.h:39 | bit 6 is set exactly when `x & 1` is 1; nothing else is set |
| Lvds.PreDiv | drivers/video/rockchip/transmitter/rk31xx_lvds.h:42-44 | `v_PREDIV` stays within `m_PREDIV` and carries `x & 0x1f` |
| Lvds.FbDivMsb | drivers/video/rockchip/transmitter/rk31xx_lvds.h:43-45 | `v_FBDIV_MSB` stays within `m_FBDIV_MSB` and carries `x & 1` at bit 5 |
| Lvds.FbDivLsb | drivers/video/rockchip/transmitter/rk31xx_lvds.h:48 | `v_FBDIV_LSB` is the low byte of x |
| Lvds.FbDivRoundTrip | drivers/video/rockchip/transmitter/rk31xx_lvds.h:41-48 | a 9-bit feedback divider split into `v_FBDIV_MSB(fb >> 8)` and `v_FBDIV_LSB(fb)` reassembles to fb |
| Lvds.PhyMsbSel | drivers/video/rockchip/transmitter/rk31xx_lvds.h:51-56 | `v_MSB_SEL` stays within `m_MSB_SEL` and equals it exactly when `x & 1` is 1 |
| Lvds.DigInterRst | drivers/video/rockchip/transmitter/rk31xx_lvds.h:52-57 | `v_DIG_INTER_RST` stays within `m_DIG_INTER_RST` and equals it exactly when `x & 1` is 1 |
| Lvds.LvdsModeEn | drivers/video/rockchip/transmitter/rk31xx_lvds.h:53-58 | `v_LVDS_MODE_EN` stays within `m_LVDS_MODE_EN` and equals it exactly when `x & 1` is 1 |
| Lvds.TtlModeEn | drivers/video/rockchip/transmitter/rk31xx_lvds.h:54-59 | `v_TTL_MODE_EN` stays within `m_TTL_MODE_EN` and equals it exactly when `x & 1` is 1 |
| Lvds.MipiModeEn | drivers/video/rockchip/transmitter/rk31xx_lvds.h:55-60 | `v_MIPI_MODE_EN` stays within `m_MIPI_MODE_EN` and equals it exactly when `x & 1` is 1 |
| Lvds.RegE0MasksDisjoint | drivers/video/rockchip/transmitter/rk31xx_lvds.h:51-55 | the five REGE0 masks are pairwise disjoint |
| Lvds.DigInterEn | drivers/video/rockchip/transmitter/rk31xx_lvds.h:63-64 | `v_DIG_INTER_EN` stays within `m_DIG_INTER_EN` and equals it exactly when `x & 1` is 1 |
| Lvds.MipiEn | drivers/video/rockchip/transmitter/rk31xx_lvds.h:67-70 | `v_MIPI_EN` stays within `m_MIPI_EN` and equals it exactly when `x & 1` is 1 |
| Lvds.LvdsEn | drivers/video/rockchip/transmitter/rk31xx_lvds.h:68-71 | `v_LVDS_EN` stays within `m_LVDS_EN` and equals it exactly when `x & 1` is 1 |
| Lvds.TtlEn | drivers/video/rockchip/transmitter/rk31xx_lvds.h:69-72 | `v_TTL_EN` stays within `m_TTL_EN` and equals it exactly when `x & 1` is 1 |
| Lvds.BgPowerDown | drivers/video/rockchip/transmitter/rk31xx_lvds.h:75-77 | `v_BG_POWER_DOWN` stays within `m_BG_POWER_DOWN` and equals it exactly when `x & 1` is 1 |
| Lvds.PllPowerDown | drivers/video/rockchip/transmitter/rk31xx_lvds.h:76-78 | `v_PLL_POWER_DOWN` stays within `m_PLL_POWER_DOWN` and equals it exactly when `x & 1` is 1 |
| Lvds.MskRegValue | drivers/video/rockchip/transmitter/rk31xx_lvds.h:104-105 | the word `lvds_msk_reg` writes back, in u32 arithmetic; `MskRegByteMask`, `MskRegIdempotent` and `MskRegWideMask` state its behaviour |
| Lvds.MskRegUnfold | drivers/video/rockchip/transmitter/rk31xx_lvds.h:104-105 | the written word is `(old & (0xFF - msk)) \| (val & msk)` in u32 arithmetic |
| Lvds.ByteComplement | drivers/video/rockchip/transmitter/rk31xx_lvds.h:104 | for `msk <= 0xFF`, the C expression `0xFF - msk` is the low-byte complement of msk |
| Lvds.ByteMaskWord | drivers/video/rockchip/transmitter/rk31xx_lvds.h:104-105 | with the low-byte complement as keep mask, the written word carries val under msk, the old bits under the keep mask, and nothing above bit 7 |
| Lvds.MskRegByteMask | drivers/video/rockchip/transmitter/rk31xx_lvds.h:104-105 | for `msk <= 0xFF`, the bits under msk come from val, the other low-byte bits keep the old register's value, and bits 8-31 are written as zero |
| Lvds.MskRegIdempotent | drivers/video/rockchip/transmitter/rk31xx_lvds.h:104-105 | applying the masked update twice with the same mask and value gives the same word as applying it once |
| Lvds.MskRegWideMask | drivers/video/rockchip/transmitter/rk31xx_lvds.h:104 | with a mask above the low byte, `0xFF - msk` wraps: for mask 0x100 the masked bit is not taken from val |
| Lvds.LvdsDevice.constructor | drivers/video/rockchip/transmitter/rk31xx_lvds.h:84-91 | the register window starts at the given contents |
| Lvds.LvdsDevice.Readl | drivers/video/rockchip/transmitter/rk31xx_lvds.h:104 | `readl_relaxed(regbase + offset)` returns the word at offset |
| Lvds.LvdsDevice.WriteRaw | drivers/video/rockchip/transmitter/rk31xx_lvds.h:95 | `writel_relaxed(val, regbase + offset)`: the register at offset becomes val and no other offset changes |
| Lvds.LvdsDevice.Writel | drivers/video/rockchip/transmitter/rk31xx_lvds.h:93-97 | returns 0; the register at offset becomes val and no other offset changes |
| Lvds.LvdsDevice.MskReg | drivers/video/rockchip/transmitter/rk31xx_lvds.h:99-107 | returns 0; the register at offset becomes the masked update of its old value and no other offset changes |
| Gmac.ClkRxDlCfg | drivers/net/ethernet/rockchip/gmac/stmmac_platform.c:63 | for a 7-bit value, the RX delay setting enables exactly bits 7-13 (mask 0x3F80) and carries the value there, with bits 0-6 clear |
| Gmac.ClkTxDlCfg | drivers/net/ethernet/rockchip/gmac/stmmac_platform.c:64 | for a 7-bit value, the TX delay setting enables exactly bits 0-6 (mask 0x7F) and carries the value there |
| Gmac.Hiword | drivers/net/ethernet/rockchip/gmac/stmmac_platform.c:43-64 | `(mask << 16) \| val`, the form of every `GMAC_*` constant; `GrfConstantsEnabled`, `ClkRxDlCfg` and `ClkTxDlCfg` state what the constants built with it enable |
| Gmac.AllEnabled | drivers/net/ethernet/rockchip/gmac/stmmac_platform.c:107-141 | every write of a sequence is in hiword form; `InterfaceSelection` and `SpeedWritesSupported` state it of the `SET_*` sequences |
| Gmac.IntfSel | drivers/net/ethernet/rockchip/gmac/stmmac_platform.c:43-44 | the 3-bit interface selector, bits 6-8 of MAC_CON1, that a write sets when it enables those bits; `InterfaceSelection` gives its value per sequence |
| Gmac.ClkRxDlCfgTooWide | drivers/net/ethernet/rockchip/gmac/stmmac_platform.c:63 | an 8-bit RX delay value spills outside the mask it enables |
| Gmac.GrfConstantsEnabled | drivers/net/ethernet/rockchip/gmac/stmmac_platform.c:43-62 | every `GMAC_*` constant has its value bits contained in its write-enable mask |
| Gmac.InitWrites | drivers/net/ethernet/rockchip/gmac/stmmac_platform.c:107-119 | the writes of `stmmc_pltfr_init` per interface: the `SET_RGMII` and `SET_RMII` sequences, in source order; `InterfaceSelection` states what they select |
| Gmac.SpeedWrites | drivers/net/ethernet/rockchip/gmac/stmmac_platform.c:121-141 | the `SET_RGMII_*` and `SET_RMII_*` writes per (interface, speed); `SpeedWritesSupported` and `SpeedSelectors` state their properties |
| Gmac.InterfaceSelection | drivers/net/ethernet/rockchip/gmac/stmmac_platform.c:107-119 | `SET_RGMII` has six enabled writes; its first two go to MAC_CON1, select interface 1 and clear RMII mode. `SET_RMII` has two enabled writes to MAC_CON1, selects interface 4 and sets RMII mode |
| Gmac.SpeedWritesSupported | drivers/net/ethernet/rockchip/gmac/stmmac_platform.c:442-480 | a speed fix writes something exactly for RGMII at 10, 100 or 1000 and RMII at 10 or 100; every write goes to MAC_CON1 and is enabled |
| Gmac.SpeedSelectors | drivers/net/ethernet/rockchip/gmac/stmmac_platform.c:121-141 | the three RGMII speeds get pairwise different clock selectors; for RMII, the clock bit written first and the speed bit written second are both set exactly at 100 Mbit/s |
| Gmac.Guarded | drivers/net/ethernet/rockchip/gmac/stmmac_platform.c:214-264 | `if (!IS_ERR(clk)) op`: the call, or nothing when its handle is an error; `GuardedIn` and `ClkOpsGuarded` state that no error handle is ever used |
| Gmac.GuardedIn | drivers/net/ethernet/rockchip/gmac/stmmac_platform.c:214-264 | a guarded call is made exactly when its handle is not an error |
| Gmac.RmiiOnly | drivers/net/ethernet/rockchip/gmac/stmmac_platform.c:213-253 | `mac_clk_rx`, `clk_mac_ref` and `clk_mac_refout`, the clocks switched only inside the RMII blocks |
| Gmac.RmiiOnOps | drivers/net/ethernet/rockchip/gmac/stmmac_platform.c:213-225 | the calls of the RMII block of the enable path, in source order; `RmiiOnOpsIn` states which calls they are |
| Gmac.RmiiOnOpsIn | drivers/net/ethernet/rockchip/gmac/stmmac_platform.c:213-225 | the RMII enable block makes exactly the 50 MHz rate on `clk_mac` and the enables of `mac_clk_rx`, `clk_mac_ref` and `clk_mac_refout`, each only for a usable handle |
| Gmac.CommonOnOps | drivers/net/ethernet/rockchip/gmac/stmmac_platform.c:227-237 | the four common enables, in source order; `CommonOnOpsIn` states which calls they are |
| Gmac.CommonOnOpsIn | drivers/net/ethernet/rockchip/gmac/stmmac_platform.c:227-237 | the common enable block makes exactly the enables of `aclk_mac`, `pclk_mac`, `mac_clk_tx` and `clk_mac`, each only for a usable handle |
| Gmac.RmiiOffOps | drivers/net/ethernet/rockchip/gmac/stmmac_platform.c:244-253 | the calls of the RMII block of the disable path, in source order; `RmiiOffOpsIn` states which calls they are |
| Gmac.RmiiOffOpsIn | drivers/net/ethernet/rockchip/gmac/stmmac_platform.c:244-253 | the RMII disable block makes exactly the disables of `mac_clk_rx`, `clk_mac_ref` and `clk_mac_refout`, each only for a usable handle |
| Gmac.CommonOffOps | drivers/net/ethernet/rockchip/gmac/stmmac_platform.c:255-265 | the four common disables, in source order; `CommonOffOpsIn` states which calls they are |
| Gmac.CommonOffOpsIn | drivers/net/ethernet/rockchip/gmac/stmmac_platform.c:255-265 | the common disable block makes exactly the disables of `aclk_mac`, `pclk_mac`, `mac_clk_tx` and `clk_mac`, each only for a usable handle |
| Gmac.GuardedCount | drivers/net/ethernet/rockchip/gmac/stmmac_platform.c:214-264 | a guarded call occurs once when its handle is usable and not at all otherwise |
| Gmac.RmiiOnOpsCount | drivers/net/ethernet/rockchip/gmac/stmmac_platform.c:213-225 | the RMII enable block makes each of its four calls exactly once for a usable handle, and no other call |
| Gmac.CommonOnOpsCount | drivers/net/ethernet/rockchip/gmac/stmmac_platform.c:227-237 | the common enable block makes each of its four enables exactly once for a usable handle, and no other call |
| Gmac.RmiiOffOpsCount | drivers/net/ethernet/rockchip/gmac/stmmac_platform.c:244-253 | the RMII disable block makes each of its three disables exactly once for a usable handle, and no other call |
| Gmac.CommonOffOpsCount | drivers/net/ethernet/rockchip/gmac/stmmac_platform.c:255-265 | the common disable block makes each of its four disables exactly once for a usable handle, and no other call |
| Gmac.EnableOpsSplit | drivers/net/ethernet/rockchip/gmac/stmmac_platform.c:211-240 | the calls of the enable path are those of the RMII block, in RMII only, plus those of the common block |
| Gmac.DisableOpsSplit | drivers/net/ethernet/rockchip/gmac/stmmac_platform.c:242-268 | the calls of the disable path are those of the RMII block, in RMII only, plus those of the common block |
| Gmac.Switched | drivers/net/ethernet/rockchip/gmac/stmmac_platform.c:211-265 | the clocks a mode switches: a usable handle, not `clk_mac_pll` or `gmac_clkin`, and an RMII-only clock only in RMII; `EnableOpsExactly` and `DisableOpsExactly` are stated with it |
| Gmac.Enabled | drivers/net/ethernet/rockchip/gmac/stmmac_platform.c:211-240 | the clocks a call sequence enables; `ClkOpsBalanced` compares it with `Disabled` |
| Gmac.Disabled | drivers/net/ethernet/rockchip/gmac/stmmac_platform.c:242-268 | the clocks a call sequence disables; `ClkOpsBalanced` compares it with `Enabled` |
| Gmac.EnableOps | drivers/net/ethernet/rockchip/gmac/stmmac_platform.c:211-240 | the calls of the enable path in source order; `EnableOpsExactly`, `ClkOpsGuarded` and `ClkOpsBalanced` state which calls they are |
| Gmac.DisableOps | drivers/net/ethernet/rockchip/gmac/stmmac_platform.c:242-268 | the calls of the disable path in source order; `DisableOpsExactly`, `ClkOpsGuarded` and `ClkOpsBalanced` state which calls they are |
| Gmac.EnableOpsExactly | drivers/net/ethernet/rockchip/gmac/stmmac_platform.c:211-240 | switching on makes an enable for every usable clock of the mode, plus the 50 MHz rate on `clk_mac` in RMII, and no other call; `EnableOpsOnce` states that each is made exactly once |
| Gmac.DisableOpsExactly | drivers/net/ethernet/rockchip/gmac/stmmac_platform.c:242-268 | switching off makes a disable for every usable clock of the mode and no other call; `DisableOpsOnce` states that each is made exactly once |
| Gmac.EnableOpsOnce | drivers/net/ethernet/rockchip/gmac/stmmac_platform.c:211-240 | switching on makes exactly one enable per usable clock of the mode and, in RMII, exactly one 50 MHz rate on `clk_mac`; every other call occurs zero times |
| Gmac.DisableOpsOnce | drivers/net/ethernet/rockchip/gmac/stmmac_platform.c:242-268 | switching off makes exactly one disable per usable clock of the mode; every other call occurs zero times |
| Gmac.ClkOpsGuarded | drivers/net/ethernet/rockchip/gmac/stmmac_platform.c:213-265 | no clock call uses an error handle; `mac_clk_rx`, `clk_mac_ref` and `clk_mac_refout` are touched only in RMII; the only rate set is 50 MHz on `clk_mac`, in RMII |
| Gmac.ClkOpsBalanced | drivers/net/ethernet/rockchip/gmac/stmmac_platform.c:206-272 | switching off releases exactly the set of clocks that switching on took |
| Gmac.PowerEvents | drivers/net/ethernet/rockchip/gmac/stmmac_platform.c:337-363 | the GPIO and sleep calls of `power_on_by_gpio` in source order; the `PowerUp*`, `PowerDown*` and `PowerDrivesValid` lemmas state their effect |
| Gmac.LevelsOn | drivers/net/ethernet/rockchip/gmac/stmmac_platform.c:337-363 | the levels driven onto one GPIO by a sequence of calls, in order; `LevelsOnAppend`, `PowerUpOn` and `PowerDownOn` are stated with it |
| Gmac.LevelOf | drivers/net/ethernet/rockchip/gmac/stmmac_platform.c:342-359 | the level one `gpio_direction_output` call drives onto a given GPIO, if any |
| Gmac.LevelsOnSingle | drivers/net/ethernet/rockchip/gmac/stmmac_platform.c:342-359 | one call drives onto a GPIO exactly the level `LevelOf` gives |
| Gmac.LevelsOnPair | drivers/net/ethernet/rockchip/gmac/stmmac_platform.c:347-349 | two calls in a row drive onto a GPIO the level of the first, then that of the second |
| Gmac.LevelsOnAppend | drivers/net/ethernet/rockchip/gmac/stmmac_platform.c:337-363 | the levels driven onto a GPIO by two call sequences in a row are those of the first, then those of the second |
| Gmac.Not | drivers/net/ethernet/rockchip/gmac/stmmac_platform.c:349-359 | C's `!` on an `int` level: 1 for 0 and 0 for any other value; `PowerUpOn` and `PowerDownOn` state where it is driven |
| Gmac.ResetPulse | drivers/net/ethernet/rockchip/gmac/stmmac_platform.c:347-349 | the reset pulse: `reset_io_level`, a 10 ms sleep, then `!reset_io_level`; `ResetPulseLevels` states the levels it drives on each pin |
| Gmac.ResetPulseLevels | drivers/net/ethernet/rockchip/gmac/stmmac_platform.c:347-349 | the pulse drives the reset pin to `reset_io_level` and then to its negation, and drives no other pin |
| Gmac.PowerUpOn | drivers/net/ethernet/rockchip/gmac/stmmac_platform.c:339-351 | powering up drives `power_io_level` onto the power pin, then `reset_io_level` and its negation onto the reset pin, each only when that pin is valid |
| Gmac.PowerUpLevels | drivers/net/ethernet/rockchip/gmac/stmmac_platform.c:339-351 | with distinct pins, the power pin sees only its active level and the reset pin sees an active-then-released pulse |
| Gmac.PowerDownOn | drivers/net/ethernet/rockchip/gmac/stmmac_platform.c:352-359 | powering down drives `!power_io_level` onto the power pin, then `!reset_io_level` onto the reset pin, each only when that pin is valid; on a shared pin both levels, in that order |
| Gmac.PowerDownLevels | drivers/net/ethernet/rockchip/gmac/stmmac_platform.c:352-361 | for distinct power and reset pins, powering down drives the power pin to `!power_io_level` and the reset pin to `!reset_io_level`, each only when that pin is valid |
| Gmac.PowerDrivesValid | drivers/net/ethernet/rockchip/gmac/stmmac_platform.c:337-363 | only valid GPIOs are driven, and only the power and reset pins |
| Gmac.IoLevel | drivers/net/ethernet/rockchip/gmac/stmmac_platform.c:535-538 | an io level is 1 exactly when the GPIO flag is `GPIO_ACTIVE_HIGH`, and 0 otherwise |
| Gmac.BspPriv.constructor | drivers/net/ethernet/rockchip/gmac/stmmac_platform.c:145-151 | the zeroed global: no interface, clocks off, no PMU control, an empty regulator name, every GPIO number and level 0, and empty traces |
| Gmac.BspPriv.GrfWritel | drivers/net/ethernet/rockchip/gmac/stmmac_platform.c:39 | `grf_writel` appends one write to the GRF trace |
| Gmac.BspPriv.GpioDirectionOutput | drivers/net/ethernet/rockchip/gmac/stmmac_platform.c:342-359 | `gpio_direction_output(gpio, level)` appends one drive event to the GPIO trace, and nothing else changes |
| Gmac.BspPriv.Msleep | drivers/net/ethernet/rockchip/gmac/stmmac_platform.c:348-351 | `msleep(ms)` appends one sleep event to the GPIO trace, and nothing else changes |
| Gmac.BspPriv.ClkCall | drivers/net/ethernet/rockchip/gmac/stmmac_platform.c:214-264 | a clock call guarded by `!IS_ERR` is recorded only when its handle is not an error |
| Gmac.BspPriv.RmiiClocksOn | drivers/net/ethernet/rockchip/gmac/stmmac_platform.c:213-225 | the RMII block of the enable path: rate, then three enables, in source order |
| Gmac.BspPriv.CommonClocksOn | drivers/net/ethernet/rockchip/gmac/stmmac_platform.c:227-237 | the four common enables, in source order |
| Gmac.BspPriv.RmiiClocksOff | drivers/net/ethernet/rockchip/gmac/stmmac_platform.c:244-253 | the RMII block of the disable path, in source order |
| Gmac.BspPriv.CommonClocksOff | drivers/net/ethernet/rockchip/gmac/stmmac_platform.c:255-265 | the four common disables, in source order |
| Gmac.BspPriv.GmacClkEnable | drivers/net/ethernet/rockchip/gmac/stmmac_platform.c:206-272 | returns 0 and leaves `clk_enable == enable`; a request for the state already held makes no clock call; otherwise the calls are the full enable or disable sequence for the current interface |
| Gmac.BspPriv.PowerOnByGpio | drivers/net/ethernet/rockchip/gmac/stmmac_platform.c:337-364 | returns 0; the GPIO and sleep calls appended are exactly the power-up or power-down sequence for the current pins and levels, in source order |
| Gmac.BspPriv.PltfrInit | drivers/net/ethernet/rockchip/gmac/stmmac_platform.c:378-430 | returns 0; RGMII emits `SET_RGMII`, RMII emits `SET_RMII`, and any other interface emits no GRF write |
| Gmac.BspPriv.FixMacSpeed | drivers/net/ethernet/rockchip/gmac/stmmac_platform.c:432-481 | the GRF writes are exactly those of the (interface, speed) dispatch |
| Gmac.BspPriv.ProbeConfigDt | drivers/net/ethernet/rockchip/gmac/stmmac_platform.c:485-557 | with no node it returns -ENODEV and changes nothing. Otherwise it returns 0 and sets the build-time interface. `power_ctrl_by_pmu` ends up equal to whether `pmu_enable_level` was read, and a failed read leaves the regulator name and level as they were. Each io level is 1 for an active-high GPIO and 0 otherwise. `has_gmac` and `pmt` are set for "rockchip,gmac" |

## Left out

- Efuse.ReleasedIdle: read-idle says nothing about CSB by itself. CSB is clear in it only when CSB lies outside `LOAD | PGENB`, which `IdleSelected` and `StrobedSelected` require.
- Efuse.EfuseDevice.ReadRegs: the log keeps only the STROBE rising edges, because a rising edge is the only CTRL event on which the fuse array delivers a word, so it is all the bytes read depend on. The CTRL reads, the exact CTRL write sequence and the `udelay` calls are not recorded, and the delays are no-ops.
- Efuse.IdleSelected: also requires CSB to be disjoint from LOAD and PGENB. The `Layout` conditions do not include this, so the lemma states it as a requirement.
- `efuse.h` is not part of this model. Its constants are the `Layout` parameter, with the non-overlap conditions stated above.
- The spinlock around `efuse_readregs` is left out; the read is one atomic method.
- The `#ifndef efuse_readl` fallback and the commented-out `efuse_writeregs` are left out as dead code.
- `proc_create`, the `file_operations` registration and `core_initcall` are left out as kernel registration.
- Efuse.EfuseDevice.ProcIoctl: the user pointer `arg` is a separate array, assumed not to alias `efuse_buf`. Its length must cover the bytes the command writes; the C code checks neither.
- Lvds.MskRegByteMask: holds only for masks within the low byte. For wider masks `0xFF - msk` wraps around, and `Lvds.MskRegWideMask` exhibits the effect. The callers in `rk31xx_lvds.c` are not part of this model.
- The `rk_lvds_device` members `dev`, `pclk`, `pd` and `screen` are foreign types. Only `regbase`, as the register window, is modelled.
- Gmac: the RK3288 `#if 0` branch and the pinctrl `#if 0` block are left out as dead code.
- `gmac_clk_init` (`clk_get`, `clk_set_parent`) is left out. Its results are the `clkErrs` input, the set of handles that are errors.
- `power_on_by_pmu` and the `phy_power_on` dispatch to it are left out, because they go through the regulator framework.
- `gpio_request` in `stmmc_pltfr_init` and the `pr_*` logging are left out; they have no effect on the modelled state.
- `gpio_is_valid` is a given predicate, `gpioValid`. `msleep` is recorded as a `Sleep` marker, not as time.
- `of_*` parsing is left out. The node's properties are the `DtNode` input. `of_get_mac_address`, `of_get_phy_mode` (overwritten by the build-time choice), `mdio_bus_data`, the function-pointer fields and `plat->bsp_priv` are not modelled.
- The GRF register offsets `RK312X_GRF_MAC_CON0/1` come from `grf.h`, which is not part of this model, so they are the symbols `MacCon0` and `MacCon1`. The hardware effect of hiword-mask GRF writes is not simulated; the writes are a trace.
- Gmac.BspPriv.FixMacSpeed: is a method on `g_bsp_priv`, so the case of a NULL `priv` is not modelled. In C, `interface` is then read uninitialized.
- The platform-driver probe and remove functions, the sysfs class and the `MODULE_*` tables are left out as kernel plumbing.
