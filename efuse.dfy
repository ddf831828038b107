/**
 * The Rockchip e-fuse reader (arch/arm/mach-rockchip/efuse.c): the
 * bit-banged read protocol over the controller's CTRL and DOUT registers,
 * the 33-byte snapshot taken at boot, its two accessors and the proc ioctl
 * that copies parts of it out.
 */
module Efuse {

  import opened Words

  // ---------------------------------------------------------------------
  // The controller

  /**
   * The control-register layout of efuse.h, which is not part of this
   * model: the single-purpose bits CSB, LOAD, PGENB and STROBE, and the
   * address field `EFUSE_A_MASK << EFUSE_A_SHIFT`.
   */
  datatype CtrlLayout = CtrlLayout(csb: bv32, load: bv32, pgenb: bv32, strobe: bv32, aMask: bv32, aShift: bv5)

  /** The address field in place in the control word. */
  function AddrField(l: CtrlLayout): bv32
  {
    Bit(l.aMask, l.aShift)
  }

  /** `(addr & EFUSE_A_MASK) << EFUSE_A_SHIFT` */
  function AddrBits(l: CtrlLayout, addr: bv32): bv32
  {
    BitMask(addr, l.aMask, l.aShift)
  }

  /** `EFUSE_LOAD | EFUSE_PGENB`, the word the read mode starts from. */
  function ReadMode(l: CtrlLayout): bv32
  {
    SetBits(l.load, l.pgenb)
  }

  /**
   * What the read protocol relies on of efuse.h: STROBE is a real bit,
   * and the address field and STROBE overlap neither each other nor any
   * of CSB, LOAD and PGENB.
   */
  predicate WellFormed(l: CtrlLayout)
  {
    && l.strobe != 0
    && Disjoint(AddrField(l), l.strobe)
    && Disjoint(l.csb, AddrField(l)) && Disjoint(l.load, AddrField(l)) && Disjoint(l.pgenb, AddrField(l))
    && Disjoint(l.csb, l.strobe) && Disjoint(l.load, l.strobe) && Disjoint(l.pgenb, l.strobe)
  }

  /** A layout with the properties the read protocol relies on. */
  type Layout = l: CtrlLayout | WellFormed(l) witness CtrlLayout(1, 2, 4, 8, 0xFF, 16)

  /** STROBE is high in `w`. */
  predicate StrobeHigh(l: CtrlLayout, w: bv32)
  {
    !Disjoint(w, l.strobe)
  }

  /** The address field of `w`, in place. */
  function FieldOf(l: CtrlLayout, w: bv32): bv32
  {
    Bits(w, AddrField(l))
  }

  /** Outside the address field, `w` is the read mode LOAD|PGENB. */
  predicate ReadIdle(l: CtrlLayout, w: bv32)
  {
    ClearBits(w, AddrField(l)) == ReadMode(l)
  }

  /**
   * The fuse array as the controller presents it: while STROBE is high,
   * DOUT holds `word(a)`, where `a` is the address field as it stands in
   * CTRL; while STROBE is low, DOUT holds some fixed `idle` value.
   */
  datatype FuseArray = FuseArray(word: bv32 -> bv32, idle: bv32)

  /** The value a read of DOUT returns while CTRL holds `ctrl`. */
  function Dout(l: CtrlLayout, f: FuseArray, ctrl: bv32): bv32
  {
    if StrobeHigh(l, ctrl) then f.word(FieldOf(l, ctrl)) else f.idle
  }

  /** `u8` assignment from a `u32`: keep the low byte. */
  function Low8(w: bv32): (b: bv8)
    ensures b as bv32 == w & 0xFF
  {
    (w & 0xFF) as bv8
  }

  // ---------------------------------------------------------------------
  // The read protocol, as functions of the word `prev` that CTRL holds at
  // the top of an iteration and the address `addr` being read.

  /** CTRL after clearing the address field. */
  function Cleared(l: CtrlLayout, prev: bv32): bv32
  {
    ClearBits(prev, AddrField(l))
  }

  /** CTRL after setting the masked address into the field. */
  function Addressed(l: CtrlLayout, prev: bv32, addr: bv32): bv32
  {
    SetBits(Cleared(l, prev), AddrBits(l, addr))
  }

  /** CTRL after raising STROBE. */
  function Strobed(l: CtrlLayout, prev: bv32, addr: bv32): bv32
  {
    SetBits(Addressed(l, prev, addr), l.strobe)
  }

  /** CTRL after dropping STROBE: the word the next iteration starts from. */
  function Released(l: CtrlLayout, prev: bv32, addr: bv32): bv32
  {
    ClearBits(Strobed(l, prev, addr), l.strobe)
  }

  /** `addr` after `i` increments in u32 arithmetic (`addr++`, wrapping). */
  function Advance(addr: bv32, i: nat): bv32
    decreases i
  {
    if i == 0 then addr else Advance(addr, i - 1) + 1
  }

  /**
   * The address fields presented for `n` bytes from `addr`: those of
   * `addr`, `addr + 1`, ..., each masked and shifted into place.
   */
  function FuseAddrs(l: CtrlLayout, addr: bv32, n: nat): seq<bv32>
    decreases n
  {
    if n == 0 then [] else FuseAddrs(l, addr, n - 1) + [AddrBits(l, Advance(addr, n - 1))]
  }

  /** The byte a read of address `addr` delivers. */
  function FuseByte(l: CtrlLayout, f: FuseArray, addr: bv32): bv8
  {
    Low8(f.word(AddrBits(l, addr)))
  }

  /** The bytes a read of `n` bytes from `addr` delivers. */
  function FuseBytes(l: CtrlLayout, f: FuseArray, addr: bv32, n: nat): seq<bv8>
    decreases n
  {
    if n == 0 then [] else FuseBytes(l, f, addr, n - 1) + [FuseByte(l, f, Advance(addr, n - 1))]
  }

  /** The strobe pulse a write of `after` over `before` makes: STROBE rising. */
  function Rise(l: CtrlLayout, before: bv32, after: bv32): seq<bv32>
  {
    if !StrobeHigh(l, before) && StrobeHigh(l, after) then [FieldOf(l, after)] else []
  }

  /** The C conversion `int ret = length` of a `u32` (two's complement). */
  function ToCInt(u: U32): (r: int)
    ensures -0x8000_0000 <= r < 0x8000_0000
    ensures (u - r) % 0x1_0000_0000 == 0
    ensures u < 0x8000_0000 ==> r == u
  {
    if u < 0x8000_0000 then u else u - 0x1_0000_0000
  }

  // ---------------------------------------------------------------------
  // Bit facts on plain words: `f` is the address field, `a` address bits,
  // `s` STROBE.

  lemma RaisesWord(x: bv32, s: bv32)
    ensures s != 0 ==> !Disjoint(SetBits(x, s), s)
  {
  }

  lemma PresentsWord(p: bv32, a: bv32, f: bv32, s: bv32)
    ensures Within(a, f) && Disjoint(f, s) ==> Bits(SetBits(SetBits(ClearBits(p, f), a), s), f) == a
  {
  }

  lemma ReleasedKeepsWord(p: bv32, a: bv32, f: bv32, s: bv32)
    ensures Within(a, f) ==>
      ClearBits(ClearBits(SetBits(SetBits(ClearBits(p, f), a), s), s), f) == ClearBits(ClearBits(p, f), s)
  {
  }

  lemma ReleasedLowWord(x: bv32, s: bv32)
    ensures Disjoint(ClearBits(x, s), s)
  {
  }

  lemma ClearedLowWord(p: bv32, f: bv32, s: bv32)
    ensures Disjoint(p, s) ==> Disjoint(ClearBits(p, f), s)
  {
  }

  lemma SetLowWord(w: bv32, c: bv32, s: bv32)
    ensures Disjoint(w, s) && Disjoint(c, s) ==> Disjoint(SetBits(w, c), s)
  {
  }

  lemma WithinLowWord(a: bv32, f: bv32, s: bv32)
    ensures Within(a, f) && Disjoint(f, s) ==> Disjoint(a, s)
  {
  }

  lemma DisjointClearWord(x: bv32, s: bv32)
    ensures Disjoint(x, s) ==> ClearBits(x, s) == x
  {
  }

  lemma IdleLowWord(w: bv32, f: bv32, rm: bv32, s: bv32)
    ensures ClearBits(w, f) == rm && Disjoint(rm, s) && Disjoint(f, s) ==> Disjoint(w, s)
  {
  }

  lemma IdleOutsideWord(w: bv32, f: bv32, rm: bv32, c: bv32)
    ensures ClearBits(w, f) == rm && Disjoint(c, rm) && Disjoint(c, f) ==> Disjoint(w, c)
  {
  }

  lemma StrobedOutsideWord(p: bv32, f: bv32, a: bv32, s: bv32, c: bv32)
    ensures Disjoint(c, ClearBits(p, f)) && Disjoint(c, f) && Within(a, f) && Disjoint(c, s) ==>
      Disjoint(SetBits(SetBits(ClearBits(p, f), a), s), c)
  {
  }

  lemma SetHasWord(w: bv32, c: bv32)
    ensures Bits(SetBits(w, c), c) == c
  {
  }

  // ---------------------------------------------------------------------
  // One iteration

  /** The masked, shifted address lies inside the address field. */
  lemma AddrBitsInField(l: CtrlLayout, addr: bv32)
    ensures Within(AddrBits(l, addr), AddrField(l))
  {
    BitMaskWithin(addr, l.aMask, l.aShift);
  }

  /** The strobed word has STROBE high and presents exactly the masked address. */
  lemma StrobedWord(l: Layout, prev: bv32, addr: bv32)
    ensures StrobeHigh(l, Strobed(l, prev, addr))
    ensures FieldOf(l, Strobed(l, prev, addr)) == AddrBits(l, addr)
  {
    AddrBitsInField(l, addr);
    RaisesWord(Addressed(l, prev, addr), l.strobe);
    PresentsWord(prev, AddrBits(l, addr), AddrField(l), l.strobe);
  }

  /** Every iteration ends with STROBE low. */
  lemma ReleasedLow(l: CtrlLayout, prev: bv32, addr: bv32)
    ensures !StrobeHigh(l, Released(l, prev, addr))
  {
    ReleasedLowWord(Strobed(l, prev, addr), l.strobe);
  }

  /** Clearing and setting the address field leave a low STROBE low. */
  lemma AddressingLow(l: Layout, prev: bv32, addr: bv32)
    requires !StrobeHigh(l, prev)
    ensures !StrobeHigh(l, Cleared(l, prev))
    ensures !StrobeHigh(l, Addressed(l, prev, addr))
  {
    AddrBitsInField(l, addr);
    ClearedLowWord(prev, AddrField(l), l.strobe);
    WithinLowWord(AddrBits(l, addr), AddrField(l), l.strobe);
    SetLowWord(Cleared(l, prev), AddrBits(l, addr), l.strobe);
  }

  /** An iteration started in read mode ends in read mode. */
  lemma ReleasedIdle(l: Layout, prev: bv32, addr: bv32)
    requires ReadIdle(l, prev)
    ensures ReadIdle(l, Released(l, prev, addr))
  {
    AddrBitsInField(l, addr);
    ReleasedKeepsWord(prev, AddrBits(l, addr), AddrField(l), l.strobe);
    ReadModeIdle(l);
    DisjointClearWord(ReadMode(l), l.strobe);
  }

  /**
   * The opening write of LOAD|PGENB puts CTRL in read mode, with STROBE
   * low and an empty address field.
   */
  lemma ReadModeIdle(l: Layout)
    ensures ReadIdle(l, ReadMode(l))
    ensures !StrobeHigh(l, ReadMode(l))
  {
    SetLowWord(l.load, l.pgenb, AddrField(l));
    DisjointClearWord(ReadMode(l), AddrField(l));
    SetLowWord(l.load, l.pgenb, l.strobe);
  }

  /** A word in read mode has STROBE low. */
  lemma IdleLow(l: Layout, w: bv32)
    requires ReadIdle(l, w)
    ensures !StrobeHigh(l, w)
  {
    ReadModeIdle(l);
    IdleLowWord(w, AddrField(l), ReadMode(l), l.strobe);
  }

  /**
   * When CSB is a bit of its own (outside LOAD|PGENB), a word in read mode
   * has CSB low: the chip stays selected throughout the loop.
   */
  lemma IdleSelected(l: Layout, w: bv32)
    requires Disjoint(l.csb, ReadMode(l)) && ReadIdle(l, w)
    ensures Disjoint(w, l.csb)
  {
    IdleOutsideWord(w, AddrField(l), ReadMode(l), l.csb);
  }

  /**
   * When CSB is a bit of its own, CSB is also low in the strobed word of
   * an iteration, the word under which DOUT is sampled.
   */
  lemma StrobedSelected(l: Layout, prev: bv32, addr: bv32)
    requires Disjoint(l.csb, ReadMode(l)) && ReadIdle(l, prev)
    ensures Disjoint(Strobed(l, prev, addr), l.csb)
  {
    AddrBitsInField(l, addr);
    StrobedOutsideWord(prev, AddrField(l), AddrBits(l, addr), l.strobe, l.csb);
  }


  /**
   * After the closing write of CSB over a word in read mode, CSB is set
   * and STROBE is low: the chip is deselected with no pulse pending.
   */
  lemma ClosedDeselected(l: Layout, w: bv32)
    requires ReadIdle(l, w)
    ensures ReadClosed(l, SetBits(w, l.csb))
  {
    SetHasWord(w, l.csb);
    IdleLow(l, w);
    SetLowWord(w, l.csb, l.strobe);
  }

  /** CSB set and STROBE low. */
  predicate ReadClosed(l: CtrlLayout, w: bv32)
  {
    Bits(w, l.csb) == l.csb && !StrobeHigh(l, w)
  }

  /** A write that leaves STROBE low makes no pulse, whatever CTRL held. */
  lemma LowWriteNoPulse(l: CtrlLayout, before: bv32, after: bv32)
    requires !StrobeHigh(l, after)
    ensures Rise(l, before, after) == []
  {
  }

  /**
   * Sampling DOUT while the strobed word for `addr` stands in CTRL
   * delivers the fuse byte of `addr`: STROBE is high and the address
   * field is `(addr & EFUSE_A_MASK) << EFUSE_A_SHIFT`.
   */
  lemma SampleDeliversFuseByte(l: Layout, f: FuseArray, prev: bv32, addr: bv32)
    ensures StrobeHigh(l, Strobed(l, prev, addr))
    ensures FieldOf(l, Strobed(l, prev, addr)) == AddrBits(l, addr)
    ensures Low8(Dout(l, f, Strobed(l, prev, addr))) == FuseByte(l, f, addr)
  {
    StrobedWord(l, prev, addr);
  }

  // ---------------------------------------------------------------------
  // The whole read, as sequences

  lemma {:induction false} FuseAddrsAt(l: CtrlLayout, addr: bv32, n: nat)
    ensures |FuseAddrs(l, addr, n)| == n
    ensures forall i :: 0 <= i < n ==> FuseAddrs(l, addr, n)[i] == AddrBits(l, Advance(addr, i))
    decreases n
  {
    if n > 0 {
      FuseAddrsAt(l, addr, n - 1);
    }
  }

  lemma {:induction false} FuseBytesAt(l: CtrlLayout, f: FuseArray, addr: bv32, n: nat)
    ensures |FuseBytes(l, f, addr, n)| == n
    ensures forall i :: 0 <= i < n ==> FuseBytes(l, f, addr, n)[i] == FuseByte(l, f, Advance(addr, i))
    decreases n
  {
    if n > 0 {
      FuseBytesAt(l, f, addr, n - 1);
    }
  }

  /** Counting up from address 0 stays below the u32 wrap for the 32 snapshot bytes. */
  lemma {:induction false} AdvanceFromZero(i: nat)
    requires i < 32
    ensures Advance(0, i) as int == i
  {
    if i > 0 {
      AdvanceFromZero(i - 1);
    }
  }

  // ---------------------------------------------------------------------
  // The ioctl command numbers: _IOW('M', nr, int) in the generic Linux
  // encoding (direction 1 in bits 30-31, size 4 in bits 16-29, type in
  // bits 8-15, number in bits 0-7).

  function IoW(kind: bv32, nr: bv32): bv32
  {
    (1 << 30) | (4 << 16) | (kind << 8) | nr
  }

  const EfuseIoctlMagic: bv32 := 0x4D  // 'M'
  const EfuseDecrypt: bv32 := IoW(EfuseIoctlMagic, 0x00)
  const EfuseEcrypt: bv32 := IoW(EfuseIoctlMagic, 0x01)
  const EfuseFullInfo: bv32 := IoW(EfuseIoctlMagic, 0x02)

  /** The three command numbers are distinct, so the switch has three live cases. */
  lemma IoctlNumbers()
    ensures EfuseDecrypt == 0x4004_4D00 && EfuseEcrypt == 0x4004_4D01 && EfuseFullInfo == 0x4004_4D02
    ensures EfuseDecrypt != EfuseEcrypt && EfuseDecrypt != EfuseFullInfo && EfuseEcrypt != EfuseFullInfo
  {
  }

  /** Size of `efuse_buf` (`32 + 1`). */
  const SnapshotSize: nat := 33

  /**
   * The e-fuse controller's register pair together with the driver's
   * static state. CTRL is a field; DOUT is derived from CTRL and the fuse
   * array; `pulses` logs, for every rising edge of STROBE, the address
   * field CTRL presented at that moment; `efuseBuf` is `efuse_buf`.
   */
  class EfuseDevice {
    const layout: Layout
    const fuse: FuseArray
    var ctrl: bv32
    ghost var pulses: seq<bv32>
    const efuseBuf: array<bv8>

    ghost predicate Valid()
    {
      efuseBuf.Length == SnapshotSize
    }

    /** The static buffer starts zeroed (`= {0, 0}`). */
    constructor (l: Layout, f: FuseArray, ctrl0: bv32)
      ensures Valid() && layout == l && fuse == f && ctrl == ctrl0 && pulses == []
      ensures fresh(efuseBuf) && forall i :: 0 <= i < SnapshotSize ==> efuseBuf[i] == 0
    {
      layout := l;
      fuse := f;
      ctrl := ctrl0;
      pulses := [];
      efuseBuf := new bv8[SnapshotSize](_ => 0);
    }

    // Register access: `efuse_readl` / `efuse_writel` on CTRL and DOUT.

    method ReadCtrl() returns (v: bv32)
      ensures v == ctrl
    {
      v := ctrl;
    }

    method WriteCtrl(v: bv32)
      modifies this`ctrl, this`pulses
      ensures ctrl == v && pulses == old(pulses) + Rise(layout, old(ctrl), v)
    {
      pulses := pulses + Rise(layout, ctrl, v);
      ctrl := v;
    }

    method ReadDout() returns (v: bv32)
      ensures v == Dout(layout, fuse, ctrl)
    {
      v := Dout(layout, fuse, ctrl);
    }

    /** `udelay`: timing is not modelled. */
    method Udelay(us: nat)
    {
    }

    /** `writel(readl(CTRL) & ~m, CTRL)` */
    method ClearCtrl(m: bv32)
      modifies this`ctrl, this`pulses
      ensures ctrl == ClearBits(old(ctrl), m)
      ensures pulses == old(pulses) + Rise(layout, old(ctrl), ctrl)
    {
      var c := ReadCtrl();
      WriteCtrl(ClearBits(c, m));
    }

    /** `writel(readl(CTRL) | m, CTRL)` */
    method SetCtrl(m: bv32)
      modifies this`ctrl, this`pulses
      ensures ctrl == SetBits(old(ctrl), m)
      ensures pulses == old(pulses) + Rise(layout, old(ctrl), ctrl)
    {
      var c := ReadCtrl();
      WriteCtrl(SetBits(c, m));
    }

    // The read protocol of `efuse_readregs`.

    /**
     * The opening writes: CSB alone, then LOAD|PGENB. CTRL ends in read
     * mode, whatever it held before, and neither write raises STROBE.
     */
    method Open()
      modifies this`ctrl, this`pulses
      ensures ctrl == ReadMode(layout) && ReadIdle(layout, ctrl)
      ensures pulses == old(pulses)
    {
      ReadModeIdle(layout);
      LowWriteNoPulse(layout, ctrl, layout.csb);
      WriteCtrl(layout.csb);
      LowWriteNoPulse(layout, layout.csb, ReadMode(layout));
      WriteCtrl(ReadMode(layout));
      Udelay(2);
    }

    /**
     * Present address `a`: clear the address field, set the masked
     * address, raise STROBE. Exactly one pulse, for that address.
     */
    method Present(a: bv32)
      requires ReadIdle(layout, ctrl)
      modifies this`ctrl, this`pulses
      ensures ctrl == Strobed(layout, old(ctrl), a)
      ensures pulses == old(pulses) + [AddrBits(layout, a)]
    {
      ghost var p := ctrl;
      IdleLow(layout, p);
      AddressingLow(layout, p, a);
      StrobedWord(layout, p, a);
      ClearCtrl(AddrField(layout));
      SetCtrl(AddrBits(layout, a));
      Udelay(2);
      SetCtrl(layout.strobe);
      Udelay(2);
    }

    /** Sample DOUT into a byte, then drop STROBE. */
    method Sample() returns (b: bv8)
      modifies this`ctrl, this`pulses
      ensures ctrl == ClearBits(old(ctrl), layout.strobe)
      ensures pulses == old(pulses)
      ensures b == Low8(Dout(layout, fuse, old(ctrl)))
    {
      var d := ReadDout();
      b := Low8(d);
      ReleasedLowWord(ctrl, layout.strobe);
      ClearCtrl(layout.strobe);
      Udelay(2);
    }

    /**
     * One address: one pulse for it, the fuse byte of it delivered, and
     * CTRL back in read mode with STROBE low.
     */
    method Step(a: bv32) returns (b: bv8)
      requires ReadIdle(layout, ctrl)
      modifies this`ctrl, this`pulses
      ensures ReadIdle(layout, ctrl) && !StrobeHigh(layout, ctrl)
      ensures pulses == old(pulses) + [AddrBits(layout, a)]
      ensures b == FuseByte(layout, fuse, a)
    {
      ghost var p := ctrl;
      SampleDeliversFuseByte(layout, fuse, p, a);
      ReleasedIdle(layout, p, a);
      ReleasedLow(layout, p, a);
      Present(a);
      b := Sample();
    }

    /** The first `p` bytes of `buf` hold the fuse bytes from `addr` on. */
    ghost predicate Loaded(buf: array<bv8>, addr: bv32, p: nat)
      reads buf
    {
      p <= buf.Length && buf[..p] == FuseBytes(layout, fuse, addr, p)
    }

    /** One pass of the do-while body: `*buf = ...; buf++; addr++`. */
    method ReadByte(addr: bv32, a: bv32, p: nat, buf: array<bv8>)
      requires ReadIdle(layout, ctrl) && p < buf.Length && a == Advance(addr, p) && Loaded(buf, addr, p)
      modifies this`ctrl, this`pulses, buf
      ensures ReadIdle(layout, ctrl) && Loaded(buf, addr, p + 1)
      ensures pulses == old(pulses) + [AddrBits(layout, a)]
      ensures forall i :: p < i < buf.Length ==> buf[i] == old(buf[i])
    {
      var b := Step(a);
      buf[p] := b;
      assert buf[..p + 1] == buf[..p] + [b];
    }

    /** The do-while loop, `n` passes from `addr` into `buf[0..n)`. */
    method ReadLoop(addr: bv32, n: nat, buf: array<bv8>)
      requires ReadIdle(layout, ctrl) && n <= buf.Length
      modifies this`ctrl, this`pulses, buf
      ensures ReadIdle(layout, ctrl)
      ensures pulses == old(pulses) + FuseAddrs(layout, addr, n)
      ensures Loaded(buf, addr, n)
      ensures forall i :: n <= i < buf.Length ==> buf[i] == old(buf[i])
    {
      ghost var start := pulses;
      var a := addr;
      for p := 0 to n
        invariant a == Advance(addr, p)
        invariant ReadIdle(layout, ctrl)
        invariant pulses == start + FuseAddrs(layout, addr, p)
        invariant Loaded(buf, addr, p)
        invariant forall i :: n <= i < buf.Length ==> buf[i] == old(buf[i])
      {
        ReadByte(addr, a, p, buf);
        AppendAssoc(start, FuseAddrs(layout, addr, p), [AddrBits(layout, a)]);
        a := a + 1;
      }
    }

    /** The closing write: set CSB again. No pulse. */
    method Close()
      requires ReadIdle(layout, ctrl)
      modifies this`ctrl, this`pulses
      ensures ctrl == SetBits(old(ctrl), layout.csb) && ReadClosed(layout, ctrl)
      ensures pulses == old(pulses)
    {
      ClosedDeselected(layout, ctrl);
      Udelay(2);
      SetCtrl(layout.csb);
      Udelay(1);
    }

    /**
     * `efuse_readregs(addr, length, buf)`. A zero length touches nothing
     * and returns 0. Otherwise `buf[0..length)` receives the fuse bytes
     * of `addr`, `addr + 1`, ... (u32 wrap-around), one STROBE pulse is
     * made per byte, at that byte's address, CTRL is left with CSB set
     * and STROBE low, and the result is `length` converted to `int`.
     * Bytes from `length` on are untouched.
     */
    method ReadRegs(addr: bv32, length: U32, buf: array<bv8>) returns (ret: int)
      requires length <= buf.Length
      modifies this`ctrl, this`pulses, buf
      ensures ret == ToCInt(length)
      ensures length == 0 ==> ret == 0 && ctrl == old(ctrl) && pulses == old(pulses)
      ensures length > 0 ==> ReadClosed(layout, ctrl) && Loaded(buf, addr, length)
      ensures pulses == old(pulses) + FuseAddrs(layout, addr, length)
      ensures buf[length..] == old(buf[length..])
    {
      ret := ToCInt(length);
      if length == 0 {
        return 0;
      }
      Open();
      ReadLoop(addr, length, buf);
      Close();
    }

    // The snapshot and its readers.

    /** `efuse_buf[0..32)` holds the fuse bytes of addresses 0..31. */
    ghost predicate Booted()
      reads efuseBuf
    {
      Loaded(efuseBuf, 0, 32)
    }

    /**
     * `efuse_init`: read fuse addresses 0..31 into `efuse_buf[0..32)` and
     * return 0; the 33rd byte keeps its value.
     */
    method Init() returns (r: int)
      requires Valid()
      modifies this`ctrl, this`pulses, efuseBuf
      ensures r == 0 && Booted() && ReadClosed(layout, ctrl)
      ensures pulses == old(pulses) + FuseAddrs(layout, 0, 32)
      ensures efuseBuf[32] == old(efuseBuf[32])
    {
      var _ := ReadRegs(0, 32, efuseBuf);
      r := 0;
    }

    /**
     * After boot, byte `i < 32` of the snapshot is the fuse byte of
     * address `i`.
     */
    lemma SnapshotIsFuse(i: nat)
      requires Valid() && Booted() && i < 32
      ensures Advance(0, i) as int == i && efuseBuf[i] == FuseByte(layout, fuse, Advance(0, i))
    {
      AdvanceFromZero(i);
      FuseBytesAt(layout, fuse, 0, 32);
      assert efuseBuf[..32][i] == efuseBuf[i];
    }

    /**
     * `rockchip_efuse_version`: `efuse_buf[4]` with bit 3 cleared, every
     * other bit kept.
     */
    function Version(): (v: int)
      reads efuseBuf
      requires Valid()
      ensures 0 <= v < 256
      ensures (v as bv8) & 8 == 0
      ensures (v as bv8) | (efuseBuf[4] & 8) == efuseBuf[4]
    {
      ((efuseBuf[4] as bv32) & !(1 << 3)) as int
    }

    /** After boot, the version is the fuse byte of address 4, bit 3 cleared. */
    lemma VersionIsFuse()
      requires Valid() && Booted()
      ensures Version() == (FuseByte(layout, fuse, 4) & 0xF7) as int
    {
      SnapshotIsFuse(4);
    }

    /**
     * `rockchip_get_leakage(ch)`: byte 23 + ch of the snapshot for the
     * channels 0, 1 and 2 (so index 23..25, inside the 33 bytes), and 0
     * for every other channel.
     */
    function GetLeakage(ch: int): (r: int)
      reads efuseBuf
      requires Valid()
      ensures 0 <= r < 256
      ensures (ch < 0 || ch > 2) ==> r == 0
      ensures 0 <= ch <= 2 ==> 23 + ch < SnapshotSize && r == efuseBuf[23 + ch] as int
    {
      if ch < 0 || ch > 2 then 0 else efuseBuf[23 + ch] as int
    }

    /** After boot, the leakage of channels 0, 1, 2 is the fuse byte of address 23, 24, 25. */
    lemma LeakageIsFuse()
      requires Valid() && Booted()
      ensures GetLeakage(0) == FuseByte(layout, fuse, 23) as int
      ensures GetLeakage(1) == FuseByte(layout, fuse, 24) as int
      ensures GetLeakage(2) == FuseByte(layout, fuse, 25) as int
    {
      SnapshotIsFuse(23);
      SnapshotIsFuse(24);
      SnapshotIsFuse(25);
    }

    /**
     * `proc_efuse_ioctl(file, cmd, num)`: always returns 0.
     * EFUSE_DECRYPT copies `efuse_buf[6..22)` to `num[0..16)`,
     * EFUSE_FULLINFO copies `efuse_buf[0..32)` to `num[0..32)`, and
     * EFUSE_ECRYPT or any other command leaves `num` alone.
     */
    method ProcIoctl(cmd: bv32, num: array<bv8>) returns (ret: int)
      requires Valid() && num != efuseBuf
      requires cmd == EfuseDecrypt ==> 16 <= num.Length
      requires cmd == EfuseFullInfo ==> 32 <= num.Length
      modifies num
      ensures ret == 0
      ensures cmd == EfuseDecrypt ==> num[..16] == efuseBuf[6..22] && num[16..] == old(num[16..])
      ensures cmd == EfuseFullInfo ==> num[..32] == efuseBuf[..32] && num[32..] == old(num[32..])
      ensures cmd != EfuseDecrypt && cmd != EfuseFullInfo ==> num[..] == old(num[..])
    {
      IoctlNumbers();
      ret := 0;
      if cmd == EfuseDecrypt {
        for i := 0 to 16
          invariant num[..i] == efuseBuf[6..6 + i]
          invariant num[16..] == old(num[16..])
        {
          num[i] := efuseBuf[i + 6];
          assert num[..i + 1] == num[..i] + [num[i]];
        }
      } else if cmd == EfuseEcrypt {
      } else if cmd == EfuseFullInfo {
        for i := 0 to 32
          invariant num[..i] == efuseBuf[..i]
          invariant num[32..] == old(num[32..])
        {
          num[i] := efuseBuf[i];
          assert num[..i + 1] == num[..i] + [num[i]];
        }
      }
    }
  }
}
