/**
 * The register space synchronizer: fx_readRegisterSpace decodes the packed
 * 0x300-byte window into the working state, fx_writeRegisterSpace packs the
 * working state back.
 *
 * The status flags Z, S, OV and CY live in the working state in "lazy" form
 * (the last result the flag was computed from); the four predicates below
 * say when each lazy value means "flag set", exactly as the encoder tests it.
 */
module RegisterSpace {
  import opened FxHeader
  import opened BankMapper
  import opened GsuState
  import opened ScreenPointers

  /** avHeight: screen height selected by the height index. */
  const Heights: seq<nat> := [128, 160, 192, 256]
  /** avMult: bytes per tile used for the screen size, per mode. */
  const SizeMult: seq<nat> := [16, 32, 32, 64]
  /** Bits per pixel those multipliers stand for. */
  const SizeBitsPerPixel: seq<nat> := [2, 4, 4, 8]

  predicate ZeroFlag(f: LazyFlags) { f.vZero & 0xffff == 0 }
  predicate SignFlag(f: LazyFlags) { f.vSign & 0x8000 != 0 }
  predicate OverflowFlag(f: LazyFlags) { f.vOverflow >= 0x8000 || f.vOverflow < -0x8000 }
  predicate CarryFlag(f: LazyFlags) { f.vCarry != 0 }

  /** Height index: SCMR bit 2 is its low bit, SCMR bit 5 its high bit. */
  function HeightIndex(scmr: bv8): (n: nat)
    ensures n < 4
    ensures (n % 2 == 1) <==> scmr & 0x04 != 0
    ensures (n >= 2) <==> scmr & 0x20 != 0
  {
    (if scmr & 0x04 != 0 then 1 else 0) + (if scmr & 0x20 != 0 then 2 else 0)
  }

  /** Draw mode: SCMR bit 0 is its low bit, SCMR bit 1 its high bit. */
  function ScreenMode(scmr: bv8): (m: nat)
    ensures m < 4
    ensures (m % 2 == 1) <==> scmr & 0x01 != 0
    ensures (m >= 2) <==> scmr & 0x02 != 0
  {
    (scmr & 0x03) as nat
  }

  /**
   * Screen size in bytes: 32 KB for height index 3, otherwise the bytes of a
   * 256-pixel-wide screen of that height at the mode's pixel depth.
   */
  function ScreenSize(n: nat, m: nat): (s: nat)
    requires n < 4 && m < 4
    ensures n == 3 ==> s == 0x8000
    ensures n < 3 ==> s * 8 == Heights[n] * 256 * SizeBitsPerPixel[m]
    ensures 0 < s <= 0xc000
  {
    if n == 3 then (256 / 8) * (256 / 8) * 32
    else (Heights[n] / 8) * (256 / 8) * SizeMult[m]
  }

  /** Lowers the screen base so that the whole screen lies inside the RAM banks. */
  function ClampScreenBase(base: int, size: nat, nRam: nat): (b: int)
    ensures b + size <= nRam * BankSize
    ensures b <= base
    ensures base + size <= nRam * BankSize ==> b == base
    ensures base + size > nRam * BankSize ==> b + size == nRam * BankSize
    ensures 1 <= nRam && size <= BankSize && 0 <= base ==> 0 <= b
  {
    if base + size > nRam * BankSize then nRam * BankSize - size else base
  }

  // The lazy flag values decode stores for a status word; each one means
  // "set" (in the sense of the encoder's test) exactly when its SFR bit is set.

  function LazyZero(status: bv32): (z: bv32)
    ensures (z & 0xffff == 0) <==> status & FlagZ != 0
  {
    if status & FlagZ == 0 then 1 else 0
  }

  function LazySign(status: bv32): (v: bv32)
    ensures (v & 0x8000 != 0) <==> status & FlagS != 0
  {
    (status & FlagS) << 12
  }

  function LazyOverflow(status: bv32): (v: int)
    ensures (v >= 0x8000 || v < -0x8000) <==> status & FlagOV != 0
  {
    ((status & FlagOV) << 16) as int
  }

  function LazyCarry(status: bv32): (c: bv32)
    ensures c != 0 <==> status & FlagCY != 0
  {
    (status & FlagCY) >> 2
  }

  /** The lazy flags decode derives from a status word. */
  function DecodeFlags(status: bv32): (f: LazyFlags)
    ensures ZeroFlag(f) <==> status & FlagZ != 0
    ensures SignFlag(f) <==> status & FlagS != 0
    ensures OverflowFlag(f) <==> status & FlagOV != 0
    ensures CarryFlag(f) <==> status & FlagCY != 0
  {
    LazyFlags(LazyZero(status), LazySign(status), LazyOverflow(status), LazyCarry(status))
  }

  /**
   * R0-R15, SFR and the bank registers as decode loads them: little-endian
   * words and single bytes, RAMBR masked to the RAM bank range. The source
   * and destination register selections and POR are not part of the window.
   */
  function DecodeRegisters(w: Window, regs: Registers): (r: Registers)
    ensures forall i :: 0 <= i < 16 ==> Lo(r.avReg[i]) == w[2 * i] && Hi(r.avReg[i]) == w[2 * i + 1]
    ensures forall i :: 0 <= i < 16 ==> r.avReg[i] < 0x1_0000
    ensures Lo(r.vStatusReg) == w[SFR] && Hi(r.vStatusReg) == w[SFR + 1] && r.vStatusReg < 0x1_0000
    ensures Lo(r.vPrgBankReg) == w[PBR] && r.vPrgBankReg < 0x100
    ensures Lo(r.vRomBankReg) == w[ROMBR] && r.vRomBankReg < 0x100
    ensures Lo(r.vRamBankReg) == w[RAMBR] & 0x3 && r.vRamBankReg < RamBanks
    ensures r.sreg == regs.sreg && r.dreg == regs.dreg && r.vPlotOptionReg == regs.vPlotOptionReg
  {
    Registers(seq(16, i requires 0 <= i < 16 => WordAt(w, 2 * i)), regs.sreg, regs.dreg,
              WordAt(w, SFR), w[PBR] as bv32, w[ROMBR] as bv32,
              (w[RAMBR] as bv32) & (RamBanks - 1), regs.vPlotOptionReg)
  }

  /** The bank pointers selected by the decoded bank registers; the tables stay as built. */
  function SelectBanks(b: Banks, regs: Registers): (r: Banks)
    requires regs.vPrgBankReg < 0x100 && regs.vRomBankReg < 0x100
    ensures r.ramBankPtr == b.ramBanks[(regs.vRamBankReg & 0x3) as int]
    ensures r.romBankPtr == b.romBanks[regs.vRomBankReg as int]
    ensures r.prgBankPtr == b.romBanks[regs.vPrgBankReg as int]
    ensures r == b.(ramBankPtr := r.ramBankPtr, romBankPtr := r.romBankPtr, prgBankPtr := r.prgBankPtr)
  {
    b.(ramBankPtr := b.ramBanks[(regs.vRamBankReg & 0x3) as int],
       romBankPtr := b.romBanks[regs.vRomBankReg as int],
       prgBankPtr := b.romBanks[regs.vPrgBankReg as int])
  }

  /**
   * The screen geometry decode derives from SCMR, SCBR and POR, before the
   * pointer refresh: OBJ mode (POR bit 4) forces a 256-line drawing height
   * while the size keeps the real height, and a screen that would run past
   * the end of RAM is moved down to end exactly there.
   */
  function DecodeScreen(w: Window, s: Screen, por: bv32, nRam: nat): (r: Screen)
    ensures r.vMode == ScreenMode(w[SCMR]) && r.vScreenRealHeight == Heights[HeightIndex(w[SCMR])]
    ensures r.vScreenHeight == if por & 0x10 != 0 then 256 else r.vScreenRealHeight
    ensures r.vScreenSize == ScreenSize(HeightIndex(w[SCMR]), r.vMode)
    ensures r.screenBase + r.vScreenSize <= nRam * BankSize
    ensures (w[SCBR] as int) * 1024 + r.vScreenSize <= nRam * BankSize ==> r.screenBase == (w[SCBR] as int) * 1024
    ensures (w[SCBR] as int) * 1024 + r.vScreenSize > nRam * BankSize ==> r.screenBase == nRam * BankSize - r.vScreenSize
    ensures 1 <= nRam ==> 0 <= r.screenBase
    ensures r.plotSlot == r.vMode && r.rpixSlot == r.vMode + 5
    ensures HasLayout(r.vScreenHeight, r.vMode)
    ensures r == s.(vMode := r.vMode, vScreenHeight := r.vScreenHeight, vScreenRealHeight := r.vScreenRealHeight,
                    vScreenSize := r.vScreenSize, screenBase := r.screenBase, plotSlot := r.plotSlot, rpixSlot := r.rpixSlot)
  {
    var n := HeightIndex(w[SCMR]);
    var m := ScreenMode(w[SCMR]);
    var size := ScreenSize(n, m);
    s.(screenBase := ClampScreenBase((w[SCBR] as int) * 1024, size, nRam),
       vScreenHeight := if por & 0x10 != 0 then 256 else Heights[n],
       vScreenRealHeight := Heights[n],
       vMode := m,
       vScreenSize := size,
       plotSlot := m,
       rpixSlot := m + 5)
  }

  /**
   * fx_readRegisterSpace: load the registers, derive the lazy flags, select
   * the banks, decode the screen geometry and refresh the screen pointers.
   * The cache mask, the bank tables and the prefetched byte are kept.
   */
  function ReadRegisterSpace(w: Window, g: Gsu): (r: Gsu)
    ensures r.regs == DecodeRegisters(w, g.regs)
    ensures ZeroFlag(r.flags) <==> r.regs.vStatusReg & FlagZ != 0
    ensures SignFlag(r.flags) <==> r.regs.vStatusReg & FlagS != 0
    ensures OverflowFlag(r.flags) <==> r.regs.vStatusReg & FlagOV != 0
    ensures CarryFlag(r.flags) <==> r.regs.vStatusReg & FlagCY != 0
    ensures r.banks == SelectBanks(g.banks, r.regs)
    ensures r.screen == ComputeScreenPointers(DecodeScreen(w, g.screen, g.regs.vPlotOptionReg, g.banks.nRamBanks))
    ensures !NeedsRecompute(r.screen)
    ensures r.cache == g.cache.(vCacheBaseReg := WordAt(w, CBR))
    ensures r.vErrorCode == 0 && r.vPipe == g.vPipe
  {
    var regs := DecodeRegisters(w, g.regs);
    Gsu(regs, DecodeFlags(regs.vStatusReg), SelectBanks(g.banks, regs),
        ComputeScreenPointers(DecodeScreen(w, g.screen, g.regs.vPlotOptionReg, g.banks.nRamBanks)),
        g.cache.(vCacheBaseReg := WordAt(w, CBR)), g.vPipe, 0)
  }

  /**
   * Decoding the same window a second time changes nothing: the state decode
   * leaves agrees with the window it came from.
   */
  lemma ReadRegisterSpaceIdempotent(w: Window, g: Gsu)
    ensures ReadRegisterSpace(w, ReadRegisterSpace(w, g)) == ReadRegisterSpace(w, g)
  {
    var d := ReadRegisterSpace(w, g);
    var s0 := DecodeScreen(w, g.screen, g.regs.vPlotOptionReg, g.banks.nRamBanks);
    assert DecodeRegisters(w, d.regs) == d.regs;
    assert DecodeScreen(w, d.screen, d.regs.vPlotOptionReg, d.banks.nRamBanks) == d.screen;
    ComputeScreenPointersIdempotent(s0);
  }

  /** SF(flag) when on, CF(flag) otherwise. */
  function SetOrClear(s: bv32, flag: bv32, on: bool): bv32 {
    if on then s | flag else s & !flag
  }

  /** SetOrClear decides its own flag and keeps every bit outside it. */
  lemma SetOrClearBits(s: bv32, flag: bv32, on: bool, other: bv32)
    requires flag & other == 0
    ensures SetOrClear(s, flag, on) & flag == (if on then flag else 0)
    ensures SetOrClear(s, flag, on) & other == s & other
  {
  }

  /** Status bits other than Z, S, OV and CY. */
  const OtherStatusBits: bv32 := !(FlagZ | FlagS | FlagOV | FlagCY)

  /**
   * SF/CF of Z, S, OV and CY in that order: each of the four bits ends up
   * set exactly when asked for, and every other bit of the word is kept.
   */
  function FoldFlags(st: bv32, z: bool, sg: bool, ov: bool, cy: bool): (s: bv32)
    ensures (s & FlagZ != 0) <==> z
    ensures (s & FlagS != 0) <==> sg
    ensures (s & FlagOV != 0) <==> ov
    ensures (s & FlagCY != 0) <==> cy
    ensures s & OtherStatusBits == st & OtherStatusBits
  {
    var s1 := SetOrClear(st, FlagZ, z);
    var s2 := SetOrClear(s1, FlagS, sg);
    var s3 := SetOrClear(s2, FlagOV, ov);
    var s4 := SetOrClear(s3, FlagCY, cy);
    SetOrClearBits(st, FlagZ, z, OtherStatusBits);
    SetOrClearBits(s1, FlagS, sg, OtherStatusBits);
    SetOrClearBits(s2, FlagOV, ov, OtherStatusBits);
    SetOrClearBits(s3, FlagCY, cy, OtherStatusBits);
    SetOrClearBits(s1, FlagS, sg, FlagZ);
    SetOrClearBits(s2, FlagOV, ov, FlagZ);
    SetOrClearBits(s3, FlagCY, cy, FlagZ);
    SetOrClearBits(s2, FlagOV, ov, FlagS);
    SetOrClearBits(s3, FlagCY, cy, FlagS);
    SetOrClearBits(s3, FlagCY, cy, FlagOV);
    s4
  }

  /** A word whose four flag bits and other bits agree with st is st. */
  lemma FoldFlagsUnchanged(st: bv32, z: bool, sg: bool, ov: bool, cy: bool)
    requires (st & FlagZ != 0) <==> z
    requires (st & FlagS != 0) <==> sg
    requires (st & FlagOV != 0) <==> ov
    requires (st & FlagCY != 0) <==> cy
    ensures FoldFlags(st, z, sg, ov, cy) == st
  {
    var s := FoldFlags(st, z, sg, ov, cy);
    Recompose(s);
    Recompose(st);
  }

  /** A status word is its four flag bits together with the other bits. */
  lemma Recompose(x: bv32)
    ensures x == (x & OtherStatusBits) | (x & FlagZ) | (x & FlagS) | (x & FlagOV) | (x & FlagCY)
  {
  }

  /**
   * The status word fx_writeRegisterSpace stores: the lazy flags folded into
   * SFR, each of Z, S, OV and CY set exactly when its lazy value means "set".
   */
  function StatusWord(status: bv32, f: LazyFlags): (s: bv32)
    ensures (s & FlagZ != 0) <==> ZeroFlag(f)
    ensures (s & FlagS != 0) <==> SignFlag(f)
    ensures (s & FlagOV != 0) <==> OverflowFlag(f)
    ensures (s & FlagCY != 0) <==> CarryFlag(f)
    ensures s & OtherStatusBits == status & OtherStatusBits
  {
    FoldFlags(status, ZeroFlag(f), SignFlag(f), OverflowFlag(f), CarryFlag(f))
  }

  /** The window together with the working state. */
  datatype Space = Space(window: Window, gsu: Gsu)

  /** Window bytes that fx_writeRegisterSpace writes. */
  predicate Encoded(k: nat) {
    k < 32 || k == SFR || k == SFR + 1 || k == PBR || k == ROMBR || k == RAMBR || k == CBR || k == CBR + 1
  }

  /**
   * The bytes encode stores: R0-R15, SFR and CBR little-endian, PBR, ROMBR
   * and RAMBR truncated to a byte; every other byte of the window is kept.
   */
  function EncodeWindow(regs: Registers, cbr: bv32, w: Window): (r: Window)
    ensures forall i :: 0 <= i < 16 ==> r[2 * i] == Lo(regs.avReg[i]) && r[2 * i + 1] == Hi(regs.avReg[i])
    ensures r[SFR] == Lo(regs.vStatusReg) && r[SFR + 1] == Hi(regs.vStatusReg)
    ensures r[PBR] == Lo(regs.vPrgBankReg) && r[ROMBR] == Lo(regs.vRomBankReg)
    ensures r[RAMBR] == Lo(regs.vRamBankReg)
    ensures r[CBR] == Lo(cbr) && r[CBR + 1] == Hi(cbr)
    ensures forall k :: 0 <= k < WindowSize && !Encoded(k) ==> r[k] == w[k]
  {
    seq(WindowSize, k requires 0 <= k < WindowSize => EncodedByte(regs, cbr, w, k))
  }

  /** Byte k of the encoded window. */
  function EncodedByte(regs: Registers, cbr: bv32, w: Window, k: nat): bv8
    requires k < WindowSize
  {
    if k < 32 then (if k % 2 == 0 then Lo(regs.avReg[k / 2]) else Hi(regs.avReg[k / 2]))
    else if k == SFR then Lo(regs.vStatusReg)
    else if k == SFR + 1 then Hi(regs.vStatusReg)
    else if k == PBR then Lo(regs.vPrgBankReg)
    else if k == ROMBR then Lo(regs.vRomBankReg)
    else if k == RAMBR then Lo(regs.vRamBankReg)
    else if k == CBR then Lo(cbr)
    else if k == CBR + 1 then Hi(cbr)
    else w[k]
  }

  /**
   * fx_writeRegisterSpace: fold the lazy flags into the status word (which
   * the working state keeps), then encode the registers into the window.
   */
  function WriteRegisterSpace(g: Gsu, w: Window): (r: Space)
    ensures r.gsu == g.(regs := g.regs.(vStatusReg := r.gsu.regs.vStatusReg))
    ensures (r.gsu.regs.vStatusReg & FlagZ != 0) <==> ZeroFlag(g.flags)
    ensures (r.gsu.regs.vStatusReg & FlagS != 0) <==> SignFlag(g.flags)
    ensures (r.gsu.regs.vStatusReg & FlagOV != 0) <==> OverflowFlag(g.flags)
    ensures (r.gsu.regs.vStatusReg & FlagCY != 0) <==> CarryFlag(g.flags)
    ensures r.gsu.regs.vStatusReg & OtherStatusBits == g.regs.vStatusReg & OtherStatusBits
    ensures r.window == EncodeWindow(r.gsu.regs, g.cache.vCacheBaseReg, w)
  {
    var regs := g.regs.(vStatusReg := StatusWord(g.regs.vStatusReg, g.flags));
    Space(EncodeWindow(regs, g.cache.vCacheBaseReg, w), g.(regs := regs))
  }

  /**
   * Decode then encode with nothing in between: every byte comes back as it
   * was except RAMBR, which comes back masked to the RAM bank range, and the
   * working state is the decoded one.
   */
  lemma ReadThenWriteRestoresWindow(w: Window, g: Gsu)
    ensures var d := ReadRegisterSpace(w, g);
      WriteRegisterSpace(d, w).window == w[RAMBR := w[RAMBR] & 0x3] &&
      WriteRegisterSpace(d, w).gsu == d
  {
    var d := ReadRegisterSpace(w, g);
    var st := d.regs.vStatusReg;
    FoldFlagsUnchanged(st, ZeroFlag(d.flags), SignFlag(d.flags), OverflowFlag(d.flags), CarryFlag(d.flags));
    assert WriteRegisterSpace(d, w).gsu == d;
    EncodeDecodedRegisters(w, g.regs);
  }

  /** Encoding freshly decoded registers gives the window back, RAMBR masked. */
  lemma EncodeDecodedRegisters(w: Window, regs: Registers)
    ensures EncodeWindow(DecodeRegisters(w, regs), WordAt(w, CBR), w) == w[RAMBR := w[RAMBR] & 0x3]
  {
    var d := DecodeRegisters(w, regs);
    var e := EncodeWindow(d, WordAt(w, CBR), w);
    forall k | 0 <= k < WindowSize
      ensures e[k] == w[RAMBR := w[RAMBR] & 0x3][k]
    {
      EncodeDecodedByte(w, d, k);
    }
  }

  /** One byte of EncodeDecodedRegisters. */
  lemma EncodeDecodedByte(w: Window, d: Registers, k: nat)
    requires k < WindowSize
    requires forall i :: 0 <= i < 16 ==> Lo(d.avReg[i]) == w[2 * i] && Hi(d.avReg[i]) == w[2 * i + 1]
    requires Lo(d.vStatusReg) == w[SFR] && Hi(d.vStatusReg) == w[SFR + 1]
    requires Lo(d.vPrgBankReg) == w[PBR] && Lo(d.vRomBankReg) == w[ROMBR]
    requires Lo(d.vRamBankReg) == w[RAMBR] & 0x3
    ensures EncodedByte(d, WordAt(w, CBR), w, k) == w[RAMBR := w[RAMBR] & 0x3][k]
  {
    if k < 32 {
      var i := k / 2;
      assert k == 2 * i || k == 2 * i + 1;
    }
  }

  /** Two values that agree in their low bytes, the first below 0x10000. */
  lemma WordFromBytes(x: bv32, y: bv32)
    requires x < 0x1_0000 && Lo(x) == Lo(y) && Hi(x) == Hi(y)
    ensures x == y & 0xffff
  {
  }

  lemma ByteFrom(x: bv32, y: bv32, mask: bv8)
    requires x < 0x100 && Lo(x) == Lo(y) & mask
    ensures x == y & (mask as bv32)
  {
  }

  /**
   * Encode then decode: the registers and bank registers come back truncated
   * to their widths, and each of Z, S, OV and CY comes back with the meaning
   * it had in lazy form.
   */
  lemma WriteThenReadKeepsFlags(g: Gsu, w: Window)
    ensures var d := ReadRegisterSpace(WriteRegisterSpace(g, w).window, g);
      && (ZeroFlag(d.flags) <==> ZeroFlag(g.flags))
      && (SignFlag(d.flags) <==> SignFlag(g.flags))
      && (OverflowFlag(d.flags) <==> OverflowFlag(g.flags))
      && (CarryFlag(d.flags) <==> CarryFlag(g.flags))
      && (forall i :: 0 <= i < 16 ==> d.regs.avReg[i] == g.regs.avReg[i] & 0xffff)
      && d.regs.vPrgBankReg == g.regs.vPrgBankReg & 0xff
      && d.regs.vRomBankReg == g.regs.vRomBankReg & 0xff
      && d.regs.vRamBankReg == g.regs.vRamBankReg & 0x3
      && d.cache.vCacheBaseReg == g.cache.vCacheBaseReg & 0xffff
  {
    var e := WriteRegisterSpace(g, w);
    var d := ReadRegisterSpace(e.window, g);
    WordFromBytes(d.regs.vStatusReg, e.gsu.regs.vStatusReg);
    forall i | 0 <= i < 16
      ensures d.regs.avReg[i] == g.regs.avReg[i] & 0xffff
    {
      WordFromBytes(d.regs.avReg[i], g.regs.avReg[i]);
    }
    ByteFrom(d.regs.vPrgBankReg, g.regs.vPrgBankReg, 0xff);
    ByteFrom(d.regs.vRomBankReg, g.regs.vRomBankReg, 0xff);
    ByteFrom(d.regs.vRamBankReg, g.regs.vRamBankReg, 0x3);
    WordFromBytes(d.cache.vCacheBaseReg, g.cache.vCacheBaseReg);
  }

  /** fx_updateRamBank: a RAMBR write selects the RAM bank at once. */
  function UpdateRamBank(g: Gsu, byte: bv8): (r: Gsu)
    ensures r.regs.vRamBankReg < RamBanks && Lo(r.regs.vRamBankReg) == byte & 0x3
    ensures r.banks.ramBankPtr == g.banks.ramBanks[r.regs.vRamBankReg as int]
    ensures r == g.(regs := g.regs.(vRamBankReg := r.regs.vRamBankReg),
                    banks := g.banks.(ramBankPtr := r.banks.ramBankPtr))
  {
    g.(regs := g.regs.(vRamBankReg := (byte as bv32) & (RamBanks - 1)),
       banks := g.banks.(ramBankPtr := g.banks.ramBanks[(byte & 0x3) as int]))
  }

  /** The immediate RAM bank update agrees with what the next decode of that byte gives. */
  lemma UpdateRamBankAgreesWithRead(w: Window, g: Gsu, byte: bv8)
    ensures var d := ReadRegisterSpace(w[RAMBR := byte], g);
      d.regs.vRamBankReg == UpdateRamBank(g, byte).regs.vRamBankReg &&
      d.banks.ramBankPtr == UpdateRamBank(g, byte).banks.ramBankPtr
  {
    var d := ReadRegisterSpace(w[RAMBR := byte], g);
    ByteFrom(d.regs.vRamBankReg, byte as bv32, 0x3);
  }

  /** fx_dirtySCBR: force the next screen pointer refresh. */
  function DirtyScbr(g: Gsu): (r: Gsu)
    ensures NeedsRecompute(r.screen)
    ensures r == g.(screen := g.screen.(vSCBRDirty := true))
  {
    g.(screen := g.screen.(vSCBRDirty := true))
  }

  /**
   * After a screen base write, the next refresh rebuilds the pointers from
   * the new base even when the mode and height are unchanged.
   */
  lemma DirtyScbrRebuildsPointers(g: Gsu)
    requires HasLayout(g.screen.vScreenHeight, g.screen.vMode)
    ensures ComputeScreenPointers(DirtyScbr(g).screen).apvScreen ==
      ColumnTable(g.screen.screenBase, g.screen.vScreenHeight, g.screen.vMode)
  {
  }
}
