/**
 * S9xResetSuperFX and FxReset: clear the chip record and the register
 * window, build the bank tables, prime the pipe with a NOP, and decode the
 * cleared window so that the working state agrees with it.
 *
 * The per-line speeds come from floating-point timing settings and are
 * taken as parameters.
 */
module Reset {
  import opened FxHeader
  import opened BankMapper
  import opened GsuState
  import opened ScreenPointers
  import opened RegisterSpace
  import opened Session

  /** The register window after reset. */
  function ZeroWindow(): (w: Window)
    ensures forall k :: 0 <= k < WindowSize ==> w[k] == 0
  {
    seq(WindowSize, _ => 0)
  }

  /** The chip record FxReset decodes from: cleared, then given the bank tables, the shadows and the pipe. */
  function ResetRecord(nRom: nat, nRam: nat, rom: RomTable, ram: RamTable): (g: Gsu)
    ensures g.banks.nRomBanks == nRom && g.banks.nRamBanks == nRam
    ensures g.banks.romBanks == rom && g.banks.ramBanks == ram
    ensures g.screen.vPrevMode == NoPrevious && g.screen.vPrevScreenHeight == NoPrevious
    ensures g.vPipe == 1 && g.regs.vPlotOptionReg == 0 && g.cache == Cache(0, 0, false)
    ensures g.regs.sreg == 0 && g.regs.dreg == 0
  {
    var c := ClearedGsu();
    c.(banks := c.banks.(nRamBanks := nRam, nRomBanks := nRom, romBanks := rom, ramBanks := ram),
       screen := c.screen.(vPrevMode := NoPrevious, vPrevScreenHeight := NoPrevious),
       vPipe := 1)
  }

  /**
   * The chip state FxReset leaves: the ROM bank count clamped to 32 banks
   * (2 MB); the bank tables MakeBankTables builds; all-zero registers with
   * R0 as source and destination and POR clear; PBR, ROMBR and RAMBR 0 and
   * the bank pointers they select; no flag set; an empty cache; the pipe
   * primed with a NOP; and a 128-line 2-bit screen at the start of RAM whose
   * pointer tables are freshly computed.
   */
  ghost predicate IsResetState(nRom: nat, nRam: nat, g: Gsu) {
    && 1 <= nRom && 1 <= nRam
    && ResetBanks(nRom, nRam, g.banks)
    && ResetRegisters(g)
    && g.vPipe == 1 && g.vErrorCode == 0
    && g.cache == Cache(0, 0, false)
    && ResetScreen(g.screen)
  }

  /** The bank tables MakeBankTables builds, and the bank pointers PBR, ROMBR and RAMBR 0 select. */
  ghost predicate ResetBanks(nRom: nat, nRam: nat, b: Banks)
    requires 1 <= nRom && 1 <= nRam
  {
    && b.nRomBanks == ClampRomBanks(nRom) && b.nRamBanks == nRam
    && (forall k :: 0 <= k < 4 ==> b.ramBanks[k] == Ram((k % nRam) * BankSize))
    && (forall k :: 0 <= k < 4 ==> b.romBanks[0x70 + k] == b.ramBanks[k])
    && (forall i: bv8 :: !(0x70 <= i < 0x74) ==> b.romBanks[i] == RomBankEntry(ClampRomBanks(nRom), i))
    && b.prgBankPtr == Rom(LowerBankBase) && b.romBankPtr == Rom(LowerBankBase)
    && b.ramBankPtr == Ram(0)
  }

  /** All-zero registers with R0 as source and destination, POR clear, and no flag set. */
  ghost predicate ResetRegisters(g: Gsu) {
    && (forall k :: 0 <= k < 16 ==> g.regs.avReg[k] == 0)
    && g.regs.sreg == 0 && g.regs.dreg == 0 && g.regs.vPlotOptionReg == 0
    && g.regs.vStatusReg == 0 && g.regs.vRamBankReg == 0
    && g.regs.vPrgBankReg == 0 && g.regs.vRomBankReg == 0
    && !ZeroFlag(g.flags) && !SignFlag(g.flags) && !OverflowFlag(g.flags) && !CarryFlag(g.flags)
  }

  /** The 128-line 2-bit screen at the start of RAM, its pointer tables freshly computed. */
  ghost predicate ResetScreen(s: Screen) {
    && s.vMode == 0 && s.vScreenHeight == 128 && s.screenBase == 0
    && !s.vSCBRDirty
    && (forall i :: 0 <= i < 32 ==> s.apvScreen[i] == i * 16 && s.x[i] as int == i * 256)
  }

  /**
   * FxReset: the window is cleared, the chip state is the reset state, and
   * the two agree: decoding the cleared window again changes nothing.
   */
  method FxReset(nRom: nat, nRam: nat) returns (w: Window, g: Gsu)
    requires 1 <= nRom && 1 <= nRam
    ensures w == ZeroWindow()
    ensures IsResetState(nRom, nRam, g)
    ensures ReadRegisterSpace(w, g) == g
  {
    var n := ClampRomBanks(nRom);
    var rom, ram := MakeBankTables(n, nRam);
    w := ZeroWindow();
    var g0 := ResetRecord(n, nRam, rom, ram);
    g := ReadRegisterSpace(w, g0);
    ZeroWindowRegisters(w, g0.regs);
    ZeroWindowScreen(w, g0.screen, nRam);
    RomBankZero(n);
    ReadRegisterSpaceIdempotent(w, g0);
  }

  /**
   * S9xResetSuperFX: the host side is cleared (no session this line, no
   * pending interrupt, no flags), the speeds are stored, and FxReset
   * rebuilds the chip state and clears the window, so the GSU is stopped
   * and the next per-line call runs nothing.
   */
  method ResetSuperFx(nRom: nat, nRam: nat, speedPerLine: bv32, speedPerLine2x: bv32) returns (s: SuperFx)
    requires 1 <= nRom && 1 <= nRam
    ensures !s.oneLineDone && s.vFlags == 0 && !s.irqExternal
    ensures s.speedPerLine == speedPerLine && s.speedPerLine2x == speedPerLine2x
    ensures s.window == ZeroWindow() && s.window[SFR] & GoBit == 0
    ensures IsResetState(nRom, nRam, s.gsu)
    ensures ReadRegisterSpace(s.window, s.gsu) == s.gsu
    ensures !WantsRun(s.window)
  {
    var w, g := FxReset(nRom, nRam);
    s := SuperFx(w, g, speedPerLine, speedPerLine2x, false, 0, false);
  }

  /** The cleared window decodes to zero registers. */
  lemma ZeroWindowRegisters(w: Window, regs: Registers)
    requires w == ZeroWindow()
    ensures var r := DecodeRegisters(w, regs);
      && (forall k :: 0 <= k < 16 ==> r.avReg[k] == 0)
      && r.vStatusReg == 0 && r.vRamBankReg == 0 && r.vPrgBankReg == 0 && r.vRomBankReg == 0
    ensures WordAt(w, CBR) == 0
  {
    var r := DecodeRegisters(w, regs);
    forall k | 0 <= k < 16
      ensures r.avReg[k] == 0
    {
      ZeroBytes(r.avReg[k]);
    }
    ZeroBytes(r.vStatusReg);
    ZeroBytes(r.vPrgBankReg);
    ZeroBytes(r.vRomBankReg);
    ZeroBytes(r.vRamBankReg);
    ZeroBytes(WordAt(w, CBR));
  }

  /** A 16-bit value whose two bytes are zero is zero. */
  lemma ZeroBytes(x: bv32)
    requires x < 0x1_0000 && Lo(x) == 0 && Hi(x) == 0
    ensures x == 0
  {
  }

  /** The cleared window, with POR clear, selects the 128-line 2-bit screen at the start of RAM. */
  lemma ZeroWindowScreen(w: Window, s: Screen, nRam: nat)
    requires w == ZeroWindow() && 1 <= nRam
    requires s.vPrevMode == NoPrevious && s.vPrevScreenHeight == NoPrevious
    ensures var r := ComputeScreenPointers(DecodeScreen(w, s, 0, nRam));
      && r.vMode == 0 && r.vScreenHeight == 128 && r.screenBase == 0
      && forall i :: 0 <= i < 32 ==> r.apvScreen[i] == i * 16 && r.x[i] as int == i * 256
  {
    var d := DecodeScreen(w, s, 0, nRam);
    assert HeightIndex(0) == 0;
    assert d.vScreenSize == 0x2000;
  }

  /** Bank 0 of the table is the first mirrored ROM bank. */
  lemma RomBankZero(n: nat)
    requires 1 <= n
    ensures RomBankEntry(n, 0) == Rom(LowerBankBase)
  {
  }
}
