/**
 * The session controller: the start address check, one GSU session
 * (decode, run the instruction engine, encode) and the per-line entry point
 * that decides whether a session runs and whether it raises the IRQ line.
 *
 * The instruction engine is not part of this model. It is a parameter: a
 * function from the decoded state, the register window (the engine reads and
 * fills the cache mirror in it) and the instruction budget to the final
 * state, the window and the number of instructions it executed.
 */
module Session {
  import opened FxHeader
  import opened GsuState
  import opened RegisterSpace

  /** What the instruction engine hands back. */
  datatype Run = Run(gsu: Gsu, window: Window, count: bv32)

  type Engine = (Gsu, Window, bv32) -> Run

  /** SCMR bit 4 (RON): the GSU owns the ROM bus. */
  predicate RomOwned(scmr: bv8) { scmr & 0x10 != 0 }
  /** SCMR bit 3 (RAN): the GSU owns the RAM bus. */
  predicate RamOwned(scmr: bv8) { scmr & 0x08 != 0 }

  /** x lies in the 512 bytes from cbr on, with cbr + 512 computed as a uint32. */
  predicate CacheHolds(cbr: bv32, x: bv32) {
    x >= cbr && x < cbr + 512
  }

  /** R15 lies in the 512 bytes the active cache holds, from CBR on. */
  predicate InCache(g: Gsu) {
    g.cache.bCacheActive && CacheHolds(g.cache.vCacheBaseReg, g.regs.avReg[15])
  }

  /** A program bank that is ROM: banks 0x00-0x5f and their mirrors from 0x80 on. */
  predicate RomProgramBank(pbr: bv32) {
    pbr <= 0x5f || pbr >= 0x80
  }

  /**
   * The decision of fx_checkStartAddress: code may start in the active cache,
   * in a ROM bank when the GSU owns the ROM bus, or in any bank up to 0x7f
   * (ROM 0x00-0x5f or game-pak RAM 0x70-0x7f) when it owns the RAM bus.
   */
  function StartAllowed(inCache: bool, pbr: bv32, scmr: bv8): (ok: bool)
    ensures inCache ==> ok
    ensures !RomOwned(scmr) && !RamOwned(scmr) ==> (ok <==> inCache)
    ensures RomOwned(scmr) && !RamOwned(scmr) ==> (ok <==> inCache || RomProgramBank(pbr))
    ensures !RomOwned(scmr) && RamOwned(scmr) ==> (ok <==> inCache || pbr <= 0x7f)
    ensures RomOwned(scmr) && RamOwned(scmr) ==> ok
  {
    if inCache then true
    else if RomOwned(scmr) && (pbr <= 0x5f || pbr >= 0x80) then true
    else if pbr <= 0x7f && RamOwned(scmr) then true
    else false
  }

  /**
   * Below the top 512 bytes of the 32-bit range, the cache holds exactly the
   * 512 bytes from its base on, compared in 64 bits where nothing wraps.
   */
  lemma CacheHoldsRange(cbr: bv32, x: bv32)
    requires cbr < 0xffff_fe00
    ensures CacheHolds(cbr, x) <==> x >= cbr && (x as bv64) < (cbr as bv64) + 512
  {
  }

  /**
   * CBR + 512 wraps as a uint32, so a cache base in the top 512 bytes of the
   * 32-bit range holds no address at all.
   */
  lemma CacheHoldsWraps(cbr: bv32, x: bv32)
    requires cbr >= 0xffff_fe00
    ensures !CacheHolds(cbr, x)
  {
    if x >= cbr {
      WrapAbove(x, cbr);
    }
  }

  /** With wrap-around, no x at or above cbr is below cbr + 512. */
  lemma WrapAbove(x: bv32, cbr: bv32)
    requires cbr >= 0xffff_fe00 && x >= cbr
    ensures !(x < cbr + 512)
  {
  }

  /**
   * fx_checkStartAddress on the decoded state, with SCMR read from the
   * window: the start is allowed in the active cache, in a ROM program bank
   * when the GSU owns the ROM bus, and in a bank up to 0x7f when it owns the
   * RAM bus.
   */
  function CheckStartAddress(g: Gsu, scmr: bv8): (ok: bool)
    ensures ok <==> (InCache(g) || (RomOwned(scmr) && RomProgramBank(g.regs.vPrgBankReg))
                     || (RamOwned(scmr) && g.regs.vPrgBankReg <= 0x7f))
  {
    StartAllowed(InCache(g), g.regs.vPrgBankReg, scmr)
  }

  /** The outcome of one session: the window and state after encode, and FxEmulate's return value. */
  datatype Emulation = Emulation(window: Window, gsu: Gsu, result: bv32)

  /** Whether a session started from this window and state passes the start address check. */
  predicate StartValid(w: Window, g: Gsu) {
    CheckStartAddress(ReadRegisterSpace(w, g), w[SCMR])
  }

  /** The state the engine is handed: the decoded one with the IRQ flag cleared. */
  function EngineInput(w: Window, g: Gsu): (e: Gsu)
    ensures e.regs.vStatusReg & FlagIRQ == 0
    ensures e.regs.vStatusReg & !FlagIRQ == ReadRegisterSpace(w, g).regs.vStatusReg & !FlagIRQ
    ensures e == ReadRegisterSpace(w, g).(regs := e.regs)
    ensures e.regs == ReadRegisterSpace(w, g).regs.(vStatusReg := e.regs.vStatusReg)
  {
    var d := ReadRegisterSpace(w, g);
    d.(regs := d.regs.(vStatusReg := d.regs.vStatusReg & !FlagIRQ))
  }

  /**
   * FxEmulate: decode; on a bad start address clear G, encode and report 0
   * without running; otherwise clear IRQ, run the engine, encode, and report
   * the engine's error code if it set one, else its instruction count.
   */
  function FxEmulate(w: Window, g: Gsu, budget: bv32, run: Engine): (r: Emulation)
    ensures !StartValid(w, g) ==> r.result == 0
    ensures !StartValid(w, g) ==> r.window == w[RAMBR := w[RAMBR] & 0x3][SFR := w[SFR] & !GoBit]
    ensures !StartValid(w, g) ==> r.gsu.regs.vStatusReg & FlagG == 0
    ensures !StartValid(w, g) ==> r.gsu == Stopped(ReadRegisterSpace(w, g))
    ensures StartValid(w, g) ==>
      var out := run(EngineInput(w, g), w, budget);
      && r.window == WriteRegisterSpace(out.gsu, out.window).window
      && r.gsu == WriteRegisterSpace(out.gsu, out.window).gsu
      && (out.gsu.vErrorCode != 0 ==> r.result == out.gsu.vErrorCode)
      && (out.gsu.vErrorCode == 0 ==> r.result == out.count)
  {
    if !StartValid(w, g) then
      Halt(w, g)
    else
      var out := run(EngineInput(w, g), w, budget);
      var e := WriteRegisterSpace(out.gsu, out.window);
      Emulation(e.window, e.gsu, if out.gsu.vErrorCode != 0 then out.gsu.vErrorCode else out.count)
  }

  /**
   * The rejected session: the decoded state with G cleared is encoded back,
   * which rewrites the window as it was except for G and the RAMBR mask.
   */
  function Halt(w: Window, g: Gsu): (r: Emulation)
    ensures r.result == 0
    ensures r.window == w[RAMBR := w[RAMBR] & 0x3][SFR := w[SFR] & !GoBit]
    ensures r.gsu.regs.vStatusReg & FlagG == 0
    ensures r.gsu.regs.vStatusReg & !FlagG == ReadRegisterSpace(w, g).regs.vStatusReg & !FlagG
    ensures r.gsu == Stopped(ReadRegisterSpace(w, g))
  {
    var d := ReadRegisterSpace(w, g);
    var e := WriteRegisterSpace(Stopped(d), w);
    HaltEncodes(w, g);
    ClearGoBytes(d.regs.vStatusReg);
    Emulation(e.window, e.gsu, 0)
  }

  /** A state with G cleared in its status word. */
  function Stopped(d: Gsu): Gsu {
    d.(regs := d.regs.(vStatusReg := d.regs.vStatusReg & !FlagG))
  }

  /** RejectedWindow for the state decode leaves. */
  lemma HaltEncodes(w: Window, g: Gsu)
    ensures WriteRegisterSpace(Stopped(ReadRegisterSpace(w, g)), w).window == w[RAMBR := w[RAMBR] & 0x3][SFR := w[SFR] & !GoBit]
    ensures WriteRegisterSpace(Stopped(ReadRegisterSpace(w, g)), w).gsu == Stopped(ReadRegisterSpace(w, g))
  {
    var d := ReadRegisterSpace(w, g);
    DecodedAgrees(w, g);
    RejectedWindow(w, g.regs, d);
  }

  /** The facts RejectedWindow needs, for the state decode leaves. */
  lemma DecodedAgrees(w: Window, g: Gsu)
    ensures var d := ReadRegisterSpace(w, g);
      && d.regs == DecodeRegisters(w, g.regs) && d.cache.vCacheBaseReg == WordAt(w, CBR)
      && (ZeroFlag(d.flags) <==> d.regs.vStatusReg & FlagZ != 0)
      && (SignFlag(d.flags) <==> d.regs.vStatusReg & FlagS != 0)
      && (OverflowFlag(d.flags) <==> d.regs.vStatusReg & FlagOV != 0)
      && (CarryFlag(d.flags) <==> d.regs.vStatusReg & FlagCY != 0)
  {
  }

  /** Replacing only the status word changes only the two SFR bytes of the encoding. */
  lemma EncodeStatusOnly(regs: Registers, x: bv32, cbr: bv32, w: Window)
    ensures EncodeWindow(regs.(vStatusReg := x), cbr, w) ==
      EncodeWindow(regs, cbr, w)[SFR := Lo(x)][SFR + 1 := Hi(x)]
  {
    var regs' := regs.(vStatusReg := x);
    var a := EncodeWindow(regs', cbr, w);
    var b := EncodeWindow(regs, cbr, w)[SFR := Lo(x)][SFR + 1 := Hi(x)];
    forall k | 0 <= k < WindowSize
      ensures a[k] == b[k]
    {
      if k != SFR && k != SFR + 1 {
        assert EncodedByte(regs', cbr, w, k) == EncodedByte(regs, cbr, w, k);
      }
    }
  }

  /** Clearing G in a status word clears bit 5 of its low byte and nothing else. */
  lemma ClearGoBytes(st: bv32)
    ensures Lo(st & !FlagG) == Lo(st) & !GoBit && Hi(st & !FlagG) == Hi(st)
    ensures (st & !FlagG) & OtherStatusBits == (st & OtherStatusBits) & !FlagG
    ensures (st & !FlagG) & FlagZ == st & FlagZ && (st & !FlagG) & FlagS == st & FlagS
    ensures (st & !FlagG) & FlagOV == st & FlagOV && (st & !FlagG) & FlagCY == st & FlagCY
    ensures (st & !FlagG) & FlagG == 0 && (st & !FlagG) & !FlagG == st & !FlagG
  {
  }

  /**
   * Encoding a state whose registers are the decoded ones with G cleared, and
   * whose lazy flags agree with its status word, writes back the decoded
   * window with RAMBR masked and G cleared in SFR, and keeps the state.
   */
  lemma HaltedEncoding(w: Window, regs0: Registers, h: Gsu)
    requires var regs := DecodeRegisters(w, regs0);
      h.regs == regs.(vStatusReg := regs.vStatusReg & !FlagG)
    requires h.cache.vCacheBaseReg == WordAt(w, CBR)
    requires ZeroFlag(h.flags) <==> h.regs.vStatusReg & FlagZ != 0
    requires SignFlag(h.flags) <==> h.regs.vStatusReg & FlagS != 0
    requires OverflowFlag(h.flags) <==> h.regs.vStatusReg & FlagOV != 0
    requires CarryFlag(h.flags) <==> h.regs.vStatusReg & FlagCY != 0
    ensures WriteRegisterSpace(h, w).window == w[RAMBR := w[RAMBR] & 0x3][SFR := w[SFR] & !GoBit]
    ensures WriteRegisterSpace(h, w).gsu == h
  {
    var ws := WriteRegisterSpace(h, w);
    FoldFlagsUnchanged(h.regs.vStatusReg, ZeroFlag(h.flags), SignFlag(h.flags), OverflowFlag(h.flags), CarryFlag(h.flags));
    assert ws.gsu == h;
    EncodeHalted(w, regs0);
  }

  /**
   * A rejected start writes back the window it decoded, with RAMBR masked and
   * G cleared in SFR, and keeps the decoded state with G cleared.
   */
  lemma RejectedWindow(w: Window, regs0: Registers, d: Gsu)
    requires d.regs == DecodeRegisters(w, regs0) && d.cache.vCacheBaseReg == WordAt(w, CBR)
    requires ZeroFlag(d.flags) <==> d.regs.vStatusReg & FlagZ != 0
    requires SignFlag(d.flags) <==> d.regs.vStatusReg & FlagS != 0
    requires OverflowFlag(d.flags) <==> d.regs.vStatusReg & FlagOV != 0
    requires CarryFlag(d.flags) <==> d.regs.vStatusReg & FlagCY != 0
    ensures WriteRegisterSpace(Stopped(d), w).window == w[RAMBR := w[RAMBR] & 0x3][SFR := w[SFR] & !GoBit]
    ensures WriteRegisterSpace(Stopped(d), w).gsu == Stopped(d)
  {
    var h := d.(regs := d.regs.(vStatusReg := d.regs.vStatusReg & !FlagG));
    assert h == Stopped(d);
    ClearGoBytes(d.regs.vStatusReg);
    HaltedEncoding(w, regs0, h);
  }

  /** Encoding freshly decoded registers with G cleared: the window with RAMBR masked and G clear. */
  lemma EncodeHalted(w: Window, regs0: Registers)
    ensures var regs := DecodeRegisters(w, regs0);
      EncodeWindow(regs.(vStatusReg := regs.vStatusReg & !FlagG), WordAt(w, CBR), w) ==
        w[RAMBR := w[RAMBR] & 0x3][SFR := w[SFR] & !GoBit]
  {
    var regs := DecodeRegisters(w, regs0);
    var st := regs.vStatusReg;
    ClearGoBytes(st);
    EncodeStatusOnly(regs, st & !FlagG, WordAt(w, CBR), w);
    EncodeDecodedRegisters(w, regs0);
    var masked := w[RAMBR := w[RAMBR] & 0x3];
    StatusRewrite(EncodeWindow(regs.(vStatusReg := st & !FlagG), WordAt(w, CBR), w), masked, Lo(st), Hi(st));
  }

  /** Rewriting the SFR bytes with the G bit cleared in the low one. */
  lemma StatusRewrite(ew: Window, m: Window, lo: bv8, hi: bv8)
    requires lo == m[SFR] && hi == m[SFR + 1]
    requires ew == m[SFR := lo & !GoBit][SFR + 1 := hi]
    ensures ew == m[SFR := m[SFR] & !GoBit]
  {
    assert ew == m[SFR := m[SFR] & !GoBit][SFR + 1 := m[SFR + 1]];
  }

  /** A rejected session never consults the engine. */
  lemma RejectedIgnoresEngine(w: Window, g: Gsu, budget: bv32, run1: Engine, run2: Engine)
    requires !StartValid(w, g)
    ensures FxEmulate(w, g, budget, run1) == FxEmulate(w, g, budget, run2)
  {
  }

  /** The coprocessor as the host sees it between bus accesses. */
  datatype SuperFx = SuperFx(
    window: Window,            // FillRAM[0x3000..0x32ff]
    gsu: Gsu,
    speedPerLine: bv32,
    speedPerLine2x: bv32,
    oneLineDone: bool,         // a session already ran on this scan line
    vFlags: bv32,
    irqExternal: bool          // CPU.IRQExternal
  )

  /** The instruction budget: the doubled speed when CLSR selects the 21 MHz clock. */
  function Budget(s: SuperFx): (b: bv32)
    ensures s.window[CLSR] & 1 != 0 ==> b == s.speedPerLine2x
    ensures s.window[CLSR] & 1 == 0 ==> b == s.speedPerLine
  {
    if s.window[CLSR] & 1 != 0 then s.speedPerLine2x else s.speedPerLine
  }

  /** S9xSuperFXExec runs a session only when G is set and the GSU owns the ROM or RAM bus. */
  predicate WantsRun(w: Window) {
    w[SFR] & GoBit != 0 && (RomOwned(w[SCMR]) || RamOwned(w[SCMR]))
  }

  /**
   * S9xSuperFXExec: run one session if wanted; afterwards raise the IRQ line
   * when the status word has IRQ set and G clear. The line is only ever
   * raised here, never lowered.
   */
  function SuperFxExec(s: SuperFx, run: Engine): (r: SuperFx)
    ensures !WantsRun(s.window) ==> r == s
    ensures WantsRun(s.window) ==>
      var e := FxEmulate(s.window, s.gsu, Budget(s), run);
      && r == s.(window := e.window, gsu := e.gsu, irqExternal := r.irqExternal)
      && (r.irqExternal <==> s.irqExternal || (e.window[SFR] & GoBit == 0 && e.window[SFR + 1] & 0x80 != 0))
  {
    if WantsRun(s.window) then
      var e := FxEmulate(s.window, s.gsu, Budget(s), run);
      s.(window := e.window, gsu := e.gsu, irqExternal := RaiseIrq(s.irqExternal, e.window))
    else
      s
  }

  /** The IRQ line after a session: raised when the 16-bit status has IRQ set and G clear, else kept. */
  function RaiseIrq(line: bool, w: Window): (r: bool)
    ensures r <==> line || (w[SFR] & GoBit == 0 && w[SFR + 1] & 0x80 != 0)
  {
    var status := WordAt(w, SFR);
    IrqCondition(status, w[SFR], w[SFR + 1]);
    if status & (FlagG | FlagIRQ) == FlagIRQ then true else line
  }

  /** The 16-bit test (status & (G|IRQ)) == IRQ, read on the two status bytes. */
  lemma IrqCondition(status: bv32, lo: bv8, hi: bv8)
    requires Lo(status) == lo && Hi(status) == hi && status < 0x1_0000
    ensures (status & (FlagG | FlagIRQ) == FlagIRQ) <==> (lo & GoBit == 0 && hi & 0x80 != 0)
  {
  }

  /**
   * A session whose start address is rejected raises the IRQ line exactly
   * when the IRQ flag was already pending in the window.
   */
  lemma RejectedRunRaisesPendingIrq(s: SuperFx, run: Engine)
    requires WantsRun(s.window) && !StartValid(s.window, s.gsu)
    ensures SuperFxExec(s, run).irqExternal <==> s.irqExternal || s.window[SFR + 1] & 0x80 != 0
    ensures SuperFxExec(s, run).window[SFR] & GoBit == 0
  {
    var e := FxEmulate(s.window, s.gsu, Budget(s), run);
    assert e.window[SFR + 1] == s.window[SFR + 1];
    assert e.window[SFR] == s.window[SFR] & !GoBit;
  }

  /**
   * A session that ran raises the IRQ line exactly when the engine stopped
   * with G clear and IRQ set in its status word.
   */
  lemma CompletedRunRaisesIrq(s: SuperFx, run: Engine)
    requires WantsRun(s.window) && StartValid(s.window, s.gsu)
    ensures var out := run(EngineInput(s.window, s.gsu), s.window, Budget(s));
      SuperFxExec(s, run).irqExternal <==>
        s.irqExternal || out.gsu.regs.vStatusReg & (FlagG | FlagIRQ) == FlagIRQ
  {
    var out := run(EngineInput(s.window, s.gsu), s.window, Budget(s));
    EncodedIrq(s.irqExternal, out.gsu, out.window);
  }

  /** The IRQ decision on an encoded window reads the IRQ and G bits of the state encoded. */
  lemma EncodedIrq(line: bool, g: Gsu, w: Window)
    ensures RaiseIrq(line, WriteRegisterSpace(g, w).window) <==>
      line || g.regs.vStatusReg & (FlagG | FlagIRQ) == FlagIRQ
  {
    EncodedIrqBytes(line, g, w);
    FoldedIrqBytes(WriteRegisterSpace(g, w).gsu.regs.vStatusReg, g.regs.vStatusReg);
  }

  /** The IRQ decision on an encoded window, in terms of the folded status word. */
  lemma EncodedIrqBytes(line: bool, g: Gsu, w: Window)
    ensures var st := WriteRegisterSpace(g, w).gsu.regs.vStatusReg;
      RaiseIrq(line, WriteRegisterSpace(g, w).window) <==>
      line || (Lo(st) & GoBit == 0 && Hi(st) & 0x80 != 0)
  {
    var enc := WriteRegisterSpace(g, w);
    EncodedStatusBytes(g, w);
    assert enc.window[SFR + 1] == Hi(enc.gsu.regs.vStatusReg);
  }

  /** Encode stores the low byte of the folded status word at SFR. */
  lemma EncodedStatusBytes(g: Gsu, w: Window)
    ensures WriteRegisterSpace(g, w).window[SFR] == Lo(WriteRegisterSpace(g, w).gsu.regs.vStatusReg)
  {
  }

  /**
   * G and IRQ are outside the four folded flags, so the status bytes encode
   * writes show IRQ set and G clear exactly when the engine's status word did.
   */
  lemma FoldedIrqBytes(st: bv32, orig: bv32)
    requires st & OtherStatusBits == orig & OtherStatusBits
    ensures (Lo(st) & GoBit == 0 && Hi(st) & 0x80 != 0) <==> orig & (FlagG | FlagIRQ) == FlagIRQ
  {
  }
}
