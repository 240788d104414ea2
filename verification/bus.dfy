/**
 * The host bus interface: what a write to or a read from the register
 * window at 0x3000-0x32ff does.
 *
 * Writes store the byte into the window; a few addresses have side
 * effects: the low status byte starts or stops the GSU on a change of G,
 * 0x301f (the high byte of R15) starts it, the bank registers lose bit 7,
 * the screen base marks the screen pointers stale, RAMBR switches the RAM
 * bank at once, the version register ignores writes, and writes to the
 * cache mirror feed the cache write tracker. A session runs at most once
 * per scan line: the latch `oneLineDone` is set when one runs, and only the
 * per-line caller outside this model clears it.
 */
module Bus {
  import opened FxHeader
  import opened GsuState
  import opened CacheTracker
  import opened RegisterSpace
  import opened Session
  import opened ScreenPointers

  /** Store a byte into the window. */
  function Store(s: SuperFx, k: nat, byte: bv8): (r: SuperFx)
    requires k < WindowSize
    ensures r.window[k] == byte
    ensures forall j :: 0 <= j < WindowSize && j != k ==> r.window[j] == s.window[j]
    ensures r == s.(window := r.window)
  {
    s.(window := s.window[k := byte])
  }

  /**
   * Run a session unless one already ran on this line; either way the latch
   * is set afterwards.
   */
  function RunOncePerLine(s: SuperFx, run: Engine): (r: SuperFx)
    ensures r.oneLineDone
    ensures s.oneLineDone ==> r == s
    ensures !s.oneLineDone ==> r == SuperFxExec(s, run).(oneLineDone := true)
  {
    if !s.oneLineDone then SuperFxExec(s, run).(oneLineDone := true) else s
  }

  /** A write to 0x3030, the low byte of SFR. */
  function WriteStatusLow(s: SuperFx, byte: bv8, run: Engine): (r: SuperFx)
    ensures (s.window[SFR] ^ byte) & GoBit == 0 ==> r == Store(s, SFR, byte)
    ensures s.window[SFR] & GoBit != 0 && byte & GoBit == 0 ==>
      r == Store(s, SFR, byte).(gsu := s.gsu.(cache := FlushCache(s.gsu.cache)))
    ensures s.window[SFR] & GoBit == 0 && byte & GoBit != 0 ==>
      r == RunOncePerLine(Store(s, SFR, byte), run)
  {
    if (s.window[SFR] ^ byte) & GoBit != 0 then
      var s1 := Store(s, SFR, byte);
      if byte & GoBit != 0 then
        RunOncePerLine(s1, run)
      else
        s1.(gsu := s1.gsu.(cache := FlushCache(s1.gsu.cache)))
    else
      Store(s, SFR, byte)
  }

  /** The byte stored for a plain write: the bank registers PBR and ROMBR keep seven bits. */
  function StoredByte(a: BusAddr, byte: bv8): (b: bv8)
    ensures a == 0x3034 || a == 0x3036 ==> b & 0x80 == 0 && b & 0x7f == byte & 0x7f
    ensures a != 0x3034 && a != 0x3036 ==> b == byte
  {
    if a == 0x3034 || a == 0x3036 then byte & 0x7f else byte
  }

  /** Addresses whose write only stores a byte (apart from the cache tracker). */
  predicate PlainAddress(a: BusAddr) {
    a != 0x3030 && a != 0x301f && a != 0x3038 && a != 0x303b && a != 0x303c
  }

  /**
   * S9xSetSuperFX. The explicit store-only cases of the source (0x3031,
   * 0x3033, 0x3037, 0x3039, 0x303a, 0x303f) behave as the default case,
   * since they lie below the cache mirror.
   */
  function SetSuperFx(s: SuperFx, byte: bv8, a: BusAddr, run: Engine): (r: SuperFx)
    ensures s.oneLineDone ==> r.oneLineDone
    ensures a == 0x303b ==> r == s
    ensures PlainAddress(a) ==> r.window == s.window[Index(a) := StoredByte(a, byte)]
    ensures PlainAddress(a) && a < 0x3100 ==> r == s.(window := r.window)
    ensures PlainAddress(a) && a >= 0x3100 ==>
      r == s.(window := r.window, gsu := s.gsu.(cache := CacheWriteAccess(s.gsu.cache, a)))
    ensures a == 0x3030 ==> r == WriteStatusLow(s, byte, run)
    ensures a == 0x3038 ==> NeedsRecompute(r.gsu.screen) && r.window[SCBR] == byte
    ensures a == 0x3038 ==> r == s.(window := s.window[SCBR := byte], gsu := DirtyScbr(s.gsu))
    ensures a == 0x303c ==> r.gsu == UpdateRamBank(s.gsu, byte) && r.window[RAMBR] == byte
    ensures a == 0x303c ==> r == s.(window := s.window[RAMBR := byte], gsu := UpdateRamBank(s.gsu, byte))
    ensures a == 0x301f ==> r.oneLineDone
  {
    var k := Index(a);
    if a == 0x3030 then
      WriteStatusLow(s, byte, run)
    else if a == 0x301f then
      var s1 := Store(s, k, byte);
      RunOncePerLine(Store(s1, SFR, s1.window[SFR] | GoBit), run)
    else if a == 0x3034 || a == 0x3036 then
      Store(s, k, byte & 0x7f)
    else if a == 0x3038 then
      Store(s, k, byte).(gsu := DirtyScbr(s.gsu))
    else if a == 0x303b then
      s
    else if a == 0x303c then
      Store(s, k, byte).(gsu := UpdateRamBank(s.gsu, byte))
    else if a >= 0x3100 then
      Store(s, k, byte).(gsu := s.gsu.(cache := CacheWriteAccess(s.gsu.cache, a)))
    else
      Store(s, k, byte)
  }

  /** Once a session ran on this line, a write never consults the engine. */
  lemma LatchedWriteIgnoresEngine(s: SuperFx, byte: bv8, a: BusAddr, run1: Engine, run2: Engine)
    requires s.oneLineDone
    ensures SetSuperFx(s, byte, a, run1) == SetSuperFx(s, byte, a, run2)
  {
  }

  /** A host write. */
  datatype Write = Write(byte: bv8, addr: BusAddr)

  /** A run of host writes, in order. */
  function SetSuperFxAll(s: SuperFx, ws: seq<Write>, run: Engine): (r: SuperFx)
    ensures s.oneLineDone ==> r.oneLineDone
    decreases |ws|
  {
    if |ws| == 0 then s else SetSuperFxAll(SetSuperFx(s, ws[0].byte, ws[0].addr, run), ws[1..], run)
  }

  /**
   * At most one session per line: after the latch is set, no sequence of
   * writes consults the engine again.
   */
  lemma {:induction false} LatchedWritesIgnoreEngine(s: SuperFx, ws: seq<Write>, run1: Engine, run2: Engine)
    requires s.oneLineDone
    ensures SetSuperFxAll(s, ws, run1) == SetSuperFxAll(s, ws, run2)
    decreases |ws|
  {
    if |ws| > 0 {
      LatchedWriteIgnoresEngine(s, ws[0].byte, ws[0].addr, run1, run2);
      var s1 := SetSuperFx(s, ws[0].byte, ws[0].addr, run1);
      LatchedWritesIgnoreEngine(s1, ws[1..], run1, run2);
    }
  }

  /**
   * Stopping the GSU (a 0x3030 write that clears G while it was set) empties
   * the cache: the dirty mask, the cache base and the active flag are
   * cleared, and no session runs.
   */
  lemma StopFlushesCache(s: SuperFx, byte: bv8, run: Engine)
    requires s.window[SFR] & GoBit != 0 && byte & GoBit == 0
    ensures var r := SetSuperFx(s, byte, 0x3030, run);
      && r.gsu.cache.vCacheFlags == 0 && r.gsu.cache.vCacheBaseReg == 0 && !r.gsu.cache.bCacheActive
      && r.window == s.window[SFR := byte]
      && r.oneLineDone == s.oneLineDone && r.irqExternal == s.irqExternal
  {
  }

  /**
   * Starting the GSU (a 0x3030 write that sets G while it was clear) runs a
   * session from the window with the new byte exactly when none ran on this
   * line yet.
   */
  lemma StartRunsOnce(s: SuperFx, byte: bv8, run: Engine)
    requires s.window[SFR] & GoBit == 0 && byte & GoBit != 0
    ensures var r := SetSuperFx(s, byte, 0x3030, run);
      && r.oneLineDone
      && (s.oneLineDone ==> r == s.(window := s.window[SFR := byte]))
      && (!s.oneLineDone ==> r == SuperFxExec(s.(window := s.window[SFR := byte]), run).(oneLineDone := true))
  {
  }

  /**
   * Writing the high byte of R15 stores it, sets G in the window and runs a
   * session from there, once per line.
   */
  lemma R15WriteStarts(s: SuperFx, byte: bv8, run: Engine)
    ensures var r := SetSuperFx(s, byte, 0x301f, run);
      var w := s.window[0x1f := byte][SFR := s.window[SFR] | GoBit];
      && (s.oneLineDone ==> r == s.(window := w))
      && (!s.oneLineDone ==> r == SuperFxExec(s.(window := w), run).(oneLineDone := true))
  {
  }

  /** The outcome of a host read: the byte read and the state after it. */
  datatype BusRead = BusRead(byte: bv8, state: SuperFx)

  /**
   * S9xGetSuperFX: every read returns the stored byte; reading 0x3031 (the
   * high byte of SFR) then acknowledges the interrupt by clearing bit 7 of
   * that byte and lowering the IRQ line.
   */
  function GetSuperFx(s: SuperFx, a: BusAddr): (r: BusRead)
    ensures r.byte == s.window[Index(a)]
    ensures a != 0x3031 ==> r.state == s
    ensures a == 0x3031 ==> !r.state.irqExternal && r.state.window[SFR + 1] & 0x80 == 0
    ensures a == 0x3031 ==> r.state.window[SFR + 1] & 0x7f == r.byte & 0x7f
    ensures a == 0x3031 ==> r.state == s.(window := r.state.window, irqExternal := false)
    ensures forall j :: 0 <= j < WindowSize && j != SFR + 1 ==> r.state.window[j] == s.window[j]
  {
    var byte := s.window[Index(a)];
    if a == 0x3031 then
      BusRead(byte, s.(irqExternal := false, window := s.window[SFR + 1 := byte & 0x7f]))
    else
      BusRead(byte, s)
  }

  /**
   * After reading 0x3031 the status word in the window has IRQ clear and all
   * its other bits unchanged.
   */
  lemma AcknowledgeClearsIrqFlag(s: SuperFx)
    ensures WordAt(GetSuperFx(s, 0x3031).state.window, SFR) == WordAt(s.window, SFR) & !FlagIRQ
  {
    AckWindowWord(s.window, GetSuperFx(s, 0x3031).state.window);
  }

  /** Acknowledging twice is acknowledging once. */
  lemma AcknowledgeIdempotent(s: SuperFx)
    ensures var r := GetSuperFx(s, 0x3031).state;
      GetSuperFx(r, 0x3031).state == r
  {
    var r := GetSuperFx(s, 0x3031).state;
    assert r.window[SFR + 1 := r.window[SFR + 1] & 0x7f] == r.window;
  }

  /** Clearing bit 7 of the SFR high byte clears bit 15 of the status word. */
  lemma AckWindowWord(w0: Window, w1: Window)
    requires w1 == w0[SFR + 1 := w0[SFR + 1] & 0x7f]
    ensures WordAt(w1, SFR) == WordAt(w0, SFR) & !FlagIRQ
  {
    assert w1[SFR] == w0[SFR] && w1[SFR + 1] == w0[SFR + 1] & 0x7f;
    AckBytes(w0[SFR], w0[SFR + 1]);
  }

  /** The little-endian word of two bytes, with bit 7 of the high byte cleared. */
  lemma AckBytes(lo: bv8, hi: bv8)
    ensures (lo as bv32) | (((hi & 0x7f) as bv32) << 8) == ((lo as bv32) | ((hi as bv32) << 8)) & !FlagIRQ
  {
  }
}
