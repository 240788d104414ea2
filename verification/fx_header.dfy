/**
 * Constants and byte/word helpers shared by the SuperFX (GSU) glue.
 *
 * The register offsets and flag bits below come from the GSU headers, which
 * are not part of this model; they carry the values Snes9x gives them. The
 * model relies on these facts about them:
 *  - FlagS << 12 == 0x8000, so the sign encoding written by decode is the
 *    bit that encode tests;
 *  - FlagCY >> 2 != 0, so a set carry decodes to a nonzero carry;
 *  - FlagIRQ is bit 15 of the status word, i.e. bit 7 of window byte 0x31,
 *    the bit that a read of bus address 0x3031 acknowledges;
 *  - FlagG is bit 5, a bit of the status word's low byte (bus 0x3030).
 */
module FxHeader {

  /** Size of the register window: R0-R15, control bytes, then the 512-byte cache. */
  const WindowSize: nat := 0x300

  /** The packed register window; window byte k is bus address 0x3000 + k. */
  type Window = w: seq<bv8> | |w| == WindowSize witness seq(0x300, _ => 0)

  /** A bus address inside the register window. */
  type BusAddr = a: bv16 | 0x3000 <= a < 0x3300 witness 0x3000

  /** Window index of a bus address. */
  function Index(a: BusAddr): (k: nat)
    ensures k < WindowSize
    ensures k + 0x3000 == a as int
  {
    (a - 0x3000) as nat
  }

  // Offsets of the control registers inside the window.
  const SFR: nat := 0x30      // status/flag register, 16 bits
  const PBR: nat := 0x34      // program bank register
  const ROMBR: nat := 0x36    // ROM bank register
  const SCBR: nat := 0x38     // screen base register
  const CLSR: nat := 0x39     // clock select register
  const SCMR: nat := 0x3a     // screen mode register
  const RAMBR: nat := 0x3c    // RAM bank register
  const CBR: nat := 0x3e      // cache base register, 16 bits

  // Bits of the status register.
  const FlagZ: bv32 := 0x2
  const FlagCY: bv32 := 0x4
  const FlagS: bv32 := 0x8
  const FlagOV: bv32 := 0x10
  const FlagG: bv32 := 0x20
  const FlagIRQ: bv32 := 0x8000

  /** The go bit as it appears in window byte SFR. */
  const GoBit: bv8 := 0x20

  /** Number of RAM bank slots the chip can address. */
  const RamBanks: bv32 := 4

  /** Little-endian 16-bit word stored at window[k], window[k+1]. */
  function WordAt(w: Window, k: nat): (r: bv32)
    requires k + 1 < WindowSize
    ensures r < 0x1_0000
    ensures Lo(r) == w[k] && Hi(r) == w[k + 1]
  {
    (w[k] as bv32) | ((w[k + 1] as bv32) << 8)
  }

  /** Low byte of a 32-bit value, as a uint8 cast keeps it. */
  function Lo(v: bv32): bv8 {
    (v & 0xff) as bv8
  }

  /** Second byte of a 32-bit value. */
  function Hi(v: bv32): bv8 {
    ((v >> 8) & 0xff) as bv8
  }
}
