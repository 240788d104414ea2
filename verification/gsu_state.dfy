/**
 * The decoded GSU working state: the fields of the chip's register record
 * that the glue reads or writes, grouped by the component that owns them.
 * Pointers into ROM and RAM are bank pointers (buffer plus offset); the
 * screen base and the column table are byte offsets into the RAM buffer.
 */
module GsuState {
  import opened BankMapper

  type RegFile = r: seq<bv32> | |r| == 16 witness seq(16, _ => 0)
  type ScreenTable = t: seq<int> | |t| == 32 witness seq(32, _ => 0)
  type XTable = t: seq<bv32> | |t| == 32 witness seq(32, _ => 0)

  /** `~0` in a uint32: the "no previous value" that reset stores in the shadows. */
  const NoPrevious: nat := 0xffff_ffff

  /** The chip registers decode loads from the window. */
  datatype Registers = Registers(
    avReg: RegFile,            // R0-R15
    sreg: nat,                 // index of the register pvSreg points at
    dreg: nat,                 // index of the register pvDreg points at
    vStatusReg: bv32,          // SFR
    vPrgBankReg: bv32,         // PBR
    vRomBankReg: bv32,         // ROMBR
    vRamBankReg: bv32,         // RAMBR
    vPlotOptionReg: bv32       // POR, set by the instruction engine
  )

  /**
   * The status flags in lazy form, as the instruction engine leaves them:
   * Z is set iff the low 16 bits of vZero are 0, S is bit 15 of vSign,
   * OV is "vOverflow outside [-0x8000, 0x8000)" (an int32), CY is "vCarry nonzero".
   */
  datatype LazyFlags = LazyFlags(vZero: bv32, vSign: bv32, vOverflow: int, vCarry: bv32)

  /** Bank tables built at reset, and the bank pointers decode selects from them. */
  datatype Banks = Banks(
    nRamBanks: nat,
    nRomBanks: nat,
    romBanks: RomTable,        // apvRomBank
    ramBanks: RamTable,        // apvRamBank
    ramBankPtr: BankPtr,       // pvRamBank
    romBankPtr: BankPtr,       // pvRomBank
    prgBankPtr: BankPtr        // pvPrgBank
  )

  /** Screen geometry and the screen pointer cache. */
  datatype Screen = Screen(
    vMode: nat,
    vPrevMode: nat,
    vScreenHeight: nat,
    vScreenRealHeight: nat,
    vPrevScreenHeight: nat,
    vScreenSize: nat,
    screenBase: int,           // pvScreenBase, as an offset into RAM
    apvScreen: ScreenTable,    // column pointers, as offsets into RAM
    x: XTable,                 // column x-offsets
    vSCBRDirty: bool,
    plotSlot: nat,             // index into the plot routine table used for PLOT
    rpixSlot: nat              // index into the plot routine table used for RPIX
  )

  /** Cache bookkeeping. */
  datatype Cache = Cache(
    vCacheBaseReg: bv32,       // CBR
    vCacheFlags: bv32,         // one dirty bit per 16-byte cache line
    bCacheActive: bool
  )

  datatype Gsu = Gsu(
    regs: Registers,
    flags: LazyFlags,
    banks: Banks,
    screen: Screen,
    cache: Cache,
    vPipe: bv8,                // prefetched instruction byte
    vErrorCode: bv32
  )

  /** The all-zero record FxReset starts from; null pointers are `Null`. */
  function ClearedGsu(): Gsu {
    Gsu(Registers(seq(16, _ => 0), 0, 0, 0, 0, 0, 0, 0),
        LazyFlags(0, 0, 0, 0),
        Banks(0, 0, seq(256, _ => Null), seq(4, _ => Null), Null, Null, Null),
        Screen(0, 0, 0, 0, 0, 0, 0, seq(32, _ => 0), seq(32, _ => 0), false, 0, 0),
        Cache(0, 0, false),
        0, 0)
  }
}
