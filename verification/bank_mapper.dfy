/**
 * The bank mapper: the ROM and RAM bank tables that FxReset builds.
 *
 * A table entry is a pointer into either the ROM or the RAM buffer; here it
 * is the buffer together with a byte offset into it. Bank shifts `b << 16`
 * are written as `b * BankSize` and are exact, since every bank number is
 * below 0x100.
 */
module BankMapper {

  /** A bank pointer: null, or a byte offset into the ROM buffer or into the RAM buffer. */
  datatype BankPtr = Null | Rom(off: nat) | Ram(off: nat)

  /** The chip addresses at most 2 MB of ROM, i.e. 0x20 banks. */
  const MaxRomBanks: nat := 0x20
  const BankSize: nat := 0x1_0000
  /** Offset of the second logical ROM half, used by banks 0x00-0x3f. */
  const LowerBankBase: nat := 0x80_0000

  type RomTable = t: seq<BankPtr> | |t| == 256 witness seq(256, _ => Rom(0))
  type RamTable = t: seq<BankPtr> | |t| == 4 witness seq(4, _ => Ram(0))

  /** The ROM bank count after FxReset's clamp: the smaller of n and 0x20. */
  function ClampRomBanks(n: nat): (r: nat)
    ensures r <= n && r <= MaxRomBanks
    ensures r == n || r == MaxRomBanks
  {
    if n > MaxRomBanks then MaxRomBanks else n
  }

  /**
   * ROM table entry i as the first loop of FxReset makes it, before the RAM
   * banks are aliased over entries 0x70-0x73. Banks 0x40-0x7f (and their
   * mirrors 0xc0-0xff) map onto the ROM banks modulo the bank count; with a
   * single bank the index is masked with 1 instead. Banks 0x00-0x3f map
   * modulo twice the bank count, 8 MB into the ROM buffer.
   */
  function RomBankEntry(n: nat, i: bv8): (p: BankPtr)
    requires 1 <= n
    ensures p.Rom? && p.off % BankSize == 0
    ensures (i & 0x7f) >= 0x40 && n > 1 ==> p.off < n * BankSize
    ensures (i & 0x7f) >= 0x40 && n == 1 ==> p.off == ((i & 1) as nat) * BankSize
    ensures (i & 0x7f) < 0x40 ==> LowerBankBase <= p.off < LowerBankBase + 2 * n * BankSize
  {
    var b := (i & 0x7f) as nat;
    if b >= 0x40 then
      var bank := if n > 1 then b % n else ((b as bv8) & 1) as nat;
      BankAligned(bank);
      Rom(bank * BankSize)
    else
      var bank := b % (n * 2);
      BankAligned(bank + 0x80);
      Rom(bank * BankSize + LowerBankBase)
  }

  /** A whole number of banks is bank-aligned. */
  lemma BankAligned(k: nat)
    ensures (k * BankSize) % BankSize == 0
  {
  }

  /** RAM table entry i: bank i modulo the RAM bank count. */
  function RamBankEntry(nRam: nat, i: nat): (p: BankPtr)
    requires 1 <= nRam
    ensures p.Ram? && p.off % BankSize == 0 && p.off < nRam * BankSize
    ensures i < nRam ==> p.off == i * BankSize
  {
    Ram((i % nRam) * BankSize)
  }

  /** The first loop of FxReset: every ROM table entry from RomBankEntry. */
  method MakeRomTable(nRom: nat) returns (rom: RomTable)
    requires 1 <= nRom
    ensures forall i: bv8 :: rom[i] == RomBankEntry(nRom, i)
  {
    var romBank := new BankPtr[256](_ => Rom(0));
    var i := 0;
    while i < 256
      invariant 0 <= i <= 256
      invariant forall j: bv8 :: (j as int) < i ==> romBank[j] == RomBankEntry(nRom, j)
    {
      romBank[i] := RomBankEntry(nRom, i as bv8);
      i := i + 1;
    }
    rom := romBank[..];
  }

  /**
   * The two loops of FxReset: the ROM table, then the RAM table, with ROM
   * entries 0x70-0x73 made to point at the RAM banks.
   */
  method MakeBankTables(nRom: nat, nRam: nat) returns (rom: RomTable, ram: RamTable)
    requires 1 <= nRom && 1 <= nRam
    ensures forall k :: 0 <= k < 4 ==> ram[k] == Ram((k % nRam) * BankSize)
    ensures forall k :: 0 <= k < 4 ==> rom[0x70 + k] == ram[k]
    ensures forall i: bv8 :: !(0x70 <= i < 0x74) ==> rom[i] == RomBankEntry(nRom, i)
    ensures forall i: bv8 :: !(0x70 <= i & 0x7f < 0x74) ==> rom[i] == rom[i ^ 0x80]
  {
    var romFirst := MakeRomTable(nRom);
    var romBank := new BankPtr[256](j requires 0 <= j < 256 => romFirst[j]);
    var ramBank := new BankPtr[4](_ => Ram(0));
    var i := 0;
    while i < 4
      invariant 0 <= i <= 4
      invariant forall k :: 0 <= k < i ==> ramBank[k] == Ram((k % nRam) * BankSize)
      invariant forall k :: 0 <= k < i ==> romBank[0x70 + k] == ramBank[k]
      invariant forall j: bv8 :: !(0x70 <= j as int < 0x70 + i) ==> romBank[j] == romFirst[j]
    {
      ramBank[i] := RamBankEntry(nRam, i);
      romBank[0x70 + i] := ramBank[i];
      i := i + 1;
    }
    rom := romBank[..];
    ram := ramBank[..];
    TableMirrors(nRom, rom);
  }

  /** A table that holds RomBankEntry outside 0x70-0x73 agrees with itself across the 0x80 mirror. */
  lemma TableMirrors(n: nat, rom: RomTable)
    requires 1 <= n
    requires forall i: bv8 :: !(0x70 <= i < 0x74) ==> rom[i] == RomBankEntry(n, i)
    ensures forall i: bv8 :: !(0x70 <= i & 0x7f < 0x74) ==> rom[i] == rom[i ^ 0x80]
  {
    forall i: bv8 | !(0x70 <= i & 0x7f < 0x74)
      ensures rom[i] == rom[i ^ 0x80]
    {
      RomBankMirror(n, i);
    }
  }

  /** Bank i and bank i ^ 0x80 map to the same ROM offset. */
  lemma RomBankMirror(n: nat, i: bv8)
    requires 1 <= n
    ensures RomBankEntry(n, i) == RomBankEntry(n, i ^ 0x80)
  {
    assert (i ^ 0x80) & 0x7f == i & 0x7f;
  }

  /**
   * With a single ROM bank the `& 1` wrap lets an odd upper bank point one
   * whole bank past the end of the ROM.
   */
  lemma SingleBankOverrun()
    ensures RomBankEntry(1, 0x41) == Rom(1 * BankSize)
  {
  }
}
