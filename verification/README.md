# SuperFX (GSU) glue of Snes9x, modelled in Dafny

This project models the layer of Snes9x that sits between the host CPU's bus
and the SuperFX (GSU) instruction engine, `Snes9x/src/snes9x/fxemu.cpp`:

- **Bank mapper** (`bank_mapper.dfy`). FxReset builds the 256-entry ROM bank table and the 4-entry RAM bank table. ROM entries 0x70-0x73 alias the RAM banks. Pointers are modelled as `Rom(offset)` / `Ram(offset)`.
- **Register space** (`register_space.dfy`). fx_readRegisterSpace decodes the 0x300-byte register window into the working state: registers, lazy flags, bank pointers, screen geometry and the cache base. fx_writeRegisterSpace folds the lazy flags back into SFR and re-encodes the window.
- **Screen pointer cache** (`screen_pointers.dfy`). fx_computeScreenPointers holds twelve shift formulas and a change guard. The formulas are proved equal to a tile-layout reference.
- **Cache write tracker** (`cache_tracker.dfy`). FxCacheWriteAccess, FxFlushCache and fx_flushCache maintain a 32-bit dirty mask. The flag index of a write is bus address bits 4-8, so the line at 0x3100 sets bit 16 and the line at 0x3200 sets bit 0.
- **Session controller** (`session.dfy`). It covers fx_checkStartAddress and FxEmulate, then S9xSuperFXExec, which decides whether to run and whether to raise the IRQ line.
- **Bus interface** (`bus.dfy`). S9xSetSuperFX and S9xGetSuperFX act on the host-visible state: the window, the chip state, the per-line latch and the IRQ line.
- **Reset** (`reset.dfy`). S9xResetSuperFX and FxReset.

`fx_header.dfy` holds the register offsets, flag bits and window helpers. `gsu_state.dfy` holds the working-state record.

The instruction engine (`fx_run`) is a function-valued parameter, `Engine`. It takes the decoded state, the window and the budget, and returns the final state, the window and an instruction count. Every property about a session holds for every engine.

Assumptions about code that is not part of this model:

- **Header constants** (fxinst.h and fxemu.h are not part of this model) have their Snes9x values:
  - flags: `FLG_Z = 1<<1`, `FLG_CY = 1<<2`, `FLG_S = 1<<3`, `FLG_OV = 1<<4`, `FLG_G = 1<<5`, `FLG_IRQ = 1<<15`;
  - register offsets: `GSU_SFR = 0x30`, `GSU_PBR = 0x34`, `GSU_ROMBR = 0x36`, `GSU_SCBR = 0x38`, `GSU_CLSR = 0x39`, `GSU_SCMR = 0x3a`, `GSU_RAMBR = 0x3c`, `GSU_CBR = 0x3e`;
  - `FX_RAM_BANKS = 4`.

  These agree with the address switch in S9xSetSuperFX. For example, clearing bit 7 of byte 0x3031 clears IRQ, bit 15 of SFR.
- **One window.** `GSU.pvRegisters` and `Memory.FillRAM[0x3000..0x32ff]` are the same bytes. Bus address `a` is window index `a - 0x3000`.
- **Register macros.** `SCMR` reads the SCMR byte of the window, and `R15` is `avReg[15]`.

Integer widths follow the source:

- bytes are `bv8`, and the registers, SFR, CBR and the lazy flag values other than overflow are `bv32`, so the `R15 < CBR + 512` test wraps as in C;
- the `uint32` screen fields (vMode, vPrevMode, vScreenHeight, vScreenRealHeight, vPrevScreenHeight, vScreenSize) and the bank counts (nRomBanks, nRamBanks) are `nat`. The geometry values are at most 256 lines and 48 KB (0xc000), the ROM bank count is clamped to 0x20, and the `~0` shadows are the constant 0xffffffff;
- offsets and table indices are `int`;
- the lazy overflow value is an `int` that stands for the source's `int32`.

## Model

| member | source | states |
|---|---|---|
| BankMapper.ClampRomBanks | Snes9x/src/snes9x/fxemu.cpp:183-185 | the ROM bank count is at most 0x20 (2 MB) and is the given count whenever that fits |
| BankMapper.RomBankEntry | Snes9x/src/snes9x/fxemu.cpp:196-211 | every entry is a bank-aligned pointer into the ROM buffer. An upper bank (`i & 0x7f >= 0x40`) lies inside the ROM when there are several banks, and at `(i & 1) * 64K` for a single bank. A lower bank lies in the mirror at 0x800000, within `2n` banks |
| BankMapper.RamBankEntry | Snes9x/src/snes9x/fxemu.cpp:217 | a RAM-table entry is a bank-aligned offset inside RAM, and bank i itself when i is below the bank count |
| BankMapper.MakeRomTable | Snes9x/src/snes9x/fxemu.cpp:193-212 | the first loop fills all 256 ROM entries, entry i with the mapping of bank i |
| BankMapper.TableMirrors | Snes9x/src/snes9x/fxemu.cpp:196 | a table holding the ROM mapping outside 0x70-0x73 has equal entries at i and i ^ 0x80 for every i whose low seven bits are outside 0x70-0x73 |
| BankMapper.MakeBankTables | Snes9x/src/snes9x/fxemu.cpp:193-219 | RAM entry k is bank `k % nRam`. ROM entries 0x70-0x73 are exactly the RAM entries. Every other ROM entry is the ROM mapping. Entries i and i ^ 0x80 agree outside the RAM alias |
| BankMapper.RomBankMirror | Snes9x/src/snes9x/fxemu.cpp:196 | the ROM mapping ignores bit 7 of the bank number: banks i and i ^ 0x80 get the same entry |
| BankMapper.SingleBankOverrun | Snes9x/src/snes9x/fxemu.cpp:200-205 | with a single ROM bank, bank 0x41 maps to offset 0x10000, one bank past the ROM's size |
| ScreenPointers.ShiftFormulasMatchLayout | Snes9x/src/snes9x/fxemu.cpp:416-552 | for every height (128/160/192/256), mode and i < 32, the source's column and x shift formulas equal the tile-layout offsets. Below height 256 that is `i * tile` and `i * (h/8) * tile`. At 256 it is four 16x16-tile blocks. There is no wrap-around |
| ScreenPointers.ColumnShift | Snes9x/src/snes9x/fxemu.cpp:416-552 | every column offset of the twelve column formulas is aligned to a 16-byte tile, and for the 32 columns it stays below one bank's size (64 KB) |
| ScreenPointers.XShift | Snes9x/src/snes9x/fxemu.cpp:416-552 | every x-offset of the twelve x formulas is aligned to a 16-byte tile, and for the 32 columns it stays below 64 KB |
| ScreenPointers.ColumnTable | Snes9x/src/snes9x/fxemu.cpp:416-552 | column pointer i is the screen base plus the layout offset of tile row i |
| ScreenPointers.XTableFor | Snes9x/src/snes9x/fxemu.cpp:416-552 | x-offset i is the layout offset of tile column i |
| ScreenPointers.ComputeScreenPointers | Snes9x/src/snes9x/fxemu.cpp:409-558 | afterwards the shadows equal mode and height and the dirty flag is clear. With no change nothing happens. On a change with a known layout both tables are the layout tables. An unknown height or mode leaves the tables alone. No other field changes |
| ScreenPointers.RefreshNoOpIffClean | Snes9x/src/snes9x/fxemu.cpp:411 | a refresh leaves the screen as it was exactly when mode and height equal their shadows and the dirty flag is clear |
| ScreenPointers.ComputeScreenPointersIdempotent | Snes9x/src/snes9x/fxemu.cpp:411-413 | a second refresh with nothing changed in between leaves the state as the first left it |
| ScreenPointers.ResetShadowsForceRecompute | Snes9x/src/snes9x/fxemu.cpp:180-181 | with the reset shadows `~0`, every decoded mode and height triggers a recompute that builds the layout table |
| CacheTracker.CacheFlagIndex | Snes9x/src/snes9x/fxemu.cpp:573 | the shift amount `(address & 0x1f0) >> 4` is below 32, so the shift stays inside the 32-bit mask |
| CacheTracker.LineBit | Snes9x/src/snes9x/fxemu.cpp:573 | the OR-ed mask is a single bit, the bit at the address's flag index |
| CacheTracker.CacheFlagIndexIsLine | Snes9x/src/snes9x/fxemu.cpp:573 | the flag index of an address is its 16-byte line number modulo 32 |
| CacheTracker.CacheFlagIsRotatedLine | Snes9x/src/snes9x/fxemu.cpp:573 | within the cache mirror the flag index is the line's position rotated by 16: the line at 0x3100 sets bit 16 and the line at 0x3200 sets bit 0 |
| CacheTracker.CacheWriteAccess | Snes9x/src/snes9x/fxemu.cpp:572-573 | only the dirty mask can change; a write that does not end a line changes nothing; a write that ends one adds its line's bit |
| CacheTracker.CacheWriteKeepsFlags | Snes9x/src/snes9x/fxemu.cpp:573 | a cache write never clears a flag |
| CacheTracker.CacheWriteTouchesOnlyItsLine | Snes9x/src/snes9x/fxemu.cpp:573 | a cache write leaves every flag outside its own line's bit as it was |
| CacheTracker.CacheWriteSetsLineFlag | Snes9x/src/snes9x/fxemu.cpp:572-573 | writing the last byte of a line sets that line's flag |
| CacheTracker.CacheWriteAccessBit | Snes9x/src/snes9x/fxemu.cpp:572-573 | bit by bit: flag j is set after a write iff it was set before or the write ended a line with index j |
| CacheTracker.CacheWritesFlags | Snes9x/src/snes9x/fxemu.cpp:561-574 | after any run of writes, flag j is set iff it was set before or some write in the run ended a line with index j |
| CacheTracker.CacheWrites | Snes9x/src/snes9x/fxemu.cpp:130-134 | a run of cache-mirror writes changes only the dirty mask of the cache record; CacheWritesFlags gives the mask bit by bit |
| CacheTracker.LineSetOnlyByLastByte | Snes9x/src/snes9x/fxemu.cpp:572 | of the sixteen bytes of a line, the first fifteen leave the mask alone and the last sets the line's flag |
| CacheTracker.FlushCache | Snes9x/src/snes9x/fxemu.cpp:576-582 | FxFlushCache clears the mask, the cache base and the active flag |
| CacheTracker.FlushCacheKeepBase | Snes9x/src/snes9x/fxemu.cpp:584-589 | fx_flushCache clears the mask and the active flag and keeps the cache base |
| CacheTracker.FlushThenWrites | Snes9x/src/snes9x/fxemu.cpp:576-589 | after either flush, flag j is set iff some later write ended a line with index j |
| RegisterSpace.ScreenMode | Snes9x/src/snes9x/fxemu.cpp:270 | the mode is below 4; its low bit is SCMR bit 0 and its high bit SCMR bit 1 |
| RegisterSpace.LazyZero | Snes9x/src/snes9x/fxemu.cpp:255 | the zero value has a zero low 16 bits exactly when Z is set in SFR |
| RegisterSpace.LazySign | Snes9x/src/snes9x/fxemu.cpp:256 | the sign value has bit 15 set exactly when S is set in SFR |
| RegisterSpace.LazyOverflow | Snes9x/src/snes9x/fxemu.cpp:257 | the overflow value lies outside the signed 16-bit range exactly when OV is set in SFR |
| RegisterSpace.LazyCarry | Snes9x/src/snes9x/fxemu.cpp:258 | the carry value is nonzero exactly when CY is set in SFR |
| RegisterSpace.HeightIndex | Snes9x/src/snes9x/fxemu.cpp:267-268 | the height index has SCMR bit 2 as its low bit and SCMR bit 5 as its high bit |
| RegisterSpace.ScreenSize | Snes9x/src/snes9x/fxemu.cpp:272-275 | height index 3 gives 32 KB. Otherwise the size is the bytes of a 256-pixel-wide screen of that height at 2/4/4/8 bits per pixel for modes 0-3 |
| RegisterSpace.ClampScreenBase | Snes9x/src/snes9x/fxemu.cpp:280-281 | the screen ends inside RAM. A base that fits is kept. One that does not is lowered so the screen ends exactly at the end of RAM. The result is never above the requested base and never negative |
| RegisterSpace.DecodeFlags | Snes9x/src/snes9x/fxemu.cpp:255-258 | each lazy flag value means "set" (under the encoder's test) exactly when its SFR bit is set |
| RegisterSpace.DecodeRegisters | Snes9x/src/snes9x/fxemu.cpp:241-252 | R0-R15 and SFR are the little-endian words of the window and PBR and ROMBR its bytes. RAMBR is the byte masked to two bits. Each value fits its width. The register selections and POR are kept |
| RegisterSpace.SelectBanks | Snes9x/src/snes9x/fxemu.cpp:261-263 | the RAM, ROM and program bank pointers are the table entries the decoded registers select; nothing else changes |
| RegisterSpace.DecodeScreen | Snes9x/src/snes9x/fxemu.cpp:266-284 | mode and real height come from SCMR. OBJ mode (POR bit 4) forces a drawing height of 256. The size uses the real height. The base is SCBR * 1 KB when the screen fits in RAM, and otherwise `nRam * 64K - size`, so the screen ends exactly at the end of RAM. The plot slots are mode and mode+5. The result always has a pointer layout |
| RegisterSpace.ReadRegisterSpace | Snes9x/src/snes9x/fxemu.cpp:230-294 | decode gives the decoded registers, the lazy flags matching SFR, the selected banks, the decoded screen with fresh pointers, CBR from the window and error code 0. The cache mask, tables and pipe are kept |
| RegisterSpace.ReadRegisterSpaceIdempotent | Snes9x/src/snes9x/fxemu.cpp:230-294 | decoding the same window again leaves the decoded state unchanged |
| RegisterSpace.FoldFlagsUnchanged | Snes9x/src/snes9x/fxemu.cpp:305-323 | folding flags that agree with the status word's own Z, S, OV and CY bits gives the status word back |
| RegisterSpace.FoldFlags | Snes9x/src/snes9x/fxemu.cpp:305-323 | after the four SF/CF pairs each of Z, S, OV and CY is set exactly when asked for, and every other status bit is kept |
| RegisterSpace.StatusWord | Snes9x/src/snes9x/fxemu.cpp:305-323 | the stored status word has Z, S, OV and CY set exactly when the lazy values mean "set" under the source's tests, and every other bit as before |
| RegisterSpace.EncodeWindow | Snes9x/src/snes9x/fxemu.cpp:300-330 | the encoded window holds R0-R15, SFR and CBR little-endian and PBR, ROMBR and RAMBR as bytes; every other byte is kept |
| RegisterSpace.WriteRegisterSpace | Snes9x/src/snes9x/fxemu.cpp:296-333 | encode sets Z, S, OV and CY in SFR exactly as the lazy values mean. Every other status bit is kept. Nothing else in the state changes. The window is the encoding of the result |
| RegisterSpace.ReadThenWriteRestoresWindow | Snes9x/src/snes9x/fxemu.cpp:230-333 | decode followed by encode rewrites every byte of the window unchanged except RAMBR, which comes back masked to `& 3`; the state is the decoded one |
| RegisterSpace.EncodeDecodedRegisters | Snes9x/src/snes9x/fxemu.cpp:241-330 | encoding freshly decoded registers and CBR gives the window back with only RAMBR masked |
| RegisterSpace.WriteThenReadKeepsFlags | Snes9x/src/snes9x/fxemu.cpp:241-330 | encode followed by decode keeps each of Z, S, OV and CY. The registers and CBR come back truncated to 16 bits, PBR and ROMBR to 8 and RAMBR to 2 |
| RegisterSpace.UpdateRamBank | Snes9x/src/snes9x/fxemu.cpp:336-341 | RAMBR becomes the byte masked to two bits and the RAM bank pointer its table entry; nothing else changes |
| RegisterSpace.UpdateRamBankAgreesWithRead | Snes9x/src/snes9x/fxemu.cpp:336-341 | the immediate RAM bank update selects the same register and pointer as the next decode of the same byte |
| RegisterSpace.DirtyScbr | Snes9x/src/snes9x/fxemu.cpp:344-347 | after an SCBR write the next pointer refresh is due; nothing else changes |
| RegisterSpace.DirtyScbrRebuildsPointers | Snes9x/src/snes9x/fxemu.cpp:411-413 | after an SCBR write the refresh rebuilds the column table from the current base even when mode and height are unchanged |
| Session.StartAllowed | Snes9x/src/snes9x/fxemu.cpp:349-366 | a start inside the active cache is always allowed. Otherwise, for each of the four RON/RAN combinations, the start is allowed iff the program bank is a ROM bank (RON) or at most 0x7f (RAN), and always when both are set |
| Session.CheckStartAddress | Snes9x/src/snes9x/fxemu.cpp:349-366 | the start is allowed iff R15 is in the active cache, or the GSU owns the ROM bus and PBR is a ROM bank, or it owns the RAM bus and PBR is at most 0x7f |
| Session.CacheHoldsRange | Snes9x/src/snes9x/fxemu.cpp:352 | for a cache base below the top 512 bytes of the 32-bit range, `R15 >= CBR && R15 < CBR + 512` is exactly "R15 in [CBR, CBR + 512)" without wrap-around |
| Session.CacheHoldsWraps | Snes9x/src/snes9x/fxemu.cpp:352 | for a cache base in the top 512 bytes, `CBR + 512` wraps as a uint32 and no R15 passes the test |
| Session.EngineInput | Snes9x/src/snes9x/fxemu.cpp:389-390 | the engine receives the decoded state with IRQ cleared in SFR and nothing else changed |
| Session.FxEmulate | Snes9x/src/snes9x/fxemu.cpp:369-407 | a bad start returns 0. The window is rewritten as it was, except that G is cleared in SFR and RAMBR is masked. The state is the whole decoded state (registers, banks, screen tables, cache record) with G cleared. A good start encodes the engine's final state and returns its error code if nonzero, else its instruction count |
| Session.Halt | Snes9x/src/snes9x/fxemu.cpp:377-387 | a rejected session gives back the window with RAMBR masked and G cleared in SFR, the whole decoded state with G cleared in its status word, and 0 |
| Session.RejectedWindow | Snes9x/src/snes9x/fxemu.cpp:379-380 | encoding the decoded state with G cleared keeps that state and reproduces the window except for G and the RAMBR mask |
| Session.RejectedIgnoresEngine | Snes9x/src/snes9x/fxemu.cpp:377-387 | a rejected session returns the same window, state and result whatever the engine is: the engine is not called |
| Session.Budget | Snes9x/src/snes9x/fxemu.cpp:158 | the budget is the doubled-speed value iff CLSR bit 0 is set |
| Session.SuperFxExec | Snes9x/src/snes9x/fxemu.cpp:154-164 | nothing happens unless G is set and the GSU owns the ROM or RAM bus. Otherwise one session runs and the IRQ line is raised iff the window's status has G clear and IRQ set; it is never lowered |
| Session.RaiseIrq | Snes9x/src/snes9x/fxemu.cpp:160-162 | the 16-bit test `(status & (G \| IRQ)) == IRQ` is "G clear in the low byte and bit 7 set in the high byte" |
| Session.RejectedRunRaisesPendingIrq | Snes9x/src/snes9x/fxemu.cpp:156-162 | a run whose start is rejected leaves G clear and raises the IRQ line iff IRQ was already pending in the window |
| Session.CompletedRunRaisesIrq | Snes9x/src/snes9x/fxemu.cpp:156-162 | a run that started raises the IRQ line iff the engine stopped with G clear and IRQ set in its status word |
| Bus.RunOncePerLine | Snes9x/src/snes9x/fxemu.cpp:60-64 | the latch is set afterwards; a session runs only if it was clear |
| Bus.WriteStatusLow | Snes9x/src/snes9x/fxemu.cpp:54-72 | a 0x3030 write that keeps G only stores. Clearing G stores and flushes the cache. Setting G stores and runs once per line |
| Bus.Store | Snes9x/src/snes9x/fxemu.cpp:131 | a store puts the byte at its window index and changes no other byte and no other part of the host-visible state |
| Bus.StoredByte | Snes9x/src/snes9x/fxemu.cpp:82-88 | PBR and ROMBR writes keep the low seven bits and clear bit 7; other bytes are stored as written |
| Bus.SetSuperFx | Snes9x/src/snes9x/fxemu.cpp:50-137 | writes never clear the latch and 0x303b is ignored. Plain addresses store the (masked) byte and change nothing else, except that writes from 0x3100 on also feed the cache tracker. 0x3030 is the status write. 0x3038 stores the byte and makes a pointer refresh due, and 0x303c stores it and switches the RAM bank; neither changes anything else. 0x301f leaves the latch set |
| Bus.LatchedWriteIgnoresEngine | Snes9x/src/snes9x/fxemu.cpp:50-137 | once the latch is set, the result of a write does not depend on the engine |
| Bus.SetSuperFxAll | Snes9x/src/snes9x/fxemu.cpp:50-137 | a run of host writes, applied in order, never clears the per-line latch |
| Bus.LatchedWritesIgnoreEngine | Snes9x/src/snes9x/fxemu.cpp:60-64 | once the latch is set, no sequence of writes depends on the engine: at most one session per line |
| Bus.StopFlushesCache | Snes9x/src/snes9x/fxemu.cpp:66-67 | clearing G empties the cache bookkeeping, stores the byte, runs nothing and leaves the latch and IRQ line alone |
| Bus.StartRunsOnce | Snes9x/src/snes9x/fxemu.cpp:55-65 | setting G stores the byte, then runs a session from that window iff none ran on this line, and sets the latch |
| Bus.R15WriteStarts | Snes9x/src/snes9x/fxemu.cpp:119-128 | a write to 0x301f stores the byte, sets G in SFR, and runs a session from that window iff none ran on this line |
| Bus.GetSuperFx | Snes9x/src/snes9x/fxemu.cpp:139-152 | a read returns the stored byte. Reading 0x3031 then clears bit 7 of that byte and the IRQ line and changes nothing else. Other reads change nothing |
| Bus.AcknowledgeClearsIrqFlag | Snes9x/src/snes9x/fxemu.cpp:145-149 | after reading 0x3031 the 16-bit status word is the old one with IRQ cleared |
| Bus.AcknowledgeIdempotent | Snes9x/src/snes9x/fxemu.cpp:145-149 | a second read of 0x3031 changes nothing more |
| Reset.ZeroWindow | Snes9x/src/snes9x/fxemu.cpp:188 | every byte of the cleared 0x300-byte window is 0 |
| Reset.ResetRecord | Snes9x/src/snes9x/fxemu.cpp:169-222 | the record FxReset decodes from has the given bank counts and tables, both shadows at `~0`, a NOP in the pipe, POR 0, an empty cache, and R0 as source and destination |
| Reset.FxReset | Snes9x/src/snes9x/fxemu.cpp:166-228 | after reset the window is zero. The ROM bank count is clamped. The tables are the mapped and aliased ones. Registers, SFR and the bank registers are 0, R0 is source and destination, POR is 0 and no flag is set. The bank pointers are at bank 0. The pipe holds a NOP and the cache is empty. The screen is the 128-line mode-0 screen at RAM offset 0, with fresh pointer tables and a clear dirty flag. Decoding the cleared window again changes nothing |
| Reset.ResetSuperFx | Snes9x/src/snes9x/fxemu.cpp:39-48 | after reset no session has run on this line, vFlags is 0, the IRQ line is low, the speeds are the given ones, and the window and chip state are FxReset's: the cleared window, the reset state, and a decode that changes nothing. With G clear the next per-line call runs nothing |
| Reset.ZeroWindowScreen | Snes9x/src/snes9x/fxemu.cpp:227 | decoding the cleared window selects the 128-line mode-0 screen at offset 0, with column i at `16 i` and x-offset i at `256 i` |

## Left out

- S9xSetSuperFXTiming and S9xInitSuperFX (fxemu.cpp:24-37): floating-point timing arithmetic and a printf. The per-line speeds are parameters of reset.
- The instruction engine fx_run, the plot routines and the opcode-table patching (fxemu.cpp:283-289, 397). The engine is a parameter. The plot and rpix choices are recorded as slot numbers, mode and mode + 5.
- Commented-out code:
  - the cache set/backup/restore paths (fxemu.cpp:563-570, 591 onward);
  - breakpoints;
  - the illegal-address return (fxemu.cpp:381-384).
- ROM and RAM byte contents, and raw pointer arithmetic. Pointers are buffer-plus-offset values; `pvSreg` and `pvDreg` are register indices. `pvCache` (fxemu.cpp:225) is implied by the window layout.
- The version byte write (fxemu.cpp:191) is not modelled separately, since the whole window was just cleared.
- FxReset: requires at least one ROM bank and one RAM bank. The source divides by both counts, so it has no defined behaviour for zero.
- ResetSuperFx: requires at least one ROM bank and one RAM bank, for the same reason, since it calls FxReset.
- CacheWriteAccess: the shift `1 << ((address & 0x1f0) >> 4)` is an `int` shift that is then OR-ed into the 32-bit mask. The model sets the one bit at the flag index, bit 31 included.
- RegisterSpace.DecodeScreen: the RAM end `nRamBanks * 65536` (fxemu.cpp:280-281) is computed without 32-bit wrap-around. The source's product wraps only for 65536 or more RAM banks.
- Host interrupt timing: the IRQ line is a single boolean. The per-line latch is cleared by the per-line caller, which is not part of this model.
- Screen size in mode 2: the size multiplier (32 bytes per tile) and the pointer formulas (64 bytes per tile) disagree. The model reproduces both as written and states no extent property linking them.
