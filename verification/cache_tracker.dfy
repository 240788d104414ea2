/**
 * The cache write tracker: a 32-bit dirty mask with one bit per 16-byte
 * line, set when the host writes the last byte of a line of the cache
 * mirror, and the two flush operations.
 */
module CacheTracker {
  import opened FxHeader
  import opened GsuState

  /** Bit j of a 32-bit mask. */
  predicate Bit(v: bv32, j: bv32)
    requires j < 32
  {
    v & (1 << j) != 0
  }

  /** The flag index FxCacheWriteAccess derives from a bus address: `(a & 0x1f0) >> 4`. */
  function CacheFlagIndex(a: bv16): (k: bv32)
    ensures k < 32
  {
    ((a & 0x1f0) >> 4) as bv32
  }

  /** The flag index is the 16-byte line number modulo 32. */
  lemma CacheFlagIndexIsLine(a: bv16)
    ensures CacheFlagIndex(a) == ((a / 16) % 32) as bv32
  {
  }

  /** True when a bus address is the last byte of its 16-byte line. */
  predicate EndsLine(a: bv16) {
    a & 0x00f == 0x00f
  }

  /** The mask bit of the line a bus address lies in: exactly the bit at its flag index. */
  function LineBit(a: bv16): (m: bv32)
    ensures m != 0
    ensures Bit(m, CacheFlagIndex(a))
    ensures m & (m - 1) == 0
  {
    1 << CacheFlagIndex(a)
  }

  /**
   * FxCacheWriteAccess: a write to the last byte of a line ORs in that
   * line's flag bit; a write anywhere else changes nothing. The lemmas below
   * state what this means for the mask.
   */
  function CacheWriteAccess(c: Cache, a: bv16): (r: Cache)
    ensures r == c.(vCacheFlags := r.vCacheFlags)
    ensures !EndsLine(a) ==> r == c
    ensures EndsLine(a) ==> r.vCacheFlags == c.vCacheFlags | LineBit(a)
  {
    if EndsLine(a) then c.(vCacheFlags := c.vCacheFlags | LineBit(a)) else c
  }

  /** No cache write clears a flag. */
  lemma CacheWriteKeepsFlags(c: Cache, a: bv16)
    ensures CacheWriteAccess(c, a).vCacheFlags & c.vCacheFlags == c.vCacheFlags
  {
    OrKeeps(c.vCacheFlags, LineBit(a));
  }

  /** A cache write touches no flag but its own line's. */
  lemma CacheWriteTouchesOnlyItsLine(c: Cache, a: bv16)
    ensures CacheWriteAccess(c, a).vCacheFlags & !LineBit(a) == c.vCacheFlags & !LineBit(a)
  {
    OrOutside(c.vCacheFlags, LineBit(a));
  }

  /** Writing the last byte of a line sets the line's flag. */
  lemma CacheWriteSetsLineFlag(c: Cache, a: bv16)
    requires EndsLine(a)
    ensures CacheWriteAccess(c, a).vCacheFlags & LineBit(a) != 0
  {
    OrSets(c.vCacheFlags, LineBit(a));
  }

  lemma OrKeeps(v: bv32, m: bv32)
    ensures (v | m) & v == v
  {
  }

  lemma OrOutside(v: bv32, m: bv32)
    ensures (v | m) & !m == v & !m
  {
  }

  lemma OrSets(v: bv32, m: bv32)
    requires m != 0
    ensures (v | m) & m != 0
  {
  }

  /**
   * Bit by bit: after a write, flag j is set exactly when it was set before
   * or the write ended a line with flag index j.
   */
  lemma CacheWriteAccessBit(c: Cache, a: bv16, j: bv32)
    requires j < 32
    ensures Bit(CacheWriteAccess(c, a).vCacheFlags, j) <==>
      Bit(c.vCacheFlags, j) || (EndsLine(a) && j == CacheFlagIndex(a))
  {
    if EndsLine(a) {
      OrBit(c.vCacheFlags, CacheFlagIndex(a), j);
    }
  }

  /** ORing in bit k sets bit k and keeps every other bit. */
  lemma OrBit(v: bv32, k: bv32, j: bv32)
    requires k < 32 && j < 32
    ensures Bit(v | (1 << k), j) <==> Bit(v, j) || j == k
  {
  }

  /**
   * The flag bit is not the line's position in the cache: the cache starts at
   * bus address 0x3100, whose line gets bit 16, and the line at 0x3200 gets bit 0.
   */
  lemma CacheFlagIsRotatedLine(a: bv16)
    requires 0x3100 <= a < 0x3300
    ensures CacheFlagIndex(a) == (((a - 0x3100) / 16 + 16) % 32) as bv32
    ensures CacheFlagIndex(0x310f) == 16 && CacheFlagIndex(0x320f) == 0
  {
  }

  /** A run of host writes into the cache mirror, in order. */
  function CacheWrites(c: Cache, addrs: seq<bv16>): (r: Cache)
    ensures r == c.(vCacheFlags := r.vCacheFlags)
    decreases |addrs|
  {
    if |addrs| == 0 then c else CacheWrites(CacheWriteAccess(c, addrs[0]), addrs[1..])
  }

  /**
   * After a run of writes, a flag bit is set exactly when it was set before
   * or some write in the run ended a line with that flag index.
   */
  lemma {:induction false} CacheWritesFlags(c: Cache, addrs: seq<bv16>, j: bv32)
    requires j < 32
    ensures Bit(CacheWrites(c, addrs).vCacheFlags, j) <==>
      Bit(c.vCacheFlags, j) ||
      exists k :: 0 <= k < |addrs| && EndsLine(addrs[k]) && CacheFlagIndex(addrs[k]) == j
    decreases |addrs|
  {
    if |addrs| > 0 {
      var c1 := CacheWriteAccess(c, addrs[0]);
      CacheWriteAccessBit(c, addrs[0], j);
      CacheWritesFlags(c1, addrs[1..], j);
      if exists k :: 0 <= k < |addrs[1..]| && EndsLine(addrs[1..][k]) && CacheFlagIndex(addrs[1..][k]) == j {
        var k :| 0 <= k < |addrs[1..]| && EndsLine(addrs[1..][k]) && CacheFlagIndex(addrs[1..][k]) == j;
        assert addrs[k + 1] == addrs[1..][k];
      }
      if exists k :: 0 <= k < |addrs| && EndsLine(addrs[k]) && CacheFlagIndex(addrs[k]) == j {
        var k :| 0 <= k < |addrs| && EndsLine(addrs[k]) && CacheFlagIndex(addrs[k]) == j;
        if k > 0 {
          assert addrs[1..][k - 1] == addrs[k];
        }
      }
    }
  }

  /**
   * Writing the sixteen bytes of one line in order: the first fifteen leave
   * the mask alone, the sixteenth sets the line's bit.
   */
  lemma LineSetOnlyByLastByte(c: Cache, line: bv16, k: bv16)
    requires line & 0xf == 0 && line <= 0xfff0 && k < 16
    ensures k < 15 ==> CacheWriteAccess(c, line + k) == c
    ensures k == 15 ==> Bit(CacheWriteAccess(c, line + k).vCacheFlags, CacheFlagIndex(line))
  {
    assert (line + k) & 0x1f0 == line & 0x1f0;
  }

  /** FxFlushCache: clear the mask, the cache base and the cache-active flag. */
  function FlushCache(c: Cache): (r: Cache)
    ensures r.vCacheFlags == 0 && r.vCacheBaseReg == 0 && !r.bCacheActive
  {
    Cache(0, 0, false)
  }

  /** fx_flushCache: as FlushCache, but the cache base is kept. */
  function FlushCacheKeepBase(c: Cache): (r: Cache)
    ensures r.vCacheFlags == 0 && !r.bCacheActive && r.vCacheBaseReg == c.vCacheBaseReg
  {
    c.(vCacheFlags := 0, bCacheActive := false)
  }

  /** After either flush, the mask records exactly the lines completed since. */
  lemma FlushThenWrites(c: Cache, addrs: seq<bv16>, j: bv32)
    requires j < 32
    ensures Bit(CacheWrites(FlushCache(c), addrs).vCacheFlags, j) <==>
      exists k :: 0 <= k < |addrs| && EndsLine(addrs[k]) && CacheFlagIndex(addrs[k]) == j
    ensures Bit(CacheWrites(FlushCacheKeepBase(c), addrs).vCacheFlags, j) <==>
      exists k :: 0 <= k < |addrs| && EndsLine(addrs[k]) && CacheFlagIndex(addrs[k]) == j
  {
    CacheWritesFlags(FlushCache(c), addrs, j);
    CacheWritesFlags(FlushCacheKeepBase(c), addrs, j);
  }
}
