/**
 * The screen pointer cache of fx_computeScreenPointers.
 *
 * The plot routines find the RAM address of the 8x8 tile at tile row r and
 * tile column c as apvScreen[r] + x[c]. The tables depend only on the
 * screen base, the draw mode and the screen height, and are rebuilt only
 * when one of them changed.
 *
 * The twelve source formulas are kept as written, on uint32 (bv32) values;
 * ColumnReference and XReference restate them as tile layouts, and
 * ShiftFormulasMatchLayout proves the two agree.
 */
module ScreenPointers {
  import opened GsuState

  /** Height/mode pairs that select one of the source's formulas. */
  predicate HasLayout(h: nat, m: nat) {
    (h == 128 || h == 160 || h == 192 || h == 256) && m < 4
  }

  /**
   * Column table formula: offset of column i from the screen base. Every
   * offset is aligned to a 16-byte tile, and for i < 32 it is below one
   * bank's size (64 KB).
   */
  function ColumnShift(h: nat, m: nat, i: bv32): (r: bv32)
    requires HasLayout(h, m)
    ensures r & 0xf == 0
    ensures i < 32 ==> r < 0x1_0000
  {
    if h == 256 then
      if m == 0 then ((i & 0x10) << 9) + ((i & 0xf) << 8)
      else if m == 1 then ((i & 0x10) << 10) + ((i & 0xf) << 9)
      else ((i & 0x10) << 11) + ((i & 0xf) << 10)
    else
      if m == 0 then i << 4
      else if m == 1 then i << 5
      else i << 6
  }

  /**
   * x-offset table formula. Every offset is aligned to a 16-byte tile, and
   * for i < 32 it is below one bank's size (64 KB).
   */
  function XShift(h: nat, m: nat, i: bv32): (r: bv32)
    requires HasLayout(h, m)
    ensures r & 0xf == 0
    ensures i < 32 ==> r < 0x1_0000
  {
    if h == 128 then
      if m == 0 then i << 8
      else if m == 1 then i << 9
      else i << 10
    else if h == 160 then
      if m == 0 then (i << 8) + (i << 6)
      else if m == 1 then (i << 9) + (i << 7)
      else (i << 10) + (i << 8)
    else if h == 192 then
      if m == 0 then (i << 8) + (i << 7)
      else if m == 1 then (i << 9) + (i << 8)
      else (i << 10) + (i << 9)
    else
      if m == 0 then ((i & 0x10) << 8) + ((i & 0xf) << 4)
      else if m == 1 then ((i & 0x10) << 9) + ((i & 0xf) << 5)
      else ((i & 0x10) << 10) + ((i & 0xf) << 6)
  }

  /** Bytes per 8x8 tile that the formulas assume: 2, 4, 8 and 8 bits per pixel. */
  function TileBytes(m: nat): nat {
    if m == 0 then 16 else if m == 1 then 32 else 64
  }

  /**
   * Offset of tile row i. Below height 256 tiles are stored column by column,
   * so consecutive rows are one tile apart. At height 256 the screen is four
   * 16x16-tile blocks; a block holds 256 tiles, row i lies in block row i / 16.
   */
  function ColumnReference(h: nat, m: nat, i: nat): nat {
    if h == 256 then (i / 16) * 512 * TileBytes(m) + (i % 16) * 16 * TileBytes(m)
    else i * TileBytes(m)
  }

  /**
   * Offset of tile column i. Below height 256 a column holds h / 8 tiles;
   * at height 256 consecutive columns of a block are one tile row (16 tiles) apart.
   */
  function XReference(h: nat, m: nat, i: nat): nat {
    if h == 256 then (i / 16) * 256 * TileBytes(m) + (i % 16) * TileBytes(m)
    else i * (h / 8) * TileBytes(m)
  }

  /** The shift formulas compute the tile layout, without wrap-around. */
  lemma ShiftFormulasMatchLayout(h: nat, m: nat, i: bv32)
    requires HasLayout(h, m) && i < 32
    ensures ColumnShift(h, m, i) as int == ColumnReference(h, m, i as int)
    ensures XShift(h, m, i) as int == XReference(h, m, i as int)
  {
    if h == 256 {
      TiledColumns(m, i);
      TiledRows(m, i);
    } else {
      FlatColumns(h, m, i);
      if h == 128 {
        FlatRows128(m, i);
      } else if h == 160 {
        FlatRows160(m, i);
      } else {
        FlatRows192(m, i);
      }
    }
  }

  lemma TiledColumns(m: nat, i: bv32)
    requires m < 4 && i < 32
    ensures ColumnShift(256, m, i) as int == ColumnReference(256, m, i as int)
  {
  }

  lemma TiledRows(m: nat, i: bv32)
    requires m < 4 && i < 32
    ensures XShift(256, m, i) as int == XReference(256, m, i as int)
  {
    if m == 0 {
      TiledRows2Bpp(i);
    } else if m == 1 {
      TiledRows4Bpp(i);
    } else {
      TiledRows8Bpp(m, i);
    }
  }

  lemma TiledRows2Bpp(i: bv32)
    requires i < 32
    ensures XShift(256, 0, i) as int == XReference(256, 0, i as int)
  {
  }

  lemma TiledRows4Bpp(i: bv32)
    requires i < 32
    ensures XShift(256, 1, i) as int == XReference(256, 1, i as int)
  {
  }

  lemma TiledRows8Bpp(m: nat, i: bv32)
    requires 2 <= m < 4 && i < 32
    ensures XShift(256, m, i) as int == XReference(256, m, i as int)
  {
  }

  lemma FlatColumns(h: nat, m: nat, i: bv32)
    requires HasLayout(h, m) && h != 256 && i < 32
    ensures ColumnShift(h, m, i) as int == ColumnReference(h, m, i as int)
  {
  }

  lemma FlatRows128(m: nat, i: bv32)
    requires m < 4 && i < 32
    ensures XShift(128, m, i) as int == XReference(128, m, i as int)
  {
  }

  lemma FlatRows160(m: nat, i: bv32)
    requires m < 4 && i < 32
    ensures XShift(160, m, i) as int == XReference(160, m, i as int)
  {
  }

  lemma FlatRows192(m: nat, i: bv32)
    requires m < 4 && i < 32
    ensures XShift(192, m, i) as int == XReference(192, m, i as int)
  {
  }

  lemma IndexRoundTrip(i: int)
    requires 0 <= i < 32
    ensures (i as bv32) as int == i
  {
    var b := i as bv5;
    assert b as int == i;
  }

  /** The 32 column pointers for the given base, height and mode. */
  function ColumnTable(base: int, h: nat, m: nat): (t: ScreenTable)
    requires HasLayout(h, m)
    ensures forall i :: 0 <= i < 32 ==> t[i] == base + ColumnReference(h, m, i)
  {
    var t := seq(32, i requires 0 <= i < 32 => base + ColumnShift(h, m, i as bv32) as int);
    assert forall i :: 0 <= i < 32 ==> t[i] == base + ColumnReference(h, m, i) by {
      forall i | 0 <= i < 32
        ensures t[i] == base + ColumnReference(h, m, i)
      {
        ShiftFormulasMatchLayout(h, m, i as bv32);
        IndexRoundTrip(i);
      }
    }
    t
  }

  /** The 32 x-offsets for the given height and mode. */
  function XTableFor(h: nat, m: nat): (t: XTable)
    requires HasLayout(h, m)
    ensures forall i :: 0 <= i < 32 ==> t[i] as int == XReference(h, m, i)
  {
    var t := seq(32, i requires 0 <= i < 32 => XShift(h, m, i as bv32));
    assert forall i :: 0 <= i < 32 ==> t[i] as int == XReference(h, m, i) by {
      forall i | 0 <= i < 32
        ensures t[i] as int == XReference(h, m, i)
      {
        ShiftFormulasMatchLayout(h, m, i as bv32);
        IndexRoundTrip(i);
      }
    }
    t
  }

  /** The guard of fx_computeScreenPointers: the mode, the height or the screen base changed. */
  predicate NeedsRecompute(s: Screen) {
    s.vMode != s.vPrevMode || s.vPrevScreenHeight != s.vScreenHeight || s.vSCBRDirty
  }

  /**
   * fx_computeScreenPointers: rebuild the tables when the mode, the height
   * or the screen base changed; a height or mode without a formula leaves the
   * tables as they were but still records the shadows.
   */
  function ComputeScreenPointers(s: Screen): (r: Screen)
    ensures r.vPrevMode == s.vMode && r.vPrevScreenHeight == s.vScreenHeight && !r.vSCBRDirty
    ensures !NeedsRecompute(s) ==> r == s
    ensures NeedsRecompute(s) && HasLayout(s.vScreenHeight, s.vMode) ==>
      forall i :: 0 <= i < 32 ==>
        r.apvScreen[i] == s.screenBase + ColumnReference(s.vScreenHeight, s.vMode, i) &&
        r.x[i] as int == XReference(s.vScreenHeight, s.vMode, i)
    ensures !HasLayout(s.vScreenHeight, s.vMode) ==> r.apvScreen == s.apvScreen && r.x == s.x
    ensures r == s.(vSCBRDirty := r.vSCBRDirty, vPrevMode := r.vPrevMode,
                    vPrevScreenHeight := r.vPrevScreenHeight, apvScreen := r.apvScreen, x := r.x)
  {
    if NeedsRecompute(s) then
      var h, m := s.vScreenHeight, s.vMode;
      var s1 := if HasLayout(h, m) then s.(apvScreen := ColumnTable(s.screenBase, h, m), x := XTableFor(h, m)) else s;
      s1.(vSCBRDirty := false, vPrevMode := m, vPrevScreenHeight := h)
    else
      s
  }

  /** A refresh leaves the screen as it was exactly when the guard is false. */
  lemma RefreshNoOpIffClean(s: Screen)
    ensures ComputeScreenPointers(s) == s <==> !NeedsRecompute(s)
  {
  }

  /** A second call with nothing changed in between leaves the state alone. */
  lemma ComputeScreenPointersIdempotent(s: Screen)
    ensures ComputeScreenPointers(ComputeScreenPointers(s)) == ComputeScreenPointers(s)
    ensures !NeedsRecompute(ComputeScreenPointers(s))
  {
  }

  /**
   * After reset the shadows hold ~0, which no decoded mode (at most 3) or
   * height (at most 256) equals, so the first call always recomputes.
   */
  lemma ResetShadowsForceRecompute(s: Screen)
    requires s.vPrevMode == NoPrevious && s.vPrevScreenHeight == NoPrevious
    requires s.vMode < 4 && s.vScreenHeight <= 256
    ensures NeedsRecompute(s)
    ensures HasLayout(s.vScreenHeight, s.vMode) ==>
      ComputeScreenPointers(s).apvScreen == ColumnTable(s.screenBase, s.vScreenHeight, s.vMode)
  {
  }
}
