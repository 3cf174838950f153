/** The single-box tiler: the best arrangement of one box type in one space,
    chosen among uniform grids and interlocked (brick-bond) layers, over both
    ways of laying the space down. */
module Tiler {
  import opened Basics

  /** A positive length: the tiler runs only once every dimension is
      positive. */
  type Pos = n: nat | n > 0 witness 1

  /** One of the tiler's own six rotations, with its fixed stability weight. */
  datatype TileOrientation = TileOrientation(l: Pos, w: Pos, h: Pos, name: string, stability: real)

  /** The space's footprint, normal or with length and width swapped. */
  datatype Variant = Variant(L: Pos, W: Pos, swapped: bool)

  /** One row of an interlocked layer: `countL` boxes of footprint boxL × boxW
      side by side along the length. */
  datatype Row = Row(rotated: bool, countL: nat, boxL: nat, boxW: nat)

  /** A tiling result. `countL`/`countW` are absent for an interlocked layer;
      `patternRows` is present only for one. */
  datatype Tile = Tile(
    pattern: string,
    countL: Option<nat>, countW: Option<nat>,
    layers: nat, perLayer: nat, total: nat,
    boxL: nat, boxW: nat, boxH: nat,
    usedL: nat, usedW: nat, usedH: nat,
    patternRows: Option<seq<Row>>,
    palletSwapped: bool,
    stabilityScore: real, volumeEfficiency: real)

  /** The result reported when nothing fits or an input is not positive. */
  function EmptyTile(): (t: Tile)
    ensures t.total == 0 && t.pattern == "none"
  {
    Tile("none", Some(0), Some(0), 0, 0, 0, 0, 0, 0, 0, 0, 0, None, false, 0.0, 0.0)
  }

  /** The tiler's rotations: the two upright ones (weight 1.0), then, when
      allowed, two laid on a side (0.9) and two laid on an end (0.85). */
  function TileOrientations(l: Pos, w: Pos, h: Pos, allowVerticalFlip: bool): (r: seq<TileOrientation>)
    ensures |r| == if allowVerticalFlip then 6 else 2
  {
    [TileOrientation(l, w, h, "upright", 1.0), TileOrientation(w, l, h, "upright-rotated", 1.0)] +
    (if allowVerticalFlip then
       [TileOrientation(w, h, l, "laid-side-l", 0.9), TileOrientation(l, h, w, "laid-side-w", 0.9),
        TileOrientation(h, l, w, "laid-h-l", 0.85), TileOrientation(h, w, l, "laid-h-w", 0.85)]
     else [])
  }

  function Variants(spaceL: Pos, spaceW: Pos): seq<Variant>
  {
    [Variant(spaceL, spaceW, false), Variant(spaceW, spaceL, true)]
  }

  function Suffix(v: Variant): string
  {
    if v.swapped then "-pallet-swapped" else ""
  }


  function MaxR(a: real, b: real): real { if a >= b then a else b }
  function MinR(a: real, b: real): real { if a <= b then a else b }

  /** A non-negative quotient. */
  function Quotient(x: real, y: real): (q: real)
    requires x >= 0.0 && y > 0.0
    ensures q >= 0.0
  {
    x / y
  }

  /** The uniform grid's stability heuristic: the orientation's weight,
      discounted for elongated footprints and for tall boxes. */
  function UniformStability(o: TileOrientation): real
  {
    var big := MaxR(o.l as real, o.w as real);
    var aspectRatio := Quotient(big, MinR(o.l as real, o.w as real));
    var heightRatio := Quotient(o.h as real, big);
    o.stability * (1.0 / (1.0 + aspectRatio * 0.1)) * (1.0 / (1.0 + heightRatio * 0.2))
  }

  /** Share of the space's volume taken by the boxes. */
  function Efficiency(boxesVolume: int, spaceVolume: int): real
    requires spaceVolume > 0
  {
    boxesVolume as real / spaceVolume as real
  }

  lemma SpaceVolumePositive(v: Variant, spaceH: Pos)
    ensures v.L * v.W * spaceH > 0
  {
    MulPositive(v.L, v.W);
    MulPositive(v.L * v.W, spaceH);
  }

  /** The uniform grid's shape: along each axis the count is the largest one
      whose extent stays inside the space, and the total is their product. */
  ghost predicate UniformShape(t: Tile, o: TileOrientation, v: Variant, spaceH: nat)
  {
    t.countL.Some? && t.countW.Some? &&
    t.usedL == t.countL.value * o.l <= v.L < t.usedL + o.l &&
    t.usedW == t.countW.value * o.w <= v.W < t.usedW + o.w &&
    t.usedH == t.layers * o.h <= spaceH < t.usedH + o.h &&
    t.perLayer == t.countL.value * t.countW.value &&
    t.total == t.perLayer * t.layers && t.total > 0 &&
    t.boxL == o.l && t.boxW == o.w && t.boxH == o.h && t.palletSwapped == v.swapped
  }

  /** Uniform grid tiling: as many boxes as fit along each axis. */
  function FitPattern(o: TileOrientation, v: Variant, spaceH: Pos): (r: Option<Tile>)
    ensures r.Some? <==> o.l <= v.L && o.w <= v.W && o.h <= spaceH
    ensures r.Some? ==> UniformShape(r.value, o, v, spaceH)
  {
    var countL := v.L / o.l;
    var countW := v.W / o.w;
    var layers := spaceH / o.h;
    DivFloor(v.L, o.l);
    DivFloor(v.W, o.w);
    DivFloor(spaceH, o.h);
    if countL == 0 || countW == 0 || layers == 0 then None
    else
      var perLayer := countL * countW;
      MulPositive(countL, countW);
      MulPositive(perLayer, layers);
      SpaceVolumePositive(v, spaceH);
      Some(Tile(o.name + Suffix(v), Some(countL), Some(countW), layers, perLayer, perLayer * layers,
                o.l, o.w, o.h, countL * o.l, countW * o.w, layers * o.h,
                None, v.swapped, UniformStability(o),
                Efficiency(countL * o.l * countW * o.w * layers * o.h, v.L * v.W * spaceH)))
  }

  /** Total width of the rows. */
  function RowsWidth(rows: seq<Row>): nat
  {
    if rows == [] then 0 else RowsWidth(rows[..|rows| - 1]) + rows[|rows| - 1].boxW
  }

  /** Boxes in one layer. */
  function RowsCount(rows: seq<Row>): nat
  {
    if rows == [] then 0 else RowsCount(rows[..|rows| - 1]) + rows[|rows| - 1].countL
  }

  /** Length used by the longest row. */
  function RowsLength(rows: seq<Row>): nat
  {
    if rows == [] then 0 else Max(RowsLength(rows[..|rows| - 1]), rows[|rows| - 1].countL * rows[|rows| - 1].boxL) as nat
  }

  /** Adding one row to a layer. */
  lemma AppendRow(rows: seq<Row>, row: Row)
    ensures RowsWidth(rows + [row]) == RowsWidth(rows) + row.boxW
    ensures RowsCount(rows + [row]) == RowsCount(rows) + row.countL
    ensures RowsLength(rows + [row]) == Max(RowsLength(rows), row.countL * row.boxL)
  {
    assert (rows + [row])[..|rows|] == rows;
  }

  /** Row number `index` of an interlocked layer: turned 90° on odd rows,
      made of the box's own footprint, and holding as many boxes as fit
      along the length (at least one). */
  ghost predicate RowShape(row: Row, o: TileOrientation, palletL: nat, index: nat)
  {
    row.rotated == (index % 2 == 1) &&
    (if row.rotated then row.boxL == o.w && row.boxW == o.l else row.boxL == o.l && row.boxW == o.w) &&
    row.boxL > 0 && row.countL == palletL / row.boxL && row.countL > 0
  }

  /** Every row of the layer has the shape of its position. */
  ghost predicate Shaped(rows: seq<Row>, o: TileOrientation, palletL: nat)
  {
    forall k :: 0 <= k < |rows| ==> RowShape(rows[k], o, palletL, k)
  }

  /** A row holds as many boxes as fit along the length. */
  lemma RowFillsLength(row: Row, o: TileOrientation, palletL: nat, index: nat)
    requires RowShape(row, o, palletL, index)
    ensures row.countL * row.boxL <= palletL < (row.countL + 1) * row.boxL
  {
    DivFloor(palletL, row.boxL);
  }

  /** One pass of the row loop: the row that follows `rows` (its index is
      the row count) in an interlocked layer when `remainingW`
      of the width is left: there is none once the width left is below the
      box's narrower side or below this row's width, or when the row would
      hold no box; otherwise it has the shape of its position. */
  function NextRow(o: TileOrientation, palletL: nat, remainingW: nat, rows: seq<Row>): (r: Option<Row>)
    ensures r.Some? ==> 0 < r.value.boxW <= remainingW
  {
    var rotated := |rows| % 2 == 1;
    var rowL := if rotated then o.w else o.l;
    var rowW := if rotated then o.l else o.w;
    if remainingW < Min(o.l, o.w) || remainingW < rowW || palletL / rowL == 0 then None
    else Some(Row(rotated, palletL / rowL, rowL, rowW))
  }

  /** There is no next row exactly when the width left is below this row's
      width or the length is below this row's length. */
  lemma NextRowStops(o: TileOrientation, palletL: nat, remainingW: nat, rows: seq<Row>)
    ensures NextRow(o, palletL, remainingW, rows).None? <==>
      remainingW < (if |rows| % 2 == 1 then o.l else o.w) || palletL < (if |rows| % 2 == 1 then o.w else o.l)
  {
    DivFloor(palletL, if |rows| % 2 == 1 then o.w else o.l);
  }

  /** A next row has the shape of its position. */
  lemma NextRowShape(o: TileOrientation, palletL: nat, remainingW: nat, rows: seq<Row>)
    requires NextRow(o, palletL, remainingW, rows).Some?
    ensures RowShape(NextRow(o, palletL, remainingW, rows).value, o, palletL, |rows|)
  {
  }

  /** The interlocked layer: rows are appended to `rows` while a next row
      exists. */
  function LayerRows(o: TileOrientation, palletL: nat, remainingW: nat, rows: seq<Row>): (r: seq<Row>)
    decreases remainingW
  {
    match NextRow(o, palletL, remainingW, rows)
    case None => rows
    case Some(row) =>
      AppendRow(rows, row);
      LayerRows(o, palletL, remainingW - row.boxW, rows + [row])
  }

  /** One step of the layer: it ends when there is no next row, and
      otherwise continues from the next row. */
  lemma LayerRowsStep(o: TileOrientation, palletL: nat, remainingW: nat, rows: seq<Row>)
    ensures NextRow(o, palletL, remainingW, rows).None? ==> LayerRows(o, palletL, remainingW, rows) == rows
    ensures NextRow(o, palletL, remainingW, rows).Some? ==>
      var row := NextRow(o, palletL, remainingW, rows).value;
      LayerRows(o, palletL, remainingW, rows) == LayerRows(o, palletL, remainingW - row.boxW, rows + [row])
  {
  }

  /** Every row of an interlocked layer has the shape of its position. */
  lemma {:induction false} LayerRowsShaped(o: TileOrientation, palletL: nat, remainingW: nat, rows: seq<Row>)
    requires Shaped(rows, o, palletL)
    ensures Shaped(LayerRows(o, palletL, remainingW, rows), o, palletL)
    decreases remainingW
  {
    match NextRow(o, palletL, remainingW, rows)
    case None =>
    case Some(row) =>
      NextRowShape(o, palletL, remainingW, rows);
      var next := rows + [row];
      forall k | 0 <= k < |next|
        ensures RowShape(next[k], o, palletL, k)
      {
        if k < |rows| {
          assert next[k] == rows[k];
        }
      }
      LayerRowsShaped(o, palletL, remainingW - row.boxW, next);
  }

  /** No row of a shaped layer is longer than the space. */
  lemma {:induction false} RowsLengthBound(rows: seq<Row>, o: TileOrientation, palletL: nat)
    requires Shaped(rows, o, palletL)
    ensures RowsLength(rows) <= palletL
  {
    if rows != [] {
      var init := rows[..|rows| - 1];
      assert Shaped(init, o, palletL) by {
        forall k | 0 <= k < |init|
          ensures RowShape(init[k], o, palletL, k)
        {
          assert init[k] == rows[k];
        }
      }
      RowsLengthBound(init, o, palletL);
      RowFillsLength(rows[|rows| - 1], o, palletL, |rows| - 1);
    }
  }

  /** The layer's rows take up at most the width that was left, and the
      layer stops only when no next row exists. */
  lemma {:induction false} LayerRowsComplete(o: TileOrientation, palletL: nat, remainingW: nat, rows: seq<Row>)
    ensures var all := LayerRows(o, palletL, remainingW, rows);
      RowsWidth(all) <= RowsWidth(rows) + remainingW &&
      NextRow(o, palletL, remainingW + RowsWidth(rows) - RowsWidth(all), all).None?
    decreases remainingW
  {
    match NextRow(o, palletL, remainingW, rows)
    case None =>
    case Some(row) =>
      var next := rows + [row];
      AppendRow(rows, row);
      LayerRowsComplete(o, palletL, remainingW - row.boxW, next);
      assert LayerRows(o, palletL, remainingW, rows) == LayerRows(o, palletL, remainingW - row.boxW, next);
      assert remainingW - row.boxW + RowsWidth(next) == remainingW + RowsWidth(rows);
  }

  /** The interlocked layer of the whole space. */
  function MixedLayer(o: TileOrientation, v: Variant): seq<Row>
  {
    LayerRows(o, v.L, v.W, [])
  }

  /** Interlocked layer: rows alternating 90°, for a box whose footprint is
      not square. */
  function MixedTile(o: TileOrientation, v: Variant, spaceH: Pos): Option<Tile>
  {
    var layers := spaceH / o.h;
    var rows := MixedLayer(o, v);
    if o.l == o.w || layers == 0 || rows == [] then None
    else Some(MixedOf(o, v, spaceH, layers, rows, RowsCount(rows), RowsLength(rows), RowsWidth(rows)))
  }

  /** The interlocked layer exists for a non-square footprint that fits the
      height and leaves room for a row; its rows fit the space's width and
      length, and each row holds as many boxes as fit along the length. */
  lemma MixedTileShape(o: TileOrientation, v: Variant, spaceH: Pos)
    ensures var r := MixedTile(o, v, spaceH);
      (r.Some? <==> o.l != o.w && o.h <= spaceH && MixedLayer(o, v) != []) &&
      (r.Some? ==>
        var t := r.value;
        t.patternRows == Some(MixedLayer(o, v)) &&
        Shaped(t.patternRows.value, o, v.L) &&
        t.usedW == RowsWidth(t.patternRows.value) <= v.W &&
        t.usedL == RowsLength(t.patternRows.value) <= v.L &&
        t.usedH == t.layers * o.h <= spaceH < t.usedH + o.h &&
        t.perLayer == RowsCount(t.patternRows.value) &&
        t.total == t.perLayer * t.layers && t.palletSwapped == v.swapped)
  {
    DivFloor(spaceH, o.h);
    LayerRowsComplete(o, v.L, v.W, []);
    LayerRowsShaped(o, v.L, v.W, []);
    RowsLengthBound(MixedLayer(o, v), o, v.L);
  }

  /** The interlocked tile with the given layers and rows, and the row
      loop's count and extents. */
  function MixedOf(o: TileOrientation, v: Variant, spaceH: Pos, layers: nat, rows: seq<Row>,
                   perLayer: nat, usedL: nat, usedW: nat): (t: Tile)
    ensures t.patternRows == Some(rows) && t.layers == layers && t.perLayer == perLayer
    ensures t.usedL == usedL && t.usedW == usedW && t.usedH == layers * o.h
    ensures t.total == perLayer * layers && t.palletSwapped == v.swapped
  {
    SpaceVolumePositive(v, spaceH);
    Tile("mixed-" + o.name + Suffix(v), None, None, layers, perLayer, perLayer * layers,
         o.l, o.w, o.h, usedL, usedW, layers * o.h,
         Some(rows), v.swapped, o.stability * 1.15,
         Efficiency(perLayer * o.l * o.w * o.h * layers, v.L * v.W * spaceH))
  }

  /** The row loop of the interlocked layer, as the engine runs it. */
  method LayRows(o: TileOrientation, palletL: nat, palletW: nat)
    returns (patternRows: seq<Row>, totalInLayer: nat, usedL: nat, usedW: nat)
    ensures patternRows == LayerRows(o, palletL, palletW, [])
    ensures totalInLayer == RowsCount(patternRows)
    ensures usedL == RowsLength(patternRows) && usedW == RowsWidth(patternRows)
  {
    patternRows := [];
    var remainingW: nat := palletW;
    totalInLayer := 0;
    usedL := 0;
    usedW := 0;
    while remainingW >= Min(o.l, o.w)
      invariant LayerRows(o, palletL, remainingW, patternRows) == LayerRows(o, palletL, palletW, [])
      invariant totalInLayer == RowsCount(patternRows)
      invariant usedW == RowsWidth(patternRows) && usedL == RowsLength(patternRows)
      decreases remainingW
    {
      LayerRowsStep(o, palletL, remainingW, patternRows);
      var next := NextRow(o, palletL, remainingW, patternRows);
      if next.None? {
        break;
      }
      var row := next.value;
      var cols := row.countL;
      AppendRow(patternRows, row);
      patternRows := patternRows + [row];
      totalInLayer := totalInLayer + cols;
      usedL := Max(usedL, cols * row.boxL);
      usedW := usedW + row.boxW;
      remainingW := remainingW - row.boxW;
    }
  }

  /** The interlocked layer as the engine builds it. */
  method FitMixed(o: TileOrientation, v: Variant, spaceH: Pos) returns (r: Option<Tile>)
    ensures r == MixedTile(o, v, spaceH)
  {
    r := None;
    var layers := spaceH / o.h;
    if o.l != o.w && layers != 0 {
      var patternRows, totalInLayer, usedL, usedW := LayRows(o, v.L, v.W);
      if |patternRows| != 0 {
        r := Some(MixedOf(o, v, spaceH, layers, patternRows, totalInLayer, usedL, usedW));
      }
    }
  }

  /** The candidates of one orientation in one variant, as the engine
      pushes them. */
  method OrientationCandidates(o: TileOrientation, v: Variant, spaceH: Pos) returns (found: seq<Tile>)
    ensures found == CandidatesFor(o, v, spaceH)
  {
    found := [];
    var uniform := FitPattern(o, v, spaceH);
    if uniform.Some? {
      found := found + [uniform.value];
    }
    var mixed := FitMixed(o, v, spaceH);
    if mixed.Some? {
      found := found + [mixed.value];
    }
  }

  /** The candidates one orientation contributes in one variant: the uniform
      grid, then the interlocked layer, each when it exists. */
  function CandidatesFor(o: TileOrientation, v: Variant, spaceH: Pos): seq<Tile>
  {
    (if FitPattern(o, v, spaceH).Some? then [FitPattern(o, v, spaceH).value] else []) +
    (if MixedTile(o, v, spaceH).Some? then [MixedTile(o, v, spaceH).value] else [])
  }

  function CandidatesOver(os: seq<TileOrientation>, v: Variant, spaceH: Pos): seq<Tile>
  {
    if os == [] then []
    else CandidatesOver(os[..|os| - 1], v, spaceH) + CandidatesFor(os[|os| - 1], v, spaceH)
  }

  /** One more orientation scanned. */
  lemma CandidatesOverStep(os: seq<TileOrientation>, i: nat, v: Variant, spaceH: Pos)
    requires i < |os|
    ensures CandidatesOver(os[..i + 1], v, spaceH) == CandidatesOver(os[..i], v, spaceH) + CandidatesFor(os[i], v, spaceH)
  {
    assert os[..i + 1][..i] == os[..i];
  }

  /** All candidates in the engine's order: variants outermost, then
      orientations. */
  /** The candidates over several variants, variant by variant. */
  function CandidatesAcross(os: seq<TileOrientation>, vs: seq<Variant>, spaceH: Pos): seq<Tile>
  {
    if vs == [] then []
    else CandidatesAcross(os, vs[..|vs| - 1], spaceH) + CandidatesOver(os, vs[|vs| - 1], spaceH)
  }

  function TileCandidates(boxL: Pos, boxW: Pos, boxH: Pos, spaceL: Pos, spaceW: Pos, spaceH: Pos,
                          allowVerticalFlip: bool): seq<Tile>
  {
    CandidatesAcross(TileOrientations(boxL, boxW, boxH, allowVerticalFlip), Variants(spaceL, spaceW), spaceH)
  }


  /** A candidate stays inside the space laid down as its variant says, and
      its total is its per-layer count times its layers. */
  ghost predicate FitsSpace(t: Tile, spaceL: nat, spaceW: nat, spaceH: nat)
  {
    t.usedL <= (if t.palletSwapped then spaceW else spaceL) &&
    t.usedW <= (if t.palletSwapped then spaceL else spaceW) &&
    t.usedH <= spaceH &&
    t.total == t.perLayer * t.layers
  }

  lemma {:induction false} CandidatesOverFit(os: seq<TileOrientation>, v: Variant, spaceL: Pos, spaceW: Pos, spaceH: Pos)
    requires v in Variants(spaceL, spaceW)
    ensures forall t :: t in CandidatesOver(os, v, spaceH) ==> FitsSpace(t, spaceL, spaceW, spaceH)
  {
    if os != [] {
      CandidatesOverFit(os[..|os| - 1], v, spaceL, spaceW, spaceH);
      MixedTileShape(os[|os| - 1], v, spaceH);
    }
  }

  /** Every candidate the tiler considers fits the space. */
  lemma {:induction false} CandidatesAcrossFit(os: seq<TileOrientation>, vs: seq<Variant>,
                                              spaceL: Pos, spaceW: Pos, spaceH: Pos)
    requires forall i :: 0 <= i < |vs| ==> vs[i] in Variants(spaceL, spaceW)
    ensures forall t :: t in CandidatesAcross(os, vs, spaceH) ==> FitsSpace(t, spaceL, spaceW, spaceH)
  {
    if vs != [] {
      CandidatesAcrossFit(os, vs[..|vs| - 1], spaceL, spaceW, spaceH);
      CandidatesOverFit(os, vs[|vs| - 1], spaceL, spaceW, spaceH);
    }
  }

  lemma CandidatesFit(boxL: Pos, boxW: Pos, boxH: Pos, spaceL: Pos, spaceW: Pos, spaceH: Pos, allowVerticalFlip: bool)
    ensures forall t :: t in TileCandidates(boxL, boxW, boxH, spaceL, spaceW, spaceH, allowVerticalFlip) ==>
      FitsSpace(t, spaceL, spaceW, spaceH)
  {
    CandidatesAcrossFit(TileOrientations(boxL, boxW, boxH, allowVerticalFlip), Variants(spaceL, spaceW),
                        spaceL, spaceW, spaceH);
  }


  /** The engine's comparator `cmp(a, b) < 0`: a total more than 1 higher
      wins; otherwise a stability score more than 0.05 higher; otherwise the
      higher volume efficiency. */
  predicate TileBefore(a: Tile, b: Tile)
  {
    var totalDiff := b.total - a.total;
    var stabilityDiff := b.stabilityScore - a.stabilityScore;
    if totalDiff > 1 || totalDiff < -1 then totalDiff < 0
    else if stabilityDiff > 0.05 || stabilityDiff < -0.05 then stabilityDiff < 0.0
    else b.volumeEfficiency - a.volumeEfficiency < 0.0
  }

  /** The tolerances never merge different values: totals are equal or more
      than 1 apart, stability scores equal or more than 0.05 apart. Under this
      condition the comparator is a strict weak order. */
  ghost predicate Separated(ts: seq<Tile>)
  {
    forall i, j :: 0 <= i < |ts| && 0 <= j < |ts| ==>
      (ts[i].total == ts[j].total || ts[i].total > ts[j].total + 1 || ts[j].total > ts[i].total + 1) &&
      (ts[i].stabilityScore == ts[j].stabilityScore ||
       ts[i].stabilityScore > ts[j].stabilityScore + 0.05 || ts[j].stabilityScore > ts[i].stabilityScore + 0.05)
  }

  lemma SeparatedIsStrictWeakOrder(ts: seq<Tile>)
    requires Separated(ts)
    ensures StrictWeakOrderOn(ts, TileBefore)
  {
    forall i, j, k | 0 <= i < |ts| && 0 <= j < |ts| && 0 <= k < |ts| && TileBefore(ts[i], ts[j])
      ensures TileBefore(ts[i], ts[k]) || TileBefore(ts[k], ts[j])
    {
    }
  }

  /** The engine's inner scan: every orientation in one variant. */
  method ScanOrientations(orientations: seq<TileOrientation>, v: Variant, spaceH: Pos)
    returns (found: seq<Tile>)
    ensures found == CandidatesOver(orientations, v, spaceH)
  {
    found := [];
    for oi := 0 to |orientations|
      invariant found == CandidatesOver(orientations[..oi], v, spaceH)
    {
      CandidatesOverStep(orientations, oi, v, spaceH);
      var more := OrientationCandidates(orientations[oi], v, spaceH);
      found := found + more;
    }
    assert orientations[..|orientations|] == orientations;
  }

  /** The engine's scan: every variant, and within it every orientation. */
  method CollectCandidates(orientations: seq<TileOrientation>, variants: seq<Variant>, spaceH: Pos)
    returns (candidates: seq<Tile>)
    ensures candidates == CandidatesAcross(orientations, variants, spaceH)
  {
    candidates := [];
    for vi := 0 to |variants|
      invariant candidates == CandidatesAcross(orientations, variants[..vi], spaceH)
    {
      assert variants[..vi + 1][..vi] == variants[..vi];
      var found := ScanOrientations(orientations, variants[vi], spaceH);
      candidates := candidates + found;
    }
    assert variants[..|variants|] == variants;
  }

  /** `t` ranks no higher than `best` in the order the comparator applies
      when its tolerances merge nothing: by total, then stability score,
      then volume efficiency. */
  predicate RanksAtMost(t: Tile, best: Tile)
  {
    t.total < best.total ||
    (t.total == best.total &&
     (t.stabilityScore < best.stabilityScore ||
      (t.stabilityScore == best.stabilityScore && t.volumeEfficiency <= best.volumeEfficiency)))
  }

  /** A candidate that no other candidate precedes holds the most boxes,
      then has the highest stability among those, then the highest volume
      efficiency among those, when the tolerances merge no different
      values. */
  lemma SelectedIsBest(ts: seq<Tile>, k: nat)
    requires k < |ts| && Separated(ts)
    requires forall j :: 0 <= j < |ts| ==> !TileBefore(ts[j], ts[k])
    ensures forall t :: t in ts ==> RanksAtMost(t, ts[k])
  {
    forall t | t in ts
      ensures RanksAtMost(t, ts[k])
    {
      var j :| 0 <= j < |ts| && ts[j] == t;
      assert !TileBefore(t, ts[k]);
    }
  }

  /** `best` is the candidate `bestTile` keeps: the candidate at some index
      `k` that no later candidate precedes; when the tolerances merge no
      different values, no candidate at all precedes it and it precedes
      every earlier one, so it is the first of the sorted candidates. */
  ghost predicate TileChosen(cands: seq<Tile>, best: Tile)
  {
    exists k :: 0 <= k < |cands| && best == cands[k] &&
      (forall j :: k < j < |cands| ==> !TileBefore(cands[j], cands[k])) &&
      (Separated(cands) ==>
         (forall j :: 0 <= j < |cands| ==> !TileBefore(cands[j], cands[k])) &&
         forall j :: 0 <= j < k ==> TileBefore(cands[k], cands[j]))
  }

  /** bestTile: the first candidate of the engine's sort, or the empty result
      when an input is not positive or nothing fits. */
  method BestTile(boxL: nat, boxW: nat, boxH: nat, spaceL: nat, spaceW: nat, spaceH: nat,
                  allowVerticalFlip: bool) returns (best: Tile)
    ensures boxL == 0 || boxW == 0 || boxH == 0 || spaceL == 0 || spaceW == 0 || spaceH == 0 ==>
      best == EmptyTile()
    ensures boxL > 0 && boxW > 0 && boxH > 0 && spaceL > 0 && spaceW > 0 && spaceH > 0 ==>
      var cands := TileCandidates(boxL, boxW, boxH, spaceL, spaceW, spaceH, allowVerticalFlip);
      (cands == [] ==> best == EmptyTile()) &&
      (cands != [] ==> TileChosen(cands, best) && FitsSpace(best, spaceL, spaceW, spaceH)) &&
      (Separated(cands) ==> forall t :: t in cands ==> RanksAtMost(t, best))
  {
    if boxL == 0 || boxW == 0 || boxH == 0 || spaceL == 0 || spaceW == 0 || spaceH == 0 {
      return EmptyTile();
    }
    var candidates := CollectCandidates(TileOrientations(boxL, boxW, boxH, allowVerticalFlip),
                                        Variants(spaceL, spaceW), spaceH);
    if |candidates| == 0 {
      return EmptyTile();
    }
    CandidatesFit(boxL, boxW, boxH, spaceL, spaceW, spaceH, allowVerticalFlip);
    var k := FirstMinimal(candidates, TileBefore);
    best := candidates[k];
    if Separated(candidates) {
      SeparatedIsStrictWeakOrder(candidates);
      SelectedIsBest(candidates, k);
    }
    assert TileChosen(candidates, best);
  }
}
