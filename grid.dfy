/** Value-level pieces of the greedy height-map packer: its orientations,
    its 50 mm cell grid, its placements and its scoring rule. */
module Grid {
  import opened Basics

  /** Side of one height-map cell, in millimetres. */
  const Resolution: nat := 50

  /** Upper bound on the packer's main loop. */
  const MaxIterations: nat := 50000

  /** The packer's six edge permutations, named by which box edge goes along
      the container's length, width and height. */
  datatype Perm = LWH | LHW | WLH | WHL | HLW | HWL

  datatype PackOrientation = PackOrientation(l: nat, w: nat, h: nat, perm: Perm)

  /** A group as the packer sees it: `index` is its position in the caller's
      group list, `qty` the number of boxes to place. */
  datatype PackGroup = PackGroup(index: nat, id: string, l: nat, w: nat, h: nat, qty: nat, weight: real)

  /** A candidate position on the floor plan. */
  datatype Position = Position(posL: nat, posW: nat)

  /** One placed box. `slot` is the group's position in the packer's
      processing order, `groupIndex` its position in the caller's list;
      (x, y, z) is the box centre in the viewer's coordinates. */
  datatype Placement = Placement(
    slot: nat, groupIndex: nat, groupId: string,
    l: nat, w: nat, h: nat,
    localL: nat, localW: nat, localH: nat,
    x: real, y: real, z: real,
    volume: nat, weight: real, support: real, perm: Perm)

  /** The box (l, w, h) turned by `perm`. */
  function Permute(l: nat, w: nat, h: nat, perm: Perm): (o: PackOrientation)
    ensures o.perm == perm
  {
    match perm
    case LWH => PackOrientation(l, w, h, LWH)
    case LHW => PackOrientation(l, h, w, LHW)
    case WLH => PackOrientation(w, l, h, WLH)
    case WHL => PackOrientation(w, h, l, WHL)
    case HLW => PackOrientation(h, l, w, HLW)
    case HWL => PackOrientation(h, w, l, HWL)
  }

  /** All six permutations of the box edges, in the packer's order. */
  function SixPermutations(l: nat, w: nat, h: nat): seq<PackOrientation>
  {
    [Permute(l, w, h, LWH), Permute(l, w, h, LHW), Permute(l, w, h, WLH),
     Permute(l, w, h, WHL), Permute(l, w, h, HLW), Permute(l, w, h, HWL)]
  }

  /** The six are exactly the turns of the box, one per permutation. */
  lemma SixPermutationsMembers(l: nat, w: nat, h: nat)
    ensures forall o :: o in SixPermutations(l, w, h) <==> o == Permute(l, w, h, o.perm)
  {
  }

  /** A permutation keeps the edges: a box with positive edges stays so. */
  lemma PermutePositive(l: nat, w: nat, h: nat, perm: Perm)
    requires l > 0 && w > 0 && h > 0
    ensures var o := Permute(l, w, h, perm); o.l > 0 && o.w > 0 && o.h > 0
  {
  }

  /** The de-duplication key of an orientation: its three dimensions. */
  function Dims(o: PackOrientation): (nat, nat, nat)
  {
    (o.l, o.w, o.h)
  }

  predicate FitsContainer(o: PackOrientation, L: nat, W: nat, H: nat)
  {
    o.l <= L && o.w <= W && o.h <= H
  }

  /** The orientations of `os` that fit the container, in order. */
  function Fitting(os: seq<PackOrientation>, L: nat, W: nat, H: nat): (r: seq<PackOrientation>)
    ensures forall o :: o in r <==> o in os && FitsContainer(o, L, W, H)
    ensures |r| <= |os|
  {
    if os == [] then []
    else
      var init := Fitting(os[..|os| - 1], L, W, H);
      var last := os[|os| - 1];
      assert os == os[..|os| - 1] + [last];
      if FitsContainer(last, L, W, H) then init + [last] else init
  }

  /** No two orientations of `os` have the same dimensions. */
  predicate DistinctDims(os: seq<PackOrientation>)
  {
    forall i, j :: 0 <= i < j < |os| ==> Dims(os[i]) != Dims(os[j])
  }

  /** Filtering keeps distinct keys distinct. */
  lemma {:induction false} FittingDistinct(os: seq<PackOrientation>, L: nat, W: nat, H: nat)
    requires DistinctDims(os)
    ensures DistinctDims(Fitting(os, L, W, H))
  {
    if os != [] {
      var init := os[..|os| - 1];
      var last := os[|os| - 1];
      assert DistinctDims(init);
      FittingDistinct(init, L, W, H);
      var fi := Fitting(init, L, W, H);
      var r := Fitting(os, L, W, H);
      if FitsContainer(last, L, W, H) {
        assert r == fi + [last];
        forall i, j | 0 <= i < j < |r|
          ensures Dims(r[i]) != Dims(r[j])
        {
          if j == |r| - 1 {
            assert r[j] == os[|os| - 1];
            assert r[i] == fi[i] && r[i] in init;
            var m :| 0 <= m < |init| && init[m] == r[i];
            assert os[m] == r[i] && m < |os| - 1;
          } else {
            assert r[i] == fi[i] && r[j] == fi[j];
          }
        }
      } else {
        assert r == fi;
      }
    }
  }

  /** `getOrientations`: the distinct permutations of the group's edges that
      fit the container, first occurrence first. All six are tried whatever
      the group's own flag says. */
  function PackOrientations(l: nat, w: nat, h: nat, L: nat, W: nat, H: nat): seq<PackOrientation>
  {
    Fitting(DedupBy(SixPermutations(l, w, h), Dims), L, W, H)
  }

  /** Every orientation tried is a permutation of the box's edges that fits
      the container, and no two have the same dimensions. */
  lemma PackOrientationsSound(l: nat, w: nat, h: nat, L: nat, W: nat, H: nat)
    ensures forall o :: o in PackOrientations(l, w, h, L, W, H) ==>
      o in SixPermutations(l, w, h) && FitsContainer(o, L, W, H)
    ensures DistinctDims(PackOrientations(l, w, h, L, W, H))
  {
    var d := DedupBy(SixPermutations(l, w, h), Dims);
    DedupByProperties(SixPermutations(l, w, h), Dims);
    FittingDistinct(d, L, W, H);
  }

  /** Every permutation that fits is tried, in one of its equal-dimension
      copies. */
  lemma PackOrientationsComplete(l: nat, w: nat, h: nat, L: nat, W: nat, H: nat, o: PackOrientation)
    requires o in SixPermutations(l, w, h) && FitsContainer(o, L, W, H)
    ensures exists q :: q in PackOrientations(l, w, h, L, W, H) && Dims(q) == Dims(o)
  {
    var six := SixPermutations(l, w, h);
    var d := DedupBy(six, Dims);
    DedupByProperties(six, Dims);
    assert Dims(o) in KeySet(six, Dims);
    assert Dims(o) in KeySet(d, Dims);
    var q :| q in d && Dims(q) == Dims(o);
    assert q in PackOrientations(l, w, h, L, W, H);
  }

  /** Number of cells covering a length: `Math.ceil(len / 50)`. */
  function GridSize(len: nat): nat
  {
    CeilDiv(len, Resolution)
  }

  /** First cell touched by a span starting at `pos`. */
  function CellLo(pos: nat): nat
  {
    pos / Resolution
  }

  /** One past the last cell touched by the span [pos, pos + len), clipped
      to the grid. */
  function CellHi(pos: nat, len: nat, grid: nat): (r: nat)
    ensures r <= grid
  {
    Min(grid, CeilDiv(pos + len, Resolution))
  }

  /** Every point of a span inside the container lies in a cell the span
      touches. */
  lemma PointInCells(pos: nat, len: nat, x: nat, extent: nat)
    requires pos <= x < pos + len && x < extent
    ensures CellLo(pos) <= x / Resolution < CellHi(pos, len, GridSize(extent))
  {
  }

  /** The cell range of a placement along the length and the width. */
  predicate InFootprint(p: Placement, i: nat, j: nat, gridL: nat, gridW: nat)
  {
    CellLo(p.localL) <= i < CellHi(p.localL, p.l, gridL) &&
    CellLo(p.localW) <= j < CellHi(p.localW, p.w, gridW)
  }

  function Top(p: Placement): nat
  {
    p.localH + p.h
  }

  /** The placement lies inside the container. */
  predicate Inside(p: Placement, L: nat, W: nat, H: nat)
  {
    p.localL + p.l <= L && p.localW + p.w <= W && p.localH + p.h <= H
  }

  /** The footprints of two boxes overlap with positive area. */
  predicate FootprintsOverlap(p: Placement, q: Placement)
  {
    p.localL < q.localL + q.l && q.localL < p.localL + p.l &&
    p.localW < q.localW + q.w && q.localW < p.localW + p.w
  }

  /** Two boxes overlap with positive volume. */
  predicate BoxesOverlap(p: Placement, q: Placement)
  {
    FootprintsOverlap(p, q) && p.localH < Top(q) && q.localH < Top(p)
  }

  /** Two placements inside the container whose footprints overlap touch a
      common cell: the cell holding the corner they share. */
  lemma OverlapSharesCell(p: Placement, q: Placement, L: nat, W: nat, H: nat)
    requires Inside(p, L, W, H) && Inside(q, L, W, H) && FootprintsOverlap(p, q)
    requires p.l > 0 && p.w > 0 && q.l > 0 && q.w > 0
    ensures var i := Max(p.localL, q.localL) / Resolution;
      var j := Max(p.localW, q.localW) / Resolution;
      InFootprint(p, i, j, GridSize(L), GridSize(W)) && InFootprint(q, i, j, GridSize(L), GridSize(W))
  {
    var x := Max(p.localL, q.localL);
    var y := Max(p.localW, q.localW);
    PointInCells(p.localL, p.l, x, L);
    PointInCells(q.localL, q.l, x, L);
    PointInCells(p.localW, p.w, y, W);
    PointInCells(q.localW, q.w, y, W);
  }

  /** The packer's score scaled by 1000 so that it is an integer:
      `floorH*100000 + posL*100 + posW - volume/1000` becomes
      `floorH*10^8 + posL*10^5 + posW*1000 - volume`, the same order. */
  function Score(floorH: nat, pos: Position, o: PackOrientation): int
  {
    floorH * 100000000 + pos.posL * 100000 + pos.posW * 1000 - o.l * o.w * o.h
  }

  /** The score is one weighted sum, not a lexicographic order: one
      millimetre of floor height weighs as much as a thousand millimetres of
      `posL`, one of `posL` as a hundred of `posW`, and one of `posW` as a
      thousand cubic millimetres of box volume. */
  lemma ScoreExchangeRates(f: nat, pos: Position, o: PackOrientation, o2: PackOrientation)
    ensures Score(f + 1, pos, o) == Score(f, Position(pos.posL + 1000, pos.posW), o)
    ensures Score(f, Position(pos.posL + 1, pos.posW), o) == Score(f, Position(pos.posL, pos.posW + 100), o)
    ensures o2.l * o2.w * o2.h == o.l * o.w * o.h + 1000 ==>
      Score(f, Position(pos.posL, pos.posW + 1), o2) == Score(f, pos, o)
  {
  }

  /** So a box one millimetre higher up can beat a box on the container
      floor: a 100 mm cube at floor height 1 and the origin scores lower (is
      preferred) than the same cube on the floor 2000 mm along the length. */
  lemma HigherFloorCanWin()
    ensures var cube := PackOrientation(100, 100, 100, LWH);
      Score(1, Position(0, 0), cube) < Score(0, Position(2000, 0), cube)
  {
  }

  /** The grid origins of the first `rows` rows, row by row. */
  function GridOrigins(rows: nat, cols: nat): seq<Position>
  {
    if rows == 0 then [] else GridOrigins(rows - 1, cols) + GridRow(rows - 1, cols)
  }

  /** The origins of the first `cols` cells of row `i`. */
  function GridRow(i: nat, cols: nat): seq<Position>
  {
    if cols == 0 then [] else GridRow(i, cols - 1) + [Position(i * Resolution, (cols - 1) * Resolution)]
  }

  /** The three corners a placed box offers: beyond its length, beyond its
      width, and beyond both. */
  function BoxCorners(p: Placement): seq<Position>
  {
    [Position(p.localL + p.l, p.localW), Position(p.localL, p.localW + p.w),
     Position(p.localL + p.l, p.localW + p.w)]
  }

  function Corners(ps: seq<Placement>): seq<Position>
  {
    if ps == [] then [] else Corners(ps[..|ps| - 1]) + BoxCorners(ps[|ps| - 1])
  }

  /** The key of the `seen` set of positions: the position itself. */
  function PositionKey(q: Position): Position
  {
    q
  }

  /** The candidate positions: each distinct position once, first
      occurrence first, grid origins before corners. */
  function CandidateList(gridL: nat, gridW: nat, ps: seq<Placement>): seq<Position>
  {
    DedupBy(GridOrigins(gridL, gridW) + Corners(ps), PositionKey)
  }
}
