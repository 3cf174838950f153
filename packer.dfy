/** The greedy height-map packer (`runMaxRectsPacking`). The floor plan is
    cut into 50 mm cells, each holding the height of the stack on it; every
    step tries every group with boxes left, every distinct orientation that
    fits and every candidate position, places the best-scoring box and raises
    the cells under it. */
module Packer {
  import opened Basics
  import opened Grid

  /** The winner of one selection round: group slot, orientation index,
      candidate index, the floor it rests on and its score. */
  datatype Choice = Choice(k: nat, oi: nat, ci: nat, floorH: nat, score: int)

  /** The scan order of (group, orientation, position) triples. */
  predicate ScanBefore(k1: nat, o1: nat, c1: nat, k2: nat, o2: nat, c2: nat)
  {
    k1 < k2 || (k1 == k2 && (o1 < o2 || (o1 == o2 && c1 < c2)))
  }

  /** A triple before the one after `(k, o, c)` is before `(k, o, c)` or is
      `(k, o, c)` itself. */
  lemma ScanBeforeNext(k1: nat, o1: nat, c1: nat, k: nat, o: nat, c: nat)
    requires ScanBefore(k1, o1, c1, k, o, c + 1)
    ensures ScanBefore(k1, o1, c1, k, o, c) || (k1 == k && o1 == o && c1 == c)
  {
  }

  /** The placements that belong to group slot `k`, in placement order. */
  function OfSlot(ps: seq<Placement>, k: nat): seq<Placement>
  {
    if ps == [] then []
    else if ps[|ps| - 1].slot == k then OfSlot(ps[..|ps| - 1], k) + [ps[|ps| - 1]]
    else OfSlot(ps[..|ps| - 1], k)
  }

  /** The group's list holds exactly the placements of its slot. */
  lemma {:induction false} OfSlotMembers(ps: seq<Placement>, k: nat)
    ensures |OfSlot(ps, k)| <= |ps|
    ensures forall p :: p in OfSlot(ps, k) <==> p in ps && p.slot == k
  {
    if ps != [] {
      OfSlotMembers(ps[..|ps| - 1], k);
      assert ps == ps[..|ps| - 1] + [ps[|ps| - 1]];
    }
  }

  lemma OfSlotSnoc(ps: seq<Placement>, p: Placement, k: nat)
    ensures OfSlot(ps + [p], k) == if p.slot == k then OfSlot(ps, k) + [p] else OfSlot(ps, k)
  {
    assert (ps + [p])[..|ps|] == ps;
  }

  /** The placement the engine records for group `g` in orientation `o` at
      position `pos` resting on `floorH`: centre coordinates shifted to the
      container's middle and lifted by the 100 mm pallet base; support 1.0
      on the floor and 0 otherwise until the support pass. */
  function MakePlacement(k: nat, g: PackGroup, o: PackOrientation, pos: Position, floorH: nat,
                         L: nat, W: nat): (p: Placement)
    ensures p.slot == k && p.l == o.l && p.w == o.w && p.h == o.h
    ensures p.localL == pos.posL && p.localW == pos.posW && p.localH == floorH
    ensures p.support == if floorH == 0 then 1.0 else 0.0
  {
    Placement(k, g.index, g.id, o.l, o.w, o.h, pos.posL, pos.posW, floorH,
              pos.posL as real + o.l as real / 2.0 - L as real / 2.0,
              floorH as real + o.h as real / 2.0 + 100.0,
              pos.posW as real + o.w as real / 2.0 - W as real / 2.0,
              o.l * o.w * o.h, g.weight, if floorH == 0 then 1.0 else 0.0, o.perm)
  }

  /** Quantity conservation: per group, placed plus remaining is the
      ordered quantity; the group's list holds exactly its placements; the
      placement list is as long as all groups' counts together. */
  ghost predicate Conserved(groups: seq<PackGroup>, remaining: seq<nat>, placedCount: seq<nat>,
                            groupPlacements: seq<seq<Placement>>, placements: seq<Placement>)
    requires |remaining| == |placedCount| == |groupPlacements| == |groups|
  {
    (forall k :: 0 <= k < |groups| ==>
       placedCount[k] + remaining[k] == groups[k].qty &&
       groupPlacements[k] == OfSlot(placements, k) &&
       placedCount[k] == |groupPlacements[k]|) &&
    |placements| == Sum(placedCount)
  }

  /** Placement `p` holds its group's box turned by its permutation, lies
      inside the container and carries the group's data. */
  ghost predicate LegalFor(groups: seq<PackGroup>, L: nat, W: nat, H: nat, p: Placement)
  {
    p.slot < |groups| &&
    var o := PackOrientation(p.l, p.w, p.h, p.perm);
    var g := groups[p.slot];
    o == Permute(g.l, g.w, g.h, p.perm) &&
    Inside(p, L, W, H) &&
    p == MakePlacement(p.slot, g, o, Position(p.localL, p.localW), p.localH, L, W)
  }

  ghost predicate PlacedWell(groups: seq<PackGroup>, L: nat, W: nat, H: nat, placements: seq<Placement>)
  {
    forall n :: 0 <= n < |placements| ==> LegalFor(groups, L, W, H, placements[n])
  }

  /** Recording one more box of group `k` conserves quantities. */
  lemma ConservedSnoc(groups: seq<PackGroup>, remaining: seq<nat>, placedCount: seq<nat>,
                      groupPlacements: seq<seq<Placement>>, placements: seq<Placement>, p: Placement)
    requires |remaining| == |placedCount| == |groupPlacements| == |groups|
    requires Conserved(groups, remaining, placedCount, groupPlacements, placements)
    requires p.slot < |groups| && remaining[p.slot] > 0
    ensures Conserved(groups, remaining[p.slot := remaining[p.slot] - 1],
                      placedCount[p.slot := placedCount[p.slot] + 1],
                      groupPlacements[p.slot := groupPlacements[p.slot] + [p]], placements + [p])
  {
    var k := p.slot;
    var gp := groupPlacements[k := groupPlacements[k] + [p]];
    forall k' | 0 <= k' < |groups|
      ensures gp[k'] == OfSlot(placements + [p], k')
    {
      OfSlotSnoc(placements, p, k');
    }
    SumUpdate(placedCount, k, placedCount[k] + 1);
  }

  /** A later box that shares a cell with an earlier one rests at or above
      the earlier box's top. */
  ghost predicate StackedList(ps: seq<Placement>, gridL: nat, gridW: nat)
  {
    forall m, n, i, j ::
      (0 <= m < n < |ps| && InFootprint(ps[m], i, j, gridL, gridW) && InFootprint(ps[n], i, j, gridL, gridW)) ==>
      Top(ps[m]) <= ps[n].localH
  }

  /** `p` rests at or above the top of every box of `ps` it shares a cell
      with. */
  ghost predicate RestsAbove(ps: seq<Placement>, p: Placement, gridL: nat, gridW: nat)
  {
    forall m, i, j ::
      (0 <= m < |ps| && InFootprint(ps[m], i, j, gridL, gridW) && InFootprint(p, i, j, gridL, gridW)) ==>
      Top(ps[m]) <= p.localH
  }

  /** A box that rests above every earlier box it shares a cell with keeps
      the list stacked. */
  lemma StackedSnoc(ps: seq<Placement>, p: Placement, gridL: nat, gridW: nat)
    requires StackedList(ps, gridL, gridW)
    requires RestsAbove(ps, p, gridL, gridW)
    ensures StackedList(ps + [p], gridL, gridW)
  {
    var qs := ps + [p];
    forall m, n, i, j |
      0 <= m < n < |qs| && InFootprint(qs[m], i, j, gridL, gridW) && InFootprint(qs[n], i, j, gridL, gridW)
      ensures Top(qs[m]) <= qs[n].localH
    {
      assert qs[m] == ps[m];
      if n < |ps| {
        assert qs[n] == ps[n];
      }
    }
  }

  /** One more legal box keeps every placement legal. */
  lemma PlacedWellSnoc(groups: seq<PackGroup>, L: nat, W: nat, H: nat, ps: seq<Placement>, p: Placement)
    requires PlacedWell(groups, L, W, H, ps) && LegalFor(groups, L, W, H, p)
    ensures PlacedWell(groups, L, W, H, ps + [p])
  {
    assert forall n :: 0 <= n < |ps| ==> (ps + [p])[n] == ps[n];
  }

  /** `hasRemainingBoxes`: some group still has a box to place. */
  function AnyPositive(s: seq<nat>): (b: bool)
    ensures b <==> exists k :: 0 <= k < |s| && s[k] > 0
  {
    if s == [] then false
    else s[|s| - 1] > 0 || AnyPositive(s[..|s| - 1])
  }

  /** What the packer is given: the groups in processing order and the
      container's inner length, width and height. */
  datatype Load = Load(groups: seq<PackGroup>, L: nat, W: nat, H: nat)

  /** The height map that the placements `ps` leave on a grid of
      `gridL` × `gridW` cells, starting from an empty floor: each cell holds
      the top of the last box over it, 0 when no box is. */
  function HeightAt(ps: seq<Placement>, gridL: nat, gridW: nat, i: nat, j: nat): nat
  {
    if ps == [] then 0
    else if InFootprint(ps[|ps| - 1], i, j, gridL, gridW) then Top(ps[|ps| - 1])
    else HeightAt(ps[..|ps| - 1], gridL, gridW, i, j)
  }

  /** Highest cell of row `i` among columns [j0, j1), or 0 when empty. */
  function RowMax(ps: seq<Placement>, gridL: nat, gridW: nat, i: nat, j0: nat, j1: nat): (r: nat)
    ensures forall j :: j0 <= j < j1 ==> HeightAt(ps, gridL, gridW, i, j) <= r
    ensures j0 >= j1 ==> r == 0
    decreases j1
  {
    if j1 <= j0 then 0 else Max(RowMax(ps, gridL, gridW, i, j0, j1 - 1), HeightAt(ps, gridL, gridW, i, j1 - 1))
  }

  /** A non-empty row range has a cell as high as its maximum. */
  lemma {:induction false} RowMaxAttained(ps: seq<Placement>, gridL: nat, gridW: nat, i: nat, j0: nat, j1: nat)
    requires j0 < j1
    ensures exists j :: j0 <= j < j1 && HeightAt(ps, gridL, gridW, i, j) == RowMax(ps, gridL, gridW, i, j0, j1)
    decreases j1
  {
    if j0 < j1 - 1 && RowMax(ps, gridL, gridW, i, j0, j1 - 1) >= HeightAt(ps, gridL, gridW, i, j1 - 1) {
      RowMaxAttained(ps, gridL, gridW, i, j0, j1 - 1);
    } else {
      assert HeightAt(ps, gridL, gridW, i, j1 - 1) == RowMax(ps, gridL, gridW, i, j0, j1);
    }
  }

  /** Highest cell of the rectangle [i0, i1) × [j0, j1), or 0 when empty. */
  function RectMax(ps: seq<Placement>, gridL: nat, gridW: nat, i0: nat, i1: nat, j0: nat, j1: nat): (r: nat)
    ensures forall i, j :: i0 <= i < i1 && j0 <= j < j1 ==> HeightAt(ps, gridL, gridW, i, j) <= r
    ensures i0 >= i1 || j0 >= j1 ==> r == 0
    decreases i1
  {
    if i1 <= i0 then 0 else Max(RectMax(ps, gridL, gridW, i0, i1 - 1, j0, j1), RowMax(ps, gridL, gridW, i1 - 1, j0, j1))
  }

  /** A non-empty rectangle has a cell as high as its maximum. */
  lemma {:induction false} RectMaxAttained(ps: seq<Placement>, gridL: nat, gridW: nat, i0: nat, i1: nat, j0: nat, j1: nat)
    requires i0 < i1 && j0 < j1
    ensures exists i, j ::
      i0 <= i < i1 && j0 <= j < j1 && HeightAt(ps, gridL, gridW, i, j) == RectMax(ps, gridL, gridW, i0, i1, j0, j1)
    decreases i1
  {
    if i0 < i1 - 1 && RectMax(ps, gridL, gridW, i0, i1 - 1, j0, j1) >= RowMax(ps, gridL, gridW, i1 - 1, j0, j1) {
      RectMaxAttained(ps, gridL, gridW, i0, i1 - 1, j0, j1);
      var i, j :| i0 <= i < i1 - 1 && j0 <= j < j1 &&
        HeightAt(ps, gridL, gridW, i, j) == RectMax(ps, gridL, gridW, i0, i1 - 1, j0, j1);
      assert HeightAt(ps, gridL, gridW, i, j) == RectMax(ps, gridL, gridW, i0, i1, j0, j1);
    } else {
      RowMaxAttained(ps, gridL, gridW, i1 - 1, j0, j1);
      var j :| j0 <= j < j1 && HeightAt(ps, gridL, gridW, i1 - 1, j) == RowMax(ps, gridL, gridW, i1 - 1, j0, j1);
      assert HeightAt(ps, gridL, gridW, i1 - 1, j) == RectMax(ps, gridL, gridW, i0, i1, j0, j1);
    }
  }

  /** The floor a box of orientation `o` would rest on at `pos` in a
      container of length `L` and width `W`: the highest cell under its
      footprint. */
  function FloorOf(ps: seq<Placement>, L: nat, W: nat, o: PackOrientation, pos: Position): nat
  {
    RectMax(ps, GridSize(L), GridSize(W), CellLo(pos.posL), CellHi(pos.posL, o.l, GridSize(L)),
            CellLo(pos.posW), CellHi(pos.posW, o.w, GridSize(W)))
  }

  /** The orientations tried for group slot `k`. */
  function OrientsOf(ld: Load, k: nat): seq<PackOrientation>
    requires k < |ld.groups|
  {
    PackOrientations(ld.groups[k].l, ld.groups[k].w, ld.groups[k].h, ld.L, ld.W, ld.H)
  }

  /** The boxes of group slot `k` that `ps` has not placed. */
  function Unplaced(ld: Load, ps: seq<Placement>, k: nat): int
    requires k < |ld.groups|
  {
    ld.groups[k].qty - |OfSlot(ps, k)|
  }

  /** Triple (k, oi, ci) is a legal move once `ps` are placed: the group
      has boxes left, and the box fits the container's length and width at
      the position and its height on the floor there. */
  predicate Feasible(ld: Load, ps: seq<Placement>, cands: seq<Position>, k: nat, oi: nat, ci: nat)
  {
    k < |ld.groups| && Unplaced(ld, ps, k) > 0 && oi < |OrientsOf(ld, k)| && ci < |cands| &&
    var o := OrientsOf(ld, k)[oi];
    var pos := cands[ci];
    pos.posL + o.l <= ld.L && pos.posW + o.w <= ld.W && FloorOf(ps, ld.L, ld.W, o, pos) + o.h <= ld.H
  }

  function ScoreOf(ld: Load, ps: seq<Placement>, cands: seq<Position>, k: nat, oi: nat, ci: nat): int
    requires k < |ld.groups| && oi < |OrientsOf(ld, k)| && ci < |cands|
  {
    Score(FloorOf(ps, ld.L, ld.W, OrientsOf(ld, k)[oi], cands[ci]), cands[ci], OrientsOf(ld, k)[oi])
  }

  /** `c` is what the selection picks among `cands` once `ps` are placed:
      a legal triple with its floor and score, which no legal triple
      scores below and every legal triple scanned before it scores
      strictly above. */
  ghost predicate Selected(ld: Load, ps: seq<Placement>, cands: seq<Position>, c: Choice)
  {
    Feasible(ld, ps, cands, c.k, c.oi, c.ci) &&
    c.floorH == FloorOf(ps, ld.L, ld.W, OrientsOf(ld, c.k)[c.oi], cands[c.ci]) &&
    c.score == ScoreOf(ld, ps, cands, c.k, c.oi, c.ci) &&
    forall k: nat, oi: nat, ci: nat :: Feasible(ld, ps, cands, k, oi, ci) ==>
      c.score <= ScoreOf(ld, ps, cands, k, oi, ci) &&
      (ScanBefore(k, oi, ci, c.k, c.oi, c.ci) ==> c.score < ScoreOf(ld, ps, cands, k, oi, ci))
  }

  /** The selection has at most one outcome: two winners are the same
      triple, so the greedy rule picks the first of the least-scoring. */
  lemma SelectedUnique(ld: Load, ps: seq<Placement>, cands: seq<Position>, c1: Choice, c2: Choice)
    requires Selected(ld, ps, cands, c1) && Selected(ld, ps, cands, c2)
    ensures c1 == c2
  {
  }

  /** The placement recorded for choice `c`. */
  function Chosen(ld: Load, cands: seq<Position>, c: Choice): Placement
    requires c.k < |ld.groups| && c.oi < |OrientsOf(ld, c.k)| && c.ci < |cands|
  {
    MakePlacement(c.k, ld.groups[c.k], OrientsOf(ld, c.k)[c.oi], cands[c.ci], c.floorH, ld.L, ld.W)
  }

  /** The candidate positions once `ps` are placed. */
  function CandidatesAfter(ld: Load, ps: seq<Placement>): seq<Position>
  {
    CandidateList(GridSize(ld.L), GridSize(ld.W), ps)
  }

  /** `p` is the box the packer places next once `ps` are placed: the
      placement of the selection's winner among the candidate positions. */
  ghost predicate GreedyNext(ld: Load, ps: seq<Placement>, p: Placement)
  {
    exists c :: Selected(ld, ps, CandidatesAfter(ld, ps), c) && p == Chosen(ld, CandidatesAfter(ld, ps), c)
  }

  /** No triple is legal once `ps` are placed: the selection finds nothing. */
  ghost predicate Stuck(ld: Load, ps: seq<Placement>)
  {
    forall k: nat, oi: nat, ci: nat :: !Feasible(ld, ps, CandidatesAfter(ld, ps), k, oi, ci)
  }

  /** `ps` continues `ps0` by greedy rounds: each box after `ps0` is the
      one the packer places next given the boxes before it. */
  ghost predicate GreedyFrom(ld: Load, ps0: seq<Placement>, ps: seq<Placement>)
  {
    ps0 <= ps && forall n :: |ps0| <= n < |ps| ==> GreedyNext(ld, ps[..n], ps[n])
  }

  /** At most one box is the next one. */
  lemma GreedyNextUnique(ld: Load, ps: seq<Placement>, p1: Placement, p2: Placement)
    requires GreedyNext(ld, ps, p1) && GreedyNext(ld, ps, p2)
    ensures p1 == p2
  {
    var cands := CandidatesAfter(ld, ps);
    var c1 :| Selected(ld, ps, cands, c1) && p1 == Chosen(ld, cands, c1);
    var c2 :| Selected(ld, ps, cands, c2) && p2 == Chosen(ld, cands, c2);
    SelectedUnique(ld, ps, cands, c1, c2);
  }

  /** One more greedy round extends a greedy continuation. */
  lemma GreedyFromSnoc(ld: Load, ps0: seq<Placement>, ps: seq<Placement>, p: Placement)
    requires GreedyFrom(ld, ps0, ps) && GreedyNext(ld, ps, p)
    ensures GreedyFrom(ld, ps0, ps + [p])
  {
    var qs := ps + [p];
    forall n | |ps0| <= n < |qs|
      ensures GreedyNext(ld, qs[..n], qs[n])
    {
      if n < |ps| {
        assert qs[..n] == ps[..n];
      } else {
        assert qs[..n] == ps;
      }
    }
  }

  /** The packer's run is determined by where it starts: of two greedy
      continuations of `ps0`, the shorter is a prefix of the longer. */
  lemma {:induction false} GreedyFromDetermined(ld: Load, ps0: seq<Placement>, a: seq<Placement>, b: seq<Placement>)
    requires GreedyFrom(ld, ps0, a) && GreedyFrom(ld, ps0, b) && |a| <= |b|
    ensures a <= b
    decreases |a|
  {
    if |a| > |ps0| {
      var n := |a| - 1;
      GreedyFromPrefix(ld, ps0, a, n);
      GreedyFromDetermined(ld, ps0, a[..n], b);
      GreedyStepsAgree(ld, ps0, a, b, n);
      PrefixGrows(a, b);
    }
  }

  /** A sequence whose front is a prefix of `b` and whose last element
      agrees with `b` there is a prefix of `b`. */
  lemma PrefixGrows<T>(a: seq<T>, b: seq<T>)
    requires 0 < |a| <= |b| && a[..|a| - 1] <= b && a[|a| - 1] == b[|a| - 1]
    ensures a <= b
  {
    assert a == b[..|a|];
  }

  /** A greedy continuation cut short is still one. */
  lemma GreedyFromPrefix(ld: Load, ps0: seq<Placement>, a: seq<Placement>, n: nat)
    requires GreedyFrom(ld, ps0, a) && |ps0| <= n <= |a|
    ensures GreedyFrom(ld, ps0, a[..n])
  {
    forall m | |ps0| <= m < n
      ensures GreedyNext(ld, a[..n][..m], a[..n][m])
    {
      assert a[..n][..m] == a[..m];
    }
  }

  /** Two greedy continuations that agree up to `n` agree at `n`. */
  lemma GreedyStepsAgree(ld: Load, ps0: seq<Placement>, a: seq<Placement>, b: seq<Placement>, n: nat)
    requires GreedyFrom(ld, ps0, a) && GreedyFrom(ld, ps0, b)
    requires |ps0| <= n < |a| && n < |b| && a[..n] == b[..n]
    ensures a[n] == b[n]
  {
    assert GreedyNext(ld, a[..n], a[n]);
    assert GreedyNext(ld, b[..n], b[n]);
    GreedyNextUnique(ld, a[..n], a[n], b[n]);
  }

  class GreedyPacker {
    const L: nat
    const W: nat
    const H: nat
    const gridL: nat
    const gridW: nat
    /** The groups in processing order (largest volume first). */
    const groups: seq<PackGroup>
    const heightMap: array2<nat>
    var remaining: seq<nat>
    var placedCount: seq<nat>
    var groupPlacements: seq<seq<Placement>>
    var placements: seq<Placement>

    /** Height of cell (i, j); a cell outside the map reads as 0, as the
        engine's guarded lookup does. */
    function Cell(i: nat, j: nat): nat
      reads heightMap
    {
      if i < heightMap.Length0 && j < heightMap.Length1 then heightMap[i, j] else 0
    }

    /** The packer's inputs as a value. */
    function Ld(): Load
    {
      Load(groups, L, W, H)
    }

    /** `best` is the outcome of the scan up to (k, oi, ci): absent when no
        earlier triple is legal; otherwise a legal earlier triple whose
        score no earlier legal triple beats, and which every legal triple
        before it scores strictly worse than. */
    ghost predicate BestSoFar(cands: seq<Position>, best: Option<Choice>, k: nat, oi: nat, ci: nat)
      reads this
    {
      (best.None? ==>
         forall k', oi', ci' :: ScanBefore(k', oi', ci', k, oi, ci) ==> !Feasible(Ld(), placements, cands, k', oi', ci')) &&
      (best.Some? ==>
         var b := best.value;
         Feasible(Ld(), placements, cands, b.k, b.oi, b.ci) && ScanBefore(b.k, b.oi, b.ci, k, oi, ci) &&
         b.floorH == FloorOf(placements, L, W, OrientsOf(Ld(), b.k)[b.oi], cands[b.ci]) &&
         b.score == ScoreOf(Ld(), placements, cands, b.k, b.oi, b.ci) &&
         forall k', oi', ci' :: ScanBefore(k', oi', ci', k, oi, ci) && Feasible(Ld(), placements, cands, k', oi', ci') ==>
           b.score <= ScoreOf(Ld(), placements, cands, k', oi', ci') &&
           (ScanBefore(k', oi', ci', b.k, b.oi, b.ci) ==> b.score < ScoreOf(Ld(), placements, cands, k', oi', ci')))
    }

    /** The sizes of the map and of the per-group lists agree. */
    ghost predicate Shape()
      reads this
    {
      heightMap.Length0 == gridL == GridSize(L) && heightMap.Length1 == gridW == GridSize(W) &&
      |remaining| == |groups| && |placedCount| == |groups| && |groupPlacements| == |groups|
    }

    /** Quantity conservation, see `Conserved`. */
    ghost predicate Counts()
      reads this
      requires Shape()
    {
      Conserved(groups, remaining, placedCount, groupPlacements, placements)
    }

    /** Every placement is legal for its group, see `PlacedWell`. */
    ghost predicate WellPlaced()
      reads this
    {
      PlacedWell(groups, L, W, H, placements)
    }

    /** The height map is at least the top of every box on each cell of its
        footprint. */
    ghost predicate Covered()
      reads this, heightMap
    {
      forall n, i, j :: 0 <= n < |placements| && InFootprint(placements[n], i, j, gridL, gridW) ==>
        Top(placements[n]) <= Cell(i, j)
    }

    /** No cell is higher than the container. */
    ghost predicate Bounded()
      reads heightMap
    {
      forall i, j :: Cell(i, j) <= H
    }

    /** A later box that shares a cell with an earlier one rests at or above
        the earlier box's top. */
    ghost predicate Stacked()
      reads this
    {
      StackedList(placements, gridL, gridW)
    }

    /** The height map is the one the placements leave, see `HeightAt`. */
    ghost predicate Mirrors()
      reads this, heightMap
    {
      forall i: nat, j: nat :: Cell(i, j) == HeightAt(placements, gridL, gridW, i, j)
    }

    ghost predicate Valid()
      reads this, heightMap
    {
      Shape() && Counts() && WellPlaced() && Covered() && Bounded() && Stacked() && Mirrors()
    }

    /** The packer for `groups` (already in processing order): an all-zero
        height map and every group's full quantity remaining. */
    constructor(groups: seq<PackGroup>, L: nat, W: nat, H: nat)
      ensures Valid() && fresh(heightMap)
      ensures this.groups == groups && this.L == L && this.W == W && this.H == H
      ensures placements == [] && forall k :: 0 <= k < |groups| ==> remaining[k] == groups[k].qty
      ensures forall i, j :: Cell(i, j) == 0
    {
      this.L := L;
      this.W := W;
      this.H := H;
      this.groups := groups;
      gridL := GridSize(L);
      gridW := GridSize(W);
      heightMap := new nat[GridSize(L), GridSize(W)]((i, j) => 0);
      remaining := seq(|groups|, k requires 0 <= k < |groups| => groups[k].qty);
      placedCount := seq(|groups|, k => 0);
      groupPlacements := seq(|groups|, k => []);
      placements := [];
      new;
      assert Sum(placedCount) == 0 by {
        ZeroSum(placedCount);
      }
    }

    /** Cell (i, j) lies under the footprint of a box of length `boxL` and
        width `boxW` at (posL, posW). */
    predicate Under(i: nat, j: nat, posL: nat, posW: nat, boxL: nat, boxW: nat)
    {
      CellLo(posL) <= i < CellHi(posL, boxL, gridL) && CellLo(posW) <= j < CellHi(posW, boxW, gridW)
    }

    /** `getFloorHeight`: the highest cell under the footprint, which is
        the floor the placements leave there; 0 when the footprint covers
        no cell. */
    method FloorHeight(posL: nat, posW: nat, boxL: nat, boxW: nat) returns (maxH: nat)
      requires Shape() && Mirrors()
      ensures maxH == RectMax(placements, gridL, gridW, CellLo(posL), CellHi(posL, boxL, gridL),
                              CellLo(posW), CellHi(posW, boxW, gridW))
      ensures forall i: nat, j: nat :: Under(i, j, posL, posW, boxL, boxW) ==> Cell(i, j) <= maxH
      ensures (exists i: nat, j: nat :: Under(i, j, posL, posW, boxL, boxW)) ==>
        exists i: nat, j: nat :: Under(i, j, posL, posW, boxL, boxW) && Cell(i, j) == maxH
      ensures (forall i: nat, j: nat :: !Under(i, j, posL, posW, boxL, boxW)) ==> maxH == 0
    {
      var startI, startJ := CellLo(posL), CellLo(posW);
      var endI, endJ := CellHi(posL, boxL, gridL), CellHi(posW, boxW, gridW);
      maxH := 0;
      var i := startI;
      while i < endI
        invariant i == startI || startI <= i <= endI
        invariant maxH == RectMax(placements, gridL, gridW, startI, i, startJ, endJ)
      {
        maxH := ScanRow(i, startJ, endJ, maxH);
        i := i + 1;
      }
      if startI < endI && startJ < endJ {
        RectMaxAttained(placements, gridL, gridW, startI, endI, startJ, endJ);
        var a, b :| startI <= a < endI && startJ <= b < endJ &&
          HeightAt(placements, gridL, gridW, a, b) == RectMax(placements, gridL, gridW, startI, endI, startJ, endJ);
        assert Under(a, b, posL, posW, boxL, boxW) && Cell(a, b) == maxH;
      } else {
        assert forall i: nat, j: nat :: !Under(i, j, posL, posW, boxL, boxW);
      }
    }

    /** The inner loop of `getFloorHeight`: raises `maxH0` to the highest
        cell of row `i` among columns [j0, j1). */
    method ScanRow(i: nat, j0: nat, j1: nat, maxH0: nat) returns (maxH: nat)
      requires Shape() && Mirrors() && i < gridL && j1 <= gridW
      ensures maxH == Max(maxH0, RowMax(placements, gridL, gridW, i, j0, j1))
    {
      maxH := maxH0;
      var j := j0;
      while j < j1
        invariant j == j0 || j0 <= j <= j1
        invariant maxH == Max(maxH0, RowMax(placements, gridL, gridW, i, j0, j))
      {
        assert heightMap[i, j] == Cell(i, j) == HeightAt(placements, gridL, gridW, i, j);
        if heightMap[i, j] > maxH {
          maxH := heightMap[i, j];
        }
        j := j + 1;
      }
    }

    /** `setFloorHeight`: every cell under the footprint becomes `newHeight`;
        every other cell keeps its height. */
    method RaiseFootprint(posL: nat, posW: nat, boxL: nat, boxW: nat, newHeight: nat)
      requires Shape()
      modifies heightMap
      ensures forall i: nat, j: nat ::
        Cell(i, j) == if Under(i, j, posL, posW, boxL, boxW) then newHeight else old(Cell(i, j))
    {
      var startI, startJ := CellLo(posL), CellLo(posW);
      var endI, endJ := CellHi(posL, boxL, gridL), CellHi(posW, boxW, gridW);
      var i := startI;
      while i < endI
        invariant startI <= i && (startI <= endI ==> i <= endI)
        invariant forall a, b :: 0 <= a < gridL && 0 <= b < gridW ==>
          heightMap[a, b] == if startI <= a < i && startJ <= b < endJ then newHeight else old(heightMap[a, b])
      {
        var j := startJ;
        while j < endJ
          invariant startJ <= j && (startJ <= endJ ==> j <= endJ)
          invariant forall a, b :: 0 <= a < gridL && 0 <= b < gridW ==>
            heightMap[a, b] ==
              if (startI <= a < i && startJ <= b < endJ) || (a == i && startJ <= b < j) then newHeight
              else old(heightMap[a, b])
        {
          heightMap[i, j] := newHeight;
          j := j + 1;
        }
        i := i + 1;
      }
    }

    /** The de-duplicating `addPos` step: `q` is appended unless already seen. */
    static method AddPos(ghost s: seq<Position>, positions: seq<Position>, seen: set<Position>, q: Position)
      returns (positions': seq<Position>, seen': set<Position>)
      requires (positions, seen) == DedupSeen(s, PositionKey)
      ensures (positions', seen') == DedupSeen(s + [q], PositionKey)
    {
      DedupSeenSnoc(s, q, PositionKey);
      positions', seen' := positions, seen;
      if q !in seen {
        positions', seen' := positions + [q], seen + {q};
      }
    }

    /** The three `addPos` calls for one placed box. */
    static method AddCorners(ghost s: seq<Position>, positions: seq<Position>, seen: set<Position>, p: Placement)
      returns (positions': seq<Position>, seen': set<Position>)
      requires (positions, seen) == DedupSeen(s, PositionKey)
      ensures (positions', seen') == DedupSeen(s + BoxCorners(p), PositionKey)
    {
      var c := BoxCorners(p);
      positions', seen' := AddPos(s, positions, seen, Position(p.localL + p.l, p.localW));
      positions', seen' := AddPos(s + [c[0]], positions', seen', Position(p.localL, p.localW + p.w));
      positions', seen' := AddPos(s + [c[0]] + [c[1]], positions', seen', Position(p.localL + p.l, p.localW + p.w));
      assert s + [c[0]] + [c[1]] + [c[2]] == s + c;
    }

    /** `getCandidatePositions`: the origin of every grid cell, row by row,
        then the three corners of every placed box, each distinct position
        once. */
    method CandidatePositions() returns (positions: seq<Position>)
      ensures positions == CandidateList(gridL, gridW, placements)
    {
      var seen: set<Position> := {};
      positions := [];
      var i := 0;
      while i < gridL
        invariant i <= gridL
        invariant (positions, seen) == DedupSeen(GridOrigins(i, gridW), PositionKey)
      {
        positions, seen := AddGridRow(i, positions, seen);
        i := i + 1;
      }
      ghost var base := GridOrigins(gridL, gridW);
      assert base + Corners(placements[..0]) == base;
      var n := 0;
      while n < |placements|
        invariant n <= |placements|
        invariant (positions, seen) == DedupSeen(base + Corners(placements[..n]), PositionKey)
      {
        ghost var s := base + Corners(placements[..n]);
        positions, seen := AddCorners(s, positions, seen, placements[n]);
        CornersStep(base, placements, n);
        n := n + 1;
      }
      assert placements[..|placements|] == placements;
    }

    static lemma CornersStep(base: seq<Position>, ps: seq<Placement>, n: nat)
      requires n < |ps|
      ensures base + Corners(ps[..n]) + BoxCorners(ps[n]) == base + Corners(ps[..n + 1])
    {
      assert ps[..n + 1][..n] == ps[..n];
      assert Corners(ps[..n + 1]) == Corners(ps[..n]) + BoxCorners(ps[n]);
    }

    /** The inner grid loop of `getCandidatePositions`: the origins of row `i`. */
    method AddGridRow(i: nat, positions0: seq<Position>, seen0: set<Position>)
      returns (positions: seq<Position>, seen: set<Position>)
      requires (positions0, seen0) == DedupSeen(GridOrigins(i, gridW), PositionKey)
      ensures (positions, seen) == DedupSeen(GridOrigins(i + 1, gridW), PositionKey)
    {
      positions, seen := positions0, seen0;
      var j := 0;
      assert GridOrigins(i, gridW) + GridRow(i, 0) == GridOrigins(i, gridW);
      while j < gridW
        invariant j <= gridW
        invariant (positions, seen) == DedupSeen(GridOrigins(i, gridW) + GridRow(i, j), PositionKey)
      {
        positions, seen := AddPos(GridOrigins(i, gridW) + GridRow(i, j), positions, seen,
                                  Position(i * Resolution, j * Resolution));
        assert GridOrigins(i, gridW) + GridRow(i, j) + [Position(i * Resolution, j * Resolution)] ==
          GridOrigins(i, gridW) + GridRow(i, j + 1);
        j := j + 1;
      }
    }

    /** Moving the scan past an illegal triple keeps the best so far. */
    lemma ScanSkip(cands: seq<Position>, best: Option<Choice>, k: nat, oi: nat, ci: nat)
      requires BestSoFar(cands, best, k, oi, ci) && !Feasible(Ld(), placements, cands, k, oi, ci)
      ensures BestSoFar(cands, best, k, oi, ci + 1)
    {
      forall k': nat, oi': nat, ci': nat | ScanBefore(k', oi', ci', k, oi, ci + 1)
        ensures ScanBefore(k', oi', ci', k, oi, ci) || (k', oi', ci') == (k, oi, ci)
      {
      }
    }

    /** A legal triple that does not score strictly lower leaves the best so
        far in place. */
    lemma ScanKeep(cands: seq<Position>, best: Option<Choice>, k: nat, oi: nat, ci: nat)
      requires BestSoFar(cands, best, k, oi, ci) && Feasible(Ld(), placements, cands, k, oi, ci)
      requires best.Some? && best.value.score <= ScoreOf(Ld(), placements, cands, k, oi, ci)
      ensures BestSoFar(cands, best, k, oi, ci + 1)
    {
      var b := best.value;
      assert ScanBefore(b.k, b.oi, b.ci, k, oi, ci + 1);
      forall k': nat, oi': nat, ci': nat | ScanBefore(k', oi', ci', k, oi, ci + 1) && Feasible(Ld(), placements, cands, k', oi', ci')
        ensures b.score <= ScoreOf(Ld(), placements, cands, k', oi', ci')
        ensures ScanBefore(k', oi', ci', b.k, b.oi, b.ci) ==> b.score < ScoreOf(Ld(), placements, cands, k', oi', ci')
      {
        ScanBeforeNext(k', oi', ci', k, oi, ci);
        if k' == k && oi' == oi && ci' == ci {
          assert !ScanBefore(k', oi', ci', b.k, b.oi, b.ci);
        }
      }
    }

    /** A legal triple that scores strictly lower than the best so far (or
        the first legal one) becomes the best so far. */
    lemma ScanTake(cands: seq<Position>, best: Option<Choice>, k: nat, oi: nat, ci: nat, c: Choice)
      requires BestSoFar(cands, best, k, oi, ci) && Feasible(Ld(), placements, cands, k, oi, ci)
      requires c == Choice(k, oi, ci, FloorOf(placements, L, W, OrientsOf(Ld(), k)[oi], cands[ci]), ScoreOf(Ld(), placements, cands, k, oi, ci))
      requires best.None? || c.score < best.value.score
      ensures BestSoFar(cands, Some(c), k, oi, ci + 1)
    {
      forall k': nat, oi': nat, ci': nat | ScanBefore(k', oi', ci', k, oi, ci + 1) && Feasible(Ld(), placements, cands, k', oi', ci')
        ensures c.score <= ScoreOf(Ld(), placements, cands, k', oi', ci')
        ensures ScanBefore(k', oi', ci', k, oi, ci) ==> c.score < ScoreOf(Ld(), placements, cands, k', oi', ci')
      {
        if (k', oi', ci') != (k, oi, ci) {
          assert ScanBefore(k', oi', ci', k, oi, ci);
          assert best.Some? && best.value.score <= ScoreOf(Ld(), placements, cands, k', oi', ci');
        }
      }
    }

    /** Past the last candidate, the scan moves to the next orientation. */
    lemma ScanNextOrientation(cands: seq<Position>, best: Option<Choice>, k: nat, oi: nat)
      requires BestSoFar(cands, best, k, oi, |cands|)
      ensures BestSoFar(cands, best, k, oi + 1, 0)
    {
      forall k': nat, oi': nat, ci': nat | ScanBefore(k', oi', ci', k, oi + 1, 0) && Feasible(Ld(), placements, cands, k', oi', ci')
        ensures ScanBefore(k', oi', ci', k, oi, |cands|)
      {
      }
    }

    /** The innermost selection loop: every candidate position for
        orientation `oi` of group `k`. */
    method ScanPositions(cands: seq<Position>, k: nat, oi: nat, o: PackOrientation, best0: Option<Choice>)
      returns (best: Option<Choice>)
      requires Shape() && Mirrors()
      requires k < |groups| && Unplaced(Ld(), placements, k) > 0 && oi < |OrientsOf(Ld(), k)| && o == OrientsOf(Ld(), k)[oi]
      requires BestSoFar(cands, best0, k, oi, 0)
      ensures BestSoFar(cands, best, k, oi + 1, 0)
    {
      best := best0;
      var ci := 0;
      while ci < |cands|
        invariant ci <= |cands|
        invariant BestSoFar(cands, best, k, oi, ci)
      {
        best := ConsiderPosition(cands, k, oi, o, ci, best);
        ci := ci + 1;
      }
      ScanNextOrientation(cands, best, k, oi);
    }

    /** One step of the selection: skip the position when the box overhangs
        the container's length or width or would rise above its height;
        otherwise keep the triple when it scores strictly lower than the best
        so far. */
    method ConsiderPosition(cands: seq<Position>, k: nat, oi: nat, o: PackOrientation, ci: nat, best0: Option<Choice>)
      returns (best: Option<Choice>)
      requires Shape() && Mirrors()
      requires k < |groups| && Unplaced(Ld(), placements, k) > 0 && oi < |OrientsOf(Ld(), k)| && o == OrientsOf(Ld(), k)[oi]
      requires ci < |cands|
      requires BestSoFar(cands, best0, k, oi, ci)
      ensures BestSoFar(cands, best, k, oi, ci + 1)
    {
      best := best0;
      var pos := cands[ci];
      if pos.posL + o.l > L || pos.posW + o.w > W {
        ScanSkip(cands, best, k, oi, ci);
        return;
      }
      var floorH := FloorHeight(pos.posL, pos.posW, o.l, o.w);
      if floorH + o.h > H {
        ScanSkip(cands, best, k, oi, ci);
        return;
      }
      var score := Score(floorH, pos, o);
      if best.None? || score < best.value.score {
        ScanTake(cands, best, k, oi, ci, Choice(k, oi, ci, floorH, score));
        best := Some(Choice(k, oi, ci, floorH, score));
      } else {
        ScanKeep(cands, best, k, oi, ci);
      }
    }

    /** Past the last orientation, the scan moves to the next group. */
    lemma ScanNextGroup(cands: seq<Position>, best: Option<Choice>, k: nat)
      requires k < |groups|
      requires BestSoFar(cands, best, k, |OrientsOf(Ld(), k)|, 0)
      ensures BestSoFar(cands, best, k + 1, 0, 0)
    {
      forall k': nat, oi': nat, ci': nat | ScanBefore(k', oi', ci', k + 1, 0, 0) && Feasible(Ld(), placements, cands, k', oi', ci')
        ensures ScanBefore(k', oi', ci', k, |OrientsOf(Ld(), k)|, 0)
      {
      }
    }

    /** A group with no boxes left offers no legal triple. */
    lemma ScanSpentGroup(cands: seq<Position>, best: Option<Choice>, k: nat)
      requires k < |groups| && Unplaced(Ld(), placements, k) <= 0
      requires BestSoFar(cands, best, k, 0, 0)
      ensures BestSoFar(cands, best, k + 1, 0, 0)
    {
      forall k': nat, oi': nat, ci': nat | ScanBefore(k', oi', ci', k + 1, 0, 0) && Feasible(Ld(), placements, cands, k', oi', ci')
        ensures ScanBefore(k', oi', ci', k, 0, 0)
      {
      }
    }

    /** The middle selection loop, skipping a group with no boxes left. */
    method ScanGroup(cands: seq<Position>, k: nat, best0: Option<Choice>) returns (best: Option<Choice>)
      requires Shape() && Mirrors() && k < |groups| && remaining[k] == Unplaced(Ld(), placements, k)
      requires BestSoFar(cands, best0, k, 0, 0)
      ensures BestSoFar(cands, best, k + 1, 0, 0)
    {
      if remaining[k] <= 0 {
        ScanSpentGroup(cands, best0, k);
        best := best0;
      } else {
        best := ScanOrientations(cands, k, best0);
      }
    }

    /** The middle selection loop proper: every orientation of group `k`. */
    method ScanOrientations(cands: seq<Position>, k: nat, best0: Option<Choice>) returns (best: Option<Choice>)
      requires Shape() && Mirrors() && k < |groups| && Unplaced(Ld(), placements, k) > 0
      requires BestSoFar(cands, best0, k, 0, 0)
      ensures BestSoFar(cands, best, k + 1, 0, 0)
    {
      best := best0;
      var orientations := PackOrientations(groups[k].l, groups[k].w, groups[k].h, L, W, H);
      var oi := 0;
      while oi < |orientations|
        invariant oi <= |orientations|
        invariant BestSoFar(cands, best, k, oi, 0)
      {
        best := ScanPositions(cands, k, oi, orientations[oi], best);
        oi := oi + 1;
      }
      ScanNextGroup(cands, best, k);
    }

    /** The selection of one round: over all groups, orientations and
        candidate positions, the first triple (in scan order) of least score
        among the legal ones, or nothing when no triple is legal. */
    method SelectBest(cands: seq<Position>) returns (best: Option<Choice>)
      requires Shape() && Counts() && Mirrors()
      ensures best.None? <==> forall k: nat, oi: nat, ci: nat :: !Feasible(Ld(), placements, cands, k, oi, ci)
      ensures best.Some? ==> Selected(Ld(), placements, cands, best.value)
    {
      RemainingUnplaced();
      best := None;
      var k := 0;
      while k < |groups|
        invariant k <= |groups|
        invariant BestSoFar(cands, best, k, 0, 0)
      {
        best := ScanGroup(cands, k, best);
        k := k + 1;
      }
      forall k': nat, oi': nat, ci': nat | Feasible(Ld(), placements, cands, k', oi', ci')
        ensures ScanBefore(k', oi', ci', |groups|, 0, 0)
      {
      }
    }

    /** The winner of the selection over the current candidates is the
        box the greedy rule places next. */
    lemma ChosenIsNext(cands: seq<Position>, c: Choice)
      requires Shape() && cands == CandidateList(gridL, gridW, placements)
      requires Selected(Ld(), placements, cands, c)
      ensures GreedyNext(Ld(), placements, Chosen(Ld(), cands, c))
    {
      assert cands == CandidatesAfter(Ld(), placements);
    }

    /** The remaining count of each group is what the placements leave. */
    lemma RemainingUnplaced()
      requires Shape() && Counts()
      ensures forall k :: 0 <= k < |groups| ==> remaining[k] == Unplaced(Ld(), placements, k)
    {
    }

    /** `p` may be recorded now: its group has a box left, it is one of
        the group's orientations, lies inside the container, carries the
        group's data, and rests on the highest cell under it. */
    ghost predicate Placeable(p: Placement)
      reads this, heightMap
    {
      LegalFor(groups, L, W, H, p) && p.slot < |remaining| && remaining[p.slot] > 0 &&
      forall i: nat, j: nat :: InFootprint(p, i, j, gridL, gridW) ==> Cell(i, j) <= p.localH
    }

    /** The winner of a selection round may be recorded. */
    lemma ChosenPlaceable(cands: seq<Position>, c: Choice)
      requires Valid()
      requires Feasible(Ld(), placements, cands, c.k, c.oi, c.ci) && c.floorH == FloorOf(placements, L, W, OrientsOf(Ld(), c.k)[c.oi], cands[c.ci])
      ensures Placeable(Chosen(Ld(), cands, c))
    {
      var o := OrientsOf(Ld(), c.k)[c.oi];
      var p := Chosen(Ld(), cands, c);
      RemainingUnplaced();
      var g := groups[c.k];
      PackOrientationsSound(g.l, g.w, g.h, L, W, H);
      SixPermutationsMembers(g.l, g.w, g.h);
      assert o in SixPermutations(g.l, g.w, g.h);
      assert PackOrientation(p.l, p.w, p.h, p.perm) == o;
      assert forall i: nat, j: nat :: InFootprint(p, i, j, gridL, gridW) ==>
        CellLo(p.localL) <= i < CellHi(p.localL, o.l, gridL) && CellLo(p.localW) <= j < CellHi(p.localW, o.w, gridW);
    }

    /** Records a box: appends its placement to the list and to its group's
        list, moves one box of the group from remaining to placed, and raises
        the cells under it to its top. */
    method Place(p: Placement)
      requires Valid() && Placeable(p)
      modifies this, heightMap
      ensures Valid()
      ensures placements == old(placements) + [p]
      ensures groupPlacements == old(groupPlacements)[p.slot := old(groupPlacements)[p.slot] + [p]]
      ensures remaining == old(remaining)[p.slot := old(remaining)[p.slot] - 1]
      ensures placedCount == old(placedCount)[p.slot := old(placedCount)[p.slot] + 1]
      ensures forall i: nat, j: nat ::
        Cell(i, j) == if InFootprint(p, i, j, gridL, gridW) then Top(p) else old(Cell(i, j))
      ensures forall i: nat, j: nat :: old(Cell(i, j)) <= Cell(i, j)
    {
      assert RestsAbove(placements, p, gridL, gridW);
      Record(p);
      RaiseFootprint(p.localL, p.localW, p.l, p.w, Top(p));
      forall i: nat, j: nat
        ensures Cell(i, j) == if InFootprint(p, i, j, gridL, gridW) then Top(p) else old(Cell(i, j))
      {
        assert InFootprint(p, i, j, gridL, gridW) == Under(i, j, p.localL, p.localW, p.l, p.w);
      }
      assert placements[..|placements| - 1] == old(placements);
      forall i: nat, j: nat
        ensures Cell(i, j) == HeightAt(placements, gridL, gridW, i, j)
      {
        assert old(Cell(i, j)) == HeightAt(old(placements), gridL, gridW, i, j);
      }
    }

    /** The bookkeeping half of `Place`: the lists and the counts. */
    method Record(p: Placement)
      requires Shape() && Counts() && WellPlaced() && Stacked()
      requires LegalFor(groups, L, W, H, p) && remaining[p.slot] > 0 && RestsAbove(placements, p, gridL, gridW)
      modifies this
      ensures Shape() && Counts() && WellPlaced() && Stacked()
      ensures placements == old(placements) + [p]
      ensures groupPlacements == old(groupPlacements)[p.slot := old(groupPlacements)[p.slot] + [p]]
      ensures remaining == old(remaining)[p.slot := old(remaining)[p.slot] - 1]
      ensures placedCount == old(placedCount)[p.slot := old(placedCount)[p.slot] + 1]
    {
      StackedSnoc(placements, p, gridL, gridW);
      PlacedWellSnoc(groups, L, W, H, placements, p);
      ConservedSnoc(groups, remaining, placedCount, groupPlacements, placements, p);
      placements := placements + [p];
      groupPlacements := groupPlacements[p.slot := groupPlacements[p.slot] + [p]];
      remaining := remaining[p.slot := remaining[p.slot] - 1];
      placedCount := placedCount[p.slot := placedCount[p.slot] + 1];
    }

    /** The main loop: while some group has boxes left and fewer than
        `MaxIterations` rounds have run, collect the candidate positions,
        select the best legal triple and place it; stop early when no triple
        is legal. */
    method Run() returns (iterations: nat)
      requires Valid()
      modifies this, heightMap
      ensures Valid()
      ensures iterations <= MaxIterations
      ensures GreedyFrom(Ld(), old(placements), placements)
      ensures forall i: nat, j: nat :: old(Cell(i, j)) <= Cell(i, j)
      ensures |placements| == |old(placements)| + iterations ||
              (|placements| + 1 == |old(placements)| + iterations && Stuck(Ld(), placements))
      ensures !AnyPositive(remaining) || iterations == MaxIterations || Stuck(Ld(), placements)
    {
      iterations := 0;
      while AnyPositive(remaining) && iterations < MaxIterations
        invariant Valid()
        invariant iterations <= MaxIterations
        invariant GreedyFrom(Ld(), old(placements), placements)
        invariant forall i: nat, j: nat :: old(Cell(i, j)) <= Cell(i, j)
        invariant |placements| == |old(placements)| + iterations
        decreases MaxIterations - iterations
      {
        iterations := iterations + 1;
        ghost var before := placements;
        var placed, p := Round();
        if !placed {
          return;
        }
        GreedyFromSnoc(Ld(), old(placements), before, p);
      }
    }

    /** One round of the main loop: collect the candidates, select, and
        place the winner `p`, the box the greedy rule picks; report whether
        a box was placed. When none is, nothing changes and no triple is
        legal. */
    method Round() returns (placed: bool, ghost p: Placement)
      requires Valid()
      modifies this, heightMap
      ensures Valid()
      ensures forall i: nat, j: nat :: old(Cell(i, j)) <= Cell(i, j)
      ensures placed ==> GreedyNext(Ld(), old(placements), p) && p.slot < |groups|
      ensures placed ==> placements == old(placements) + [p]
      ensures placed ==> groupPlacements == old(groupPlacements)[p.slot := old(groupPlacements)[p.slot] + [p]]
      ensures placed ==> remaining == old(remaining)[p.slot := old(remaining)[p.slot] - 1]
      ensures placed ==> placedCount == old(placedCount)[p.slot := old(placedCount)[p.slot] + 1]
      ensures placed ==> forall i: nat, j: nat ::
        Cell(i, j) == if InFootprint(p, i, j, gridL, gridW) then Top(p) else old(Cell(i, j))
      ensures !placed ==> unchanged(this) && unchanged(heightMap) && Stuck(Ld(), placements)
    {
      var next := SelectNext();
      if next.None? {
        return false, MakePlacement(0, PackGroup(0, "", 0, 0, 0, 0, 0.0), PackOrientation(0, 0, 0, LWH),
                                    Position(0, 0), 0, L, W);
      }
      Place(next.value);
      return true, next.value;
    }

    /** The selection half of a round: collect the candidate positions and
        pick the winner; the box the greedy rule places next, or nothing
        when no triple is legal. */
    method SelectNext() returns (next: Option<Placement>)
      requires Valid()
      ensures next.Some? ==> GreedyNext(Ld(), placements, next.value) && Placeable(next.value)
      ensures next.None? ==> Stuck(Ld(), placements)
    {
      var cands := CandidatePositions();
      var best := SelectBest(cands);
      if best.None? {
        return None;
      }
      var c := best.value;
      ChosenIsNext(cands, c);
      ChosenPlaceable(cands, c);
      return Some(Chosen(Ld(), cands, c));
    }

    /** Boxes never intersect: for boxes with positive edges, the height-map
        discipline keeps any two placed boxes apart. */
    lemma NoOverlap()
      requires Valid()
      requires PositiveBoxes(groups)
      ensures forall m, n :: 0 <= m < n < |placements| ==> !BoxesOverlap(placements[m], placements[n])
    {
      forall m, n | 0 <= m < n < |placements|
        ensures !BoxesOverlap(placements[m], placements[n])
      {
        var pm, pn := placements[m], placements[n];
        assert LegalFor(groups, L, W, H, pm) && LegalFor(groups, L, W, H, pn);
        var gm, gn := groups[pm.slot], groups[pn.slot];
        PermutePositive(gm.l, gm.w, gm.h, pm.perm);
        PermutePositive(gn.l, gn.w, gn.h, pn.perm);
        if FootprintsOverlap(pm, pn) {
          OverlapSharesCell(pm, pn, L, W, H);
          var i := Max(pm.localL, pn.localL) / Resolution;
          var j := Max(pm.localW, pn.localW) / Resolution;
          assert InFootprint(pm, i, j, gridL, gridW) && InFootprint(pn, i, j, gridL, gridW);
          assert Top(pm) <= pn.localH;
        }
      }
    }
  }

  /** The highest box top among `ps`, 0 for none. */
  function MaxTop(ps: seq<Placement>): (r: nat)
    ensures forall n :: 0 <= n < |ps| ==> Top(ps[n]) <= r
    ensures ps == [] ==> r == 0
  {
    if ps == [] then 0 else Max(MaxTop(ps[..|ps| - 1]), Top(ps[|ps| - 1]))
  }

  /** The highest top is the top of one of the boxes. */
  lemma {:induction false} MaxTopAttained(ps: seq<Placement>)
    requires ps != []
    ensures exists n :: 0 <= n < |ps| && Top(ps[n]) == MaxTop(ps)
  {
    var init := ps[..|ps| - 1];
    if init != [] && MaxTop(init) >= Top(ps[|ps| - 1]) {
      MaxTopAttained(init);
      var n :| 0 <= n < |init| && Top(init[n]) == MaxTop(init);
      assert ps[n] == init[n];
    } else {
      assert Top(ps[|ps| - 1]) == MaxTop(ps);
    }
  }

  /** Boxes inside the container stay below its height. */
  lemma MaxTopBounded(groups: seq<PackGroup>, L: nat, W: nat, H: nat, ps: seq<Placement>)
    requires PlacedWell(groups, L, W, H, ps)
    ensures MaxTop(ps) <= H
  {
    if ps != [] {
      MaxTopAttained(ps);
      var n :| 0 <= n < |ps| && Top(ps[n]) == MaxTop(ps);
      assert LegalFor(groups, L, W, H, ps[n]);
    }
  }

  ghost predicate PositiveBoxes(groups: seq<PackGroup>)
  {
    forall k :: 0 <= k < |groups| ==> groups[k].l > 0 && groups[k].w > 0 && groups[k].h > 0
  }

  /** Reordering keeps every box's edges positive. */
  lemma PositiveBoxesPermuted(groups: seq<PackGroup>, sorted: seq<PackGroup>)
    requires multiset(sorted) == multiset(groups) && PositiveBoxes(groups)
    ensures PositiveBoxes(sorted)
  {
    forall k | 0 <= k < |sorted|
      ensures sorted[k].l > 0 && sorted[k].w > 0 && sorted[k].h > 0
    {
      assert sorted[k] in multiset(groups);
    }
  }

  /** The loop that computes `usedHeight`. */
  method UsedHeight(ps: seq<Placement>) returns (maxUsedH: nat)
    ensures maxUsedH == MaxTop(ps)
  {
    maxUsedH := 0;
    var n := 0;
    while n < |ps|
      invariant n <= |ps|
      invariant maxUsedH == MaxTop(ps[..n])
    {
      var top := ps[n].localH + ps[n].h;
      if top > maxUsedH {
        maxUsedH := top;
      }
      assert ps[..n + 1][..n] == ps[..n];
      n := n + 1;
    }
    assert ps[..|ps|] == ps;
  }

  /** The sort key of `runMaxRectsPacking`: larger boxes first. */
  function NegVolume(g: PackGroup): real
  {
    -(g.l * g.w * g.h) as real
  }

  /** The main loop has ended once `ps` are placed: no group has a box
      left (`hasRemainingBoxes` is false), the round limit is reached, or no
      triple is legal. */
  ghost predicate Finished(ld: Load, ps: seq<Placement>)
  {
    (forall k :: 0 <= k < |ld.groups| ==> Unplaced(ld, ps, k) <= 0) || |ps| == MaxIterations || Stuck(ld, ps)
  }

  /** `ps` is what `runMaxRectsPacking` places for `groups`: with the
      groups in stable largest-volume-first order, the greedy rounds from an
      empty container, run until the loop ends. */
  ghost predicate GreedyRun(groups: seq<PackGroup>, L: nat, W: nat, H: nat, ps: seq<Placement>)
  {
    var ld := Load(SortByKey(groups, NegVolume), L, W, H);
    GreedyFrom(ld, [], ps) && Finished(ld, ps)
  }

  /** A fresh packer for `sorted`, run until it stops: the boxes it holds
      are the greedy rounds from nothing, and it stopped because nothing
      remains, the round limit was reached or no box fits. */
  method PackSorted(sorted: seq<PackGroup>, L: nat, W: nat, H: nat) returns (packer: GreedyPacker)
    ensures packer.groups == sorted && packer.L == L && packer.W == W && packer.H == H
    ensures packer.Valid()
    ensures GreedyFrom(Load(sorted, L, W, H), [], packer.placements)
    ensures !AnyPositive(packer.remaining) || |packer.placements| == MaxIterations ||
      Stuck(Load(sorted, L, W, H), packer.placements)
    ensures Finished(Load(sorted, L, W, H), packer.placements)
  {
    packer := new GreedyPacker(sorted, L, W, H);
    var iterations := packer.Run();
    if !AnyPositive(packer.remaining) {
      forall k | 0 <= k < |sorted|
        ensures Unplaced(Load(sorted, L, W, H), packer.placements, k) <= 0
      {
        assert packer.remaining[k] <= 0;
      }
    }
  }

  /** `runMaxRectsPacking`: sorts the groups by box volume, largest first
      (stable), and runs the greedy packer on them. Returns the placements,
      the height of the highest box top, and the packer itself, whose state
      holds the per-group lists and counts. */
  method RunMaxRectsPacking(groups: seq<PackGroup>, L: nat, W: nat, H: nat)
    returns (placements: seq<Placement>, usedHeight: nat, packer: GreedyPacker)
    ensures packer.groups == SortByKey(groups, NegVolume)
    ensures multiset(packer.groups) == multiset(groups) && SortedBy(packer.groups, NegVolume)
    ensures packer.L == L && packer.W == W && packer.H == H
    ensures packer.Valid() && placements == packer.placements
    ensures PlacedWell(packer.groups, L, W, H, placements)
    ensures forall k :: 0 <= k < |packer.groups| ==>
      packer.placedCount[k] + packer.remaining[k] == packer.groups[k].qty &&
      packer.groupPlacements[k] == OfSlot(placements, k) && packer.placedCount[k] == |packer.groupPlacements[k]|
    ensures PositiveBoxes(groups) ==>
      forall m, n :: 0 <= m < n < |placements| ==> !BoxesOverlap(placements[m], placements[n])
    ensures usedHeight == MaxTop(placements) && usedHeight <= H
    ensures GreedyFrom(Load(packer.groups, L, W, H), [], placements)
    ensures !AnyPositive(packer.remaining) || |placements| == MaxIterations ||
      Stuck(Load(packer.groups, L, W, H), placements)
    ensures Finished(Load(packer.groups, L, W, H), placements) && GreedyRun(groups, L, W, H, placements)
  {
    var sorted := SortByKey(groups, NegVolume);
    packer := PackSorted(sorted, L, W, H);
    placements := packer.placements;
    usedHeight := UsedHeight(placements);
    MaxTopBounded(sorted, L, W, H, placements);
    if PositiveBoxes(groups) {
      PositiveBoxesPermuted(groups, sorted);
      packer.NoOverlap();
    }
  }
}
