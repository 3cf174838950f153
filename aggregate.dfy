/** `packGroups`: builds the group records, runs the greedy packer on the
    active groups, and gathers the totals, the extents, the stability
    analysis, the centre of mass, the per-group results and the layer count
    into one result. */
module Aggregate {
  import opened Basics
  import opened Grid
  import opened Orientations
  import opened Packer
  import opened Stability
  import opened Groups

  /** The weight summary: the full record, or the bare centre reported for a
      degenerate container. */
  datatype WeightDistribution =
    | Balance(centerOfMass: Point, isBalanced: bool)
    | CentreOnly(centerOfMass: Point)

  datatype PackResult = PackResult(
    palletL: int, palletW: int, palletH: int,
    totalCartons: nat, totalLayers: nat, totalVolume: nat,
    usedL: nat, usedW: nat, usedH: nat,
    groups: seq<GroupResult>,
    stability: StabilityReport,
    weightDistribution: WeightDistribution,
    volumeUtilization: Option<real>, packingDensity: Option<real>)

  const Origin := Point(0.0, 0.0, 0.0)

  /** The result for a container with a dimension that is not positive. */
  function DegenerateResult(L: int, W: int, H: int): PackResult
  {
    PackResult(L, W, H, 0, 0, 0, 0, 0, 0, [], ScoreOnly(0.0, []), CentreOnly(Origin), None, None)
  }

  /** `createEmptyResult`: every group echoed with nothing placed. */
  function EmptyResult(L: int, W: int, H: int, gd: seq<GroupData>): PackResult
  {
    PackResult(L, W, H, 0, 0, 0, 0, 0, 0, EmptyGroups(gd), Analysed(1.0, [], true, ""),
               Balance(Origin, true), None, None)
  }

  /** The running values of the totals loop. */
  datatype Totals = Totals(
    cartons: nat, volume: nat, maxUsedH: nat,
    minUsedL: int, maxUsedL: int, minUsedW: int, maxUsedW: int,
    weight: real, weightedX: real, weightedY: real, weightedZ: real)

  /** A box's recorded volume, or its edges' product when none was
      recorded. */
  function CartonVolume(p: Placement): nat
  {
    if p.volume != 0 then p.volume else p.l * p.w * p.h
  }

  /** A box centre's coordinate weighted by the box's weight. */
  function Moment(c: real, w: real): real
  {
    c * w
  }

  /** The summed volume of the boxes. */
  function VolumeSum(ps: seq<Placement>): nat
  {
    if ps == [] then 0 else VolumeSum(ps[..|ps| - 1]) + CartonVolume(ps[|ps| - 1])
  }

  /** One step of the totals loop. */
  function Accumulate(t: Totals, p: Placement): Totals
  {
    Totals(t.cartons + 1,
           t.volume + CartonVolume(p),
           Max(t.maxUsedH, p.localH + p.h),
           Min(t.minUsedL, p.localL), Max(t.maxUsedL, p.localL + p.l),
           Min(t.minUsedW, p.localW), Max(t.maxUsedW, p.localW + p.w),
           t.weight + p.weight,
           t.weightedX + Moment(p.x, p.weight), t.weightedY + Moment(p.y, p.weight),
           t.weightedZ + Moment(p.z, p.weight))
  }

  /** The totals over `ps`, starting from the container's far edges for the
      minima and 0 for everything else. */
  function TotalsOf(ps: seq<Placement>, L: int, W: int): Totals
  {
    if ps == [] then Totals(0, 0, 0, L, 0, W, 0, 0.0, 0.0, 0.0, 0.0)
    else Accumulate(TotalsOf(ps[..|ps| - 1], L, W), ps[|ps| - 1])
  }

  lemma TotalsOfSnoc(ps: seq<Placement>, n: nat, L: int, W: int)
    requires n < |ps|
    ensures TotalsOf(ps[..n + 1], L, W) == Accumulate(TotalsOf(ps[..n], L, W), ps[n])
  {
    assert ps[..n + 1][..n] == ps[..n];
  }

  /** The totals loop of `packGroups`. */
  method Tally(ps: seq<Placement>, L: int, W: int) returns (t: Totals)
    ensures t == TotalsOf(ps, L, W)
  {
    var totalCartons: nat, totalVolume: nat, maxUsedH: nat := 0, 0, 0;
    var minUsedL, maxUsedL, minUsedW, maxUsedW := L, 0, W, 0;
    var totalWeight, weightedX, weightedY, weightedZ := 0.0, 0.0, 0.0, 0.0;
    for n := 0 to |ps|
      invariant totalCartons == TotalsOf(ps[..n], L, W).cartons
      invariant totalVolume == TotalsOf(ps[..n], L, W).volume
      invariant maxUsedH == TotalsOf(ps[..n], L, W).maxUsedH
      invariant minUsedL == TotalsOf(ps[..n], L, W).minUsedL && maxUsedL == TotalsOf(ps[..n], L, W).maxUsedL
      invariant minUsedW == TotalsOf(ps[..n], L, W).minUsedW && maxUsedW == TotalsOf(ps[..n], L, W).maxUsedW
      invariant totalWeight == TotalsOf(ps[..n], L, W).weight
      invariant weightedX == TotalsOf(ps[..n], L, W).weightedX
      invariant weightedY == TotalsOf(ps[..n], L, W).weightedY
      invariant weightedZ == TotalsOf(ps[..n], L, W).weightedZ
    {
      var p := ps[n];
      totalCartons := totalCartons + 1;
      totalVolume := totalVolume + CartonVolume(p);
      maxUsedH := Max(maxUsedH, p.localH + p.h);
      minUsedL := Min(minUsedL, p.localL);
      maxUsedL := Max(maxUsedL, p.localL + p.l);
      minUsedW := Min(minUsedW, p.localW);
      maxUsedW := Max(maxUsedW, p.localW + p.w);
      var w := p.weight;
      totalWeight := totalWeight + w;
      weightedX := weightedX + Moment(p.x, w);
      weightedY := weightedY + Moment(p.y, w);
      weightedZ := weightedZ + Moment(p.z, w);
      TotalsOfSnoc(ps, n, L, W);
    }
    assert ps[..|ps|] == ps;
    t := Totals(totalCartons, totalVolume, maxUsedH, minUsedL, maxUsedL, minUsedW, maxUsedW,
                totalWeight, weightedX, weightedY, weightedZ);
  }

  /** The loop counts the boxes, finds the highest top, and brackets every
      box between its minimum start and maximum end along the length and
      the width; the minima never pass the container's far edges. */
  lemma {:induction false} TotalsSpec(ps: seq<Placement>, L: nat, W: nat)
    ensures var t := TotalsOf(ps, L, W);
      t.cartons == |ps| && t.maxUsedH == MaxTop(ps) &&
      0 <= t.minUsedL <= L && 0 <= t.minUsedW <= W && t.maxUsedL >= 0 && t.maxUsedW >= 0 &&
      forall p :: p in ps ==>
        t.minUsedL <= p.localL && p.localL + p.l <= t.maxUsedL &&
        t.minUsedW <= p.localW && p.localW + p.w <= t.maxUsedW
    ensures (forall p :: p in ps ==> p.localL + p.l <= L && p.localW + p.w <= W) ==>
      TotalsOf(ps, L, W).maxUsedL <= L && TotalsOf(ps, L, W).maxUsedW <= W
  {
    if ps != [] {
      var init := ps[..|ps| - 1];
      TotalsSpec(init, L, W);
      assert ps == init + [ps[|ps| - 1]];
      assert forall p :: p in init ==> p in ps;
    }
  }

  /** The loop's volume is the summed volume of the boxes. */
  lemma {:induction false} TotalsVolume(ps: seq<Placement>, L: nat, W: nat)
    ensures TotalsOf(ps, L, W).volume == VolumeSum(ps)
  {
    if ps != [] {
      TotalsVolume(ps[..|ps| - 1], L, W);
    }
  }

  /** `usedL` / `usedW`: the span from the minimum start to the maximum end,
      0 when nothing was placed or the span is empty. */
  function UsedExtent(cartons: nat, lo: int, hi: int): nat
  {
    if cartons > 0 && hi > lo then hi - lo else 0
  }

  /** The used extent covers every box and stays within the container. */
  lemma UsedExtentBounds(ps: seq<Placement>, L: nat, W: nat)
    requires forall p :: p in ps ==> p.localL + p.l <= L && p.localW + p.w <= W
    ensures var t := TotalsOf(ps, L, W);
      var usedL := UsedExtent(t.cartons, t.minUsedL, t.maxUsedL);
      var usedW := UsedExtent(t.cartons, t.minUsedW, t.maxUsedW);
      usedL <= L && usedW <= W && forall p :: p in ps ==> p.l <= usedL && p.w <= usedW
  {
    TotalsSpec(ps, L, W);
  }

  /** The centre of mass: weighted mean of the box centres, the origin when
      there is no weight. */
  function CentreOfMass(t: Totals): Point
  {
    if t.weight > 0.0
    then Point(t.weightedX / t.weight, t.weightedY / t.weight, t.weightedZ / t.weight)
    else Origin
  }

  /** The boxes in the order the support pass scans them, each with the
      support it computes over the boxes before it. */
  function ScanSupports(sorted: seq<Placement>): (r: seq<Placement>)
    ensures |r| == |sorted|
  {
    seq(|sorted|, i requires 0 <= i < |sorted| => sorted[i].(support := BoxSupport(sorted[..i], sorted[i])))
  }

  /** What `analyzeStability` reports for `ps`. */
  function StabilityOf(ps: seq<Placement>): StabilityReport
  {
    Analysed(MeanSupport(ps), IssuesOf(ps), IssuesOf(ps) == [],
             OverallRecommendation(MeanSupport(ps), |IssuesOf(ps)|))
  }

  /** The support pass of `packGroups`: when there are boxes, sort them by
      floor height (stable), write every box's support and analyse the
      result; with no boxes the analysis is skipped. */
  method SupportPass(ps: seq<Placement>) returns (report: StabilityReport)
    ensures ps == [] ==> report == Analysed(1.0, [], true, "")
    ensures ps != [] ==> report == StabilityOf(ScanSupports(SortByKey(ps, FloorKey)))
  {
    if |ps| == 0 {
      return Analysed(1.0, [], true, "");
    }
    var sorted := SortByKey(ps, FloorKey);
    var a := new Placement[|sorted|](i requires 0 <= i < |sorted| => sorted[i]);
    assert a[..] == sorted;
    CalculateSupport(a);
    var supported := a[..];
    assert supported == ScanSupports(sorted);
    report := AnalyzeStability(supported);
    IssuesOfSpec(supported);
  }

  /** With boxes of positive height, the scan finds each box's support over
      all boxes, so the analysed list is the placements with the supports
      the groups report. */
  lemma ScanSupportsOrderFree(ps: seq<Placement>)
    requires forall p :: p in ps ==> p.h > 0
    ensures ScanSupports(SortByKey(ps, FloorKey)) == ResupportAll(ps, SortByKey(ps, FloorKey))
  {
    var sorted := SortByKey(ps, FloorKey);
    forall i | 0 <= i < |sorted|
      ensures ScanSupports(sorted)[i] == ResupportAll(ps, sorted)[i]
    {
      SortedScanSeesAll(ps, sorted, i);
    }
  }

  /** The floor heights that occur in `ps`. */
  function Heights(ps: seq<Placement>): set<nat>
  {
    set p | p in ps :: p.localH
  }

  /** There are never more distinct floor heights than boxes. */
  lemma {:induction false} HeightsBound(ps: seq<Placement>)
    ensures |Heights(ps)| <= |ps|
  {
    if ps != [] {
      var init := ps[..|ps| - 1];
      HeightsBound(init);
      HeightsSnoc(ps, |ps| - 1);
      assert ps[..|ps| - 1 + 1] == ps;
    }
  }

  lemma HeightsSnoc(ps: seq<Placement>, m: nat)
    requires m < |ps|
    ensures Heights(ps[..m + 1]) == Heights(ps[..m]) + {ps[m].localH}
  {
    assert ps[..m + 1] == ps[..m] + [ps[m]];
  }

  /** The floor heights of every reported box, group by group. */
  function LayerSet(rs: seq<GroupResult>): set<nat>
  {
    if rs == [] then {} else LayerSet(rs[..|rs| - 1]) + Heights(rs[|rs| - 1].placements)
  }

  lemma {:induction false} LayerSetMembers(rs: seq<GroupResult>, h: nat)
    ensures h in LayerSet(rs) <==> exists k, p :: 0 <= k < |rs| && p in rs[k].placements && p.localH == h
  {
    if rs != [] {
      var init := rs[..|rs| - 1];
      LayerSetMembers(init, h);
      if h in LayerSet(rs) && h !in LayerSet(init) {
        var p :| p in rs[|rs| - 1].placements && p.localH == h;
      }
      if exists k, p :: 0 <= k < |rs| && p in rs[k].placements && p.localH == h {
        var k, p :| 0 <= k < |rs| && p in rs[k].placements && p.localH == h;
        if k < |rs| - 1 {
          assert rs[k] == init[k];
        }
      }
    }
  }

  lemma LayerSetSnoc(rs: seq<GroupResult>, k: nat)
    requires k < |rs|
    ensures LayerSet(rs[..k + 1]) == LayerSet(rs[..k]) + Heights(rs[k].placements)
  {
    assert rs[..k + 1][..k] == rs[..k];
  }

  /** The layer count of `packGroups`: the number of distinct floor heights
      among the reported boxes. */
  method CountLayers(rs: seq<GroupResult>) returns (totalLayers: nat)
    ensures totalLayers == |LayerSet(rs)|
  {
    var allHeights: set<nat> := {};
    for k := 0 to |rs|
      invariant allHeights == LayerSet(rs[..k])
    {
      var ps := rs[k].placements;
      for m := 0 to |ps|
        invariant allHeights == LayerSet(rs[..k]) + Heights(ps[..m])
      {
        HeightsSnoc(ps, m);
        allHeights := allHeights + {ps[m].localH};
      }
      LayerSetSnoc(rs, k);
    }
    assert rs[..|rs|] == rs;
    totalLayers := |allHeights|;
  }

  /** The placed counts of the reported groups. */
  function PlacedQtys(rs: seq<GroupResult>): (r: seq<nat>)
    ensures |r| == |rs| && forall k :: 0 <= k < |rs| ==> r[k] == rs[k].placedQty
  {
    seq(|rs|, k requires 0 <= k < |rs| => rs[k].placedQty)
  }

  /** The reported group echoes the caller's group. */
  predicate Echoes(g: GroupSpec, rg: GroupResult)
  {
    rg.id == g.id && rg.l == g.l && rg.w == g.w && rg.h == g.h && rg.qty == Max(0, g.qty) &&
    rg.weight == (if g.weight == 0.0 then 1.0 else g.weight)
  }

  /** Every reported box lies inside the container and within the used
      extents. */
  ghost predicate BoxesWithin(r: PackResult, L: nat, W: nat, H: nat)
  {
    forall k, p :: 0 <= k < |r.groups| && p in r.groups[k].placements ==> BoxWithin(r, p, L, W, H)
  }

  predicate BoxWithin(r: PackResult, p: Placement, L: nat, W: nat, H: nat)
  {
    Inside(p, L, W, H) && p.l <= r.usedL && p.w <= r.usedW && Top(p) <= r.usedH
  }

  /** No two different reported boxes overlap. */
  ghost predicate Disjoint(r: PackResult)
  {
    forall k1, p, k2, q ::
      0 <= k1 < |r.groups| && 0 <= k2 < |r.groups| && p in r.groups[k1].placements &&
      q in r.groups[k2].placements && p != q ==>
      !BoxesOverlap(p, q)
  }

  /** The load is reported stable exactly when every reported box has
      enough support. */
  ghost predicate StableIffSupported(r: PackResult)
  {
    r.stability.Analysed? &&
    (r.stability.isStable <==>
       forall k, p :: 0 <= k < |r.groups| && p in r.groups[k].placements ==> p.support >= StabilityThreshold)
  }

  /** The used height is the top of the highest reported box, 0 when there
      is none. */
  ghost predicate HeightReached(r: PackResult)
  {
    (r.totalCartons == 0 ==> r.usedH == 0) &&
    (r.totalCartons > 0 ==>
       exists k, p :: 0 <= k < |r.groups| && p in r.groups[k].placements && Top(p) == r.usedH)
  }

  /** Every reported support, and so the score, lies in [0, 1]. */
  ghost predicate SupportsAreFractions(r: PackResult)
  {
    0.0 <= r.stability.score <= 1.0 &&
    forall k, p :: 0 <= k < |r.groups| && p in r.groups[k].placements ==> 0.0 <= p.support <= 1.0
  }

  /** The issues are exactly the reported boxes below the threshold, each
      with its centre, its support and the text for its band. */
  ghost predicate IssuesReported(r: PackResult)
  {
    (forall e :: e in r.stability.issues ==>
       e.support < StabilityThreshold && e.recommendation == StabilityRecommendation(e.support) &&
       exists k, p :: 0 <= k < |r.groups| && p in r.groups[k].placements &&
         e.position == Centre(p) && e.support == p.support) &&
    (forall k, p :: 0 <= k < |r.groups| && p in r.groups[k].placements && p.support < StabilityThreshold ==>
       Issue(Centre(p), p.support, StabilityRecommendation(p.support)) in r.stability.issues)
  }

  /** The figures of `r` that are computed from the placed boxes `all`:
      every placed box is reported with its support in its own group's list,
      each group's list holds only its own boxes and its count is the number
      of its boxes, and the placed boxes are as many as the reported ones and
      stay distinct once resupported, so the reported boxes are exactly the
      placed ones. The volume is the sum of their volumes; the used extents
      are those the totals loop gives; the stability report is the support
      pass over the floor-sorted boxes (the default report when there are
      none), whose score is the mean of their supports; the centre of mass
      is their weighted mean centre. */
  ghost predicate Summarises(r: PackResult, all: seq<Placement>, L: nat, W: nat)
  {
    var t := TotalsOf(all, L, W);
    CountsOwnBoxes(r, all) &&
    (forall n :: 0 <= n < |all| ==>
       all[n].groupIndex < |r.groups| && Resupported(all, all[n]) in r.groups[all[n].groupIndex].placements) &&
    (forall m, n :: 0 <= m < n < |all| ==> Resupported(all, all[m]) != Resupported(all, all[n])) &&
    r.totalVolume == VolumeSum(all) &&
    r.usedL == UsedExtent(t.cartons, t.minUsedL, t.maxUsedL) &&
    r.usedW == UsedExtent(t.cartons, t.minUsedW, t.maxUsedW) && r.usedH == t.maxUsedH &&
    (all == [] ==> r.stability == Analysed(1.0, [], true, "")) &&
    (all != [] ==> r.stability == StabilityOf(ScanSupports(SortByKey(all, FloorKey)))) &&
    r.stability.score == MeanSupport(ResupportAll(all, all)) &&
    r.weightDistribution.Balance? && r.weightDistribution.centerOfMass == CentreOfMass(t)
  }

  /** The boxes `all` are as many as the reported total, each group's count
      is the number of its boxes among them, and each group's list holds
      only its own boxes. */
  ghost predicate CountsOwnBoxes(r: PackResult, all: seq<Placement>)
  {
    |all| == r.totalCartons &&
    (forall k :: 0 <= k < |r.groups| ==> r.groups[k].placedQty == CountIndex(all, k)) &&
    (forall k, p :: 0 <= k < |r.groups| && p in r.groups[k].placements ==> p.groupIndex == k)
  }

  /** Boxes with positive edges that do not overlap differ in more than
      their supports. */
  lemma DistinctPlaced(all: seq<Placement>)
    requires forall p :: p in all ==> p.l > 0 && p.w > 0 && p.h > 0
    requires forall m, n :: 0 <= m < n < |all| ==> !BoxesOverlap(all[m], all[n])
    ensures forall m, n :: 0 <= m < n < |all| ==> Resupported(all, all[m]) != Resupported(all, all[n])
  {
    forall m, n | 0 <= m < n < |all|
      ensures Resupported(all, all[m]) != Resupported(all, all[n])
    {
      var p, q := all[m], all[n];
      assert p in all && q in all && !BoxesOverlap(p, q);
    }
  }

  /** What `packGroups` promises for a container with positive dimensions. */
  ghost predicate Reported(groups: seq<GroupSpec>, L: nat, W: nat, H: nat, r: PackResult)
    requires L > 0 && W > 0 && H > 0
  {
    r.palletL == L && r.palletW == W && r.palletH == H &&
    |r.groups| == |groups| &&
    (forall k :: 0 <= k < |groups| ==> Echoes(groups[k], r.groups[k])) &&
    (forall k :: 0 <= k < |groups| ==>
       r.groups[k].placedQty <= r.groups[k].qty && r.groups[k].placedQty == |r.groups[k].placements|) &&
    r.totalCartons == Sum(PlacedQtys(r.groups)) &&
    r.usedL <= L && r.usedW <= W && r.usedH <= H &&
    BoxesWithin(r, L, W, H) && HeightReached(r) &&
    r.totalLayers == |LayerSet(r.groups)| &&
    r.totalLayers <= r.totalCartons && (r.totalLayers == 0 <==> r.totalCartons == 0) &&
    StableIffSupported(r) && IssuesReported(r) && SupportsAreFractions(r) &&
    (r.volumeUtilization.Some? ==> r.volumeUtilization == Some(Utilization(r.totalVolume, L, W, H))) &&
    (r.packingDensity.Some? ==>
       r.packingDensity == Some(Density(r.totalCartons, r.totalVolume, r.usedL, r.usedW, r.usedH))) &&
    (r.volumeUtilization.None? || r.packingDensity.None? ==> r.totalCartons == 0) &&
    exists all :: Summarises(r, all, L, W)
  }

  /** A reported result echoes the caller's groups, in order, and places
      no more of a group than it asks for. */
  lemma ReportedEchoes(groups: seq<GroupSpec>, L: nat, W: nat, H: nat, r: PackResult)
    requires L > 0 && W > 0 && H > 0 && Reported(groups, L, W, H, r)
    ensures |r.groups| == |groups|
    ensures forall k :: 0 <= k < |groups| ==> Echoes(groups[k], r.groups[k]) && r.groups[k].placedQty <= r.groups[k].qty
  {
  }

  /** What `packGroups` returns for `groups` in an L × W × H container:
      the degenerate result when a dimension is not positive; otherwise a
      result keeping every promise of `Reported`, with no two boxes
      overlapping, the empty result when no group is active, and otherwise
      summarising exactly the boxes the greedy run places for the active
      groups. */
  ghost predicate GroupsPacked(groups: seq<GroupSpec>, L: int, W: int, H: int, allowVerticalFlip: bool,
                               sideStability: (nat, nat, nat) -> real, r: PackResult)
  {
    if L <= 0 || W <= 0 || H <= 0 then r == DegenerateResult(L, W, H)
    else
      var gd := GroupDataOf(groups, allowVerticalFlip, sideStability, L, W, H);
      Reported(groups, L, W, H, r) && Disjoint(r) && Indexed(gd) &&
      (ActiveOf(gd) == [] ==> r == EmptyResult(L, W, H, gd)) &&
      (ActiveOf(gd) != [] ==> WeightBalanceOf(r, L, W, H)) &&
      exists all :: Summarises(r, all, L, W) && GreedyRun(PackerInput(gd), L, W, H, all)
  }

  /** The reported total is the sum of the groups' counts, and each count
      is that of the group's own boxes. */
  ghost predicate Tallied(r: PackResult)
  {
    r.totalCartons == Sum(PlacedQtys(r.groups)) && exists all :: CountsOwnBoxes(r, all)
  }

  /** Whatever the container, `packGroups`' counts are those of its own
      boxes: the boxes it summarises, or none for a degenerate container. */
  lemma PackedTallied(groups: seq<GroupSpec>, L: int, W: int, H: int, allowVerticalFlip: bool,
                      sideStability: (nat, nat, nat) -> real, r: PackResult)
    requires GroupsPacked(groups, L, W, H, allowVerticalFlip, sideStability, r)
    ensures Tallied(r)
  {
    if L <= 0 || W <= 0 || H <= 0 {
      assert PlacedQtys(r.groups) == [] && CountsOwnBoxes(r, []);
    } else {
      var all :| Summarises(r, all, L, W) &&
        GreedyRun(PackerInput(GroupDataOf(groups, allowVerticalFlip, sideStability, L, W, H)), L, W, H, all);
      assert CountsOwnBoxes(r, all);
    }
  }

  /** The balance flag is the balance test of the reported centre of
      mass. */
  predicate WeightBalanceOf(r: PackResult, L: nat, W: nat, H: nat)
  {
    r.weightDistribution.Balance? &&
    r.weightDistribution.isBalanced ==
      IsWeightBalanced(r.weightDistribution.centerOfMass, L as real, W as real, H as real)
  }

  /** `packGroups`. Group sizes and the container are whole millimetres;
      `sideStability` is the score of a side-laid orientation. */
  method PackGroups(groups: seq<GroupSpec>, palletL: int, palletW: int, palletH: int, allowVerticalFlip: bool,
                    sideStability: (nat, nat, nat) -> real)
    returns (r: PackResult)
    ensures GroupsPacked(groups, palletL, palletW, palletH, allowVerticalFlip, sideStability, r)
  {
    if palletL <= 0 || palletW <= 0 || palletH <= 0 {
      return DegenerateResult(palletL, palletW, palletH);
    }
    var gd := GroupDataOf(groups, allowVerticalFlip, sideStability, palletL, palletW, palletH);
    GroupDataIndexed(groups, allowVerticalFlip, sideStability, palletL, palletW, palletH);
    if |ActiveOf(gd)| == 0 {
      r := EmptyResult(palletL, palletW, palletH, gd);
      EmptyReported(groups, allowVerticalFlip, sideStability, palletL, palletW, palletH);
      NothingActiveRunsEmpty(gd, palletL, palletW, palletH);
      assert Summarises(r, [], palletL, palletW);
      return;
    }
    var allPlacements, resultGroups := PackAndAccount(groups, allowVerticalFlip, sideStability,
                                                      palletL, palletW, palletH, gd);
    var t := Tally(allPlacements, palletL, palletW);
    var usedL := UsedExtent(t.cartons, t.minUsedL, t.maxUsedL);
    var usedW := UsedExtent(t.cartons, t.minUsedW, t.maxUsedW);
    var usedH := t.maxUsedH;
    var stability := SupportPass(allPlacements);
    var centre := CentreOfMass(t);
    var totalLayers := CountLayers(resultGroups);
    r := PackResult(palletL, palletW, palletH, t.cartons, totalLayers, t.volume, usedL, usedW, usedH,
                    resultGroups, stability,
                    Balance(centre, IsWeightBalanced(centre, palletL as real, palletW as real, palletH as real)),
                    Some(Utilization(t.volume, palletL, palletW, palletH)),
                    Some(Density(t.cartons, t.volume, usedL, usedW, usedH)));
    AggregateReported(groups, palletL, palletW, palletH, allPlacements, r);
    assert Summarises(r, allPlacements, palletL, palletW);
  }

  /** With no active group the packer is handed nothing and places
      nothing. */
  lemma NothingActiveRunsEmpty(gd: seq<GroupData>, L: nat, W: nat, H: nat)
    requires Indexed(gd) && ActiveOf(gd) == []
    ensures GreedyRun(PackerInput(gd), L, W, H, [])
  {
    assert |SortByKey(ActiveOf(gd), NegDensity)| == 0 by {
      assert multiset(SortByKey(ActiveOf(gd), NegDensity)) == multiset(ActiveOf(gd));
    }
    var ld := Load([], L, W, H);
    assert PackerInput(gd) == [] && SortByKey(PackerInput(gd), NegVolume) == [];
    assert GreedyFrom(ld, [], []) && Finished(ld, []);
  }

  /** The packing step of `packGroups`: the active groups, largest
      density first, go through the greedy packer, and the caller's
      records collect what was placed for them. */
  method PackAndAccount(groups: seq<GroupSpec>, allowVerticalFlip: bool, sideStability: (nat, nat, nat) -> real,
                        L: nat, W: nat, H: nat, gd: seq<GroupData>)
    returns (all: seq<Placement>, rs: seq<GroupResult>)
    requires L > 0 && W > 0 && H > 0
    requires gd == GroupDataOf(groups, allowVerticalFlip, sideStability, L, W, H)
    ensures GroupsAccount(groups, rs, all, L, W, H) && MaxTop(all) <= H
    ensures Indexed(gd) && GreedyRun(PackerInput(gd), L, W, H, all)
  {
    GroupDataIndexed(groups, allowVerticalFlip, sideStability, L, W, H);
    var input := PackerInput(gd);
    var usedHeight, packer;
    all, usedHeight, packer := RunMaxRectsPacking(input, L, W, H);
    rs := ResultGroups(gd, packer.groups, packer.placedCount, packer.groupPlacements, all);
    GroupsAccounted(groups, allowVerticalFlip, sideStability, L, W, H,
                    gd, packer.groups, packer.remaining, packer.placedCount, packer.groupPlacements, all);
  }

  /** `volumeUtilization`: the share of the container's volume taken by
      the boxes, in percent. */
  function Utilization(volume: nat, L: nat, W: nat, H: nat): (u: real)
    requires L > 0 && W > 0 && H > 0
    ensures u >= 0.0 && (u == 0.0 <==> volume == 0)
  {
    MulPositive(L, W);
    MulPositive(L * W, H);
    volume as real / (L * W * H) as real * 100.0
  }

  /** `packingDensity`: the boxes' volume over the volume of the used
      extents, 0 when nothing was placed or an extent is empty. */
  function Density(cartons: nat, volume: nat, usedL: nat, usedW: nat, usedH: nat): (d: real)
    ensures d >= 0.0
    ensures d > 0.0 <==> cartons > 0 && usedL > 0 && usedW > 0 && usedH > 0 && volume > 0
  {
    if cartons > 0 && usedL > 0 && usedW > 0 && usedH > 0
    then
      MulPositive(usedL, usedW);
      MulPositive(usedL * usedW, usedH);
      volume as real / (usedL * usedW * usedH) as real
    else 0.0
  }

  /** With nothing to pack, the empty result keeps every promise. */
  lemma EmptyReported(groups: seq<GroupSpec>, allowVerticalFlip: bool, sideStability: (nat, nat, nat) -> real,
                      L: nat, W: nat, H: nat)
    requires L > 0 && W > 0 && H > 0
    ensures var gd := GroupDataOf(groups, allowVerticalFlip, sideStability, L, W, H);
      var r := EmptyResult(L, W, H, gd);
      Reported(groups, L, W, H, r) && Disjoint(r)
  {
    var gd := GroupDataOf(groups, allowVerticalFlip, sideStability, L, W, H);
    var r := EmptyResult(L, W, H, gd);
    GroupDataIndexed(groups, allowVerticalFlip, sideStability, L, W, H);
    ZeroSum(PlacedQtys(r.groups));
    forall h | h in LayerSet(r.groups)
      ensures false
    {
      LayerSetMembers(r.groups, h);
    }
    assert LayerSet(r.groups) == {};
    assert Summarises(r, [], L, W);
  }

  /** What the per-group results say about the placed boxes `all`: the
      caller's groups echoed in order, each group's count the number of
      placed boxes of that group, within its quantity and the length of its
      list, every placed box reported in its own group's list and no other,
      every box inside the container with positive edges, and no two placed
      boxes overlapping. */
  ghost predicate GroupsAccount(groups: seq<GroupSpec>, rs: seq<GroupResult>, all: seq<Placement>,
                                L: nat, W: nat, H: nat)
  {
    |rs| == |groups| &&
    (forall k :: 0 <= k < |groups| ==> Echoes(groups[k], rs[k])) &&
    (forall k :: 0 <= k < |groups| ==>
       rs[k].placedQty == CountIndex(all, k) &&
       rs[k].placedQty <= rs[k].qty && rs[k].placedQty == |rs[k].placements|) &&
    Sum(PlacedQtys(rs)) == |all| &&
    Reports(rs, all) &&
    (forall p :: p in all ==> Inside(p, L, W, H) && p.l > 0 && p.w > 0 && p.h > 0) &&
    (forall m, n :: 0 <= m < n < |all| ==> !BoxesOverlap(all[m], all[n]))
  }

  /** The packer's guarantees, carried through the group bookkeeping. */
  lemma GroupsAccounted(groups: seq<GroupSpec>, allowVerticalFlip: bool, sideStability: (nat, nat, nat) -> real,
                        L: nat, W: nat, H: nat, gd: seq<GroupData>, gs: seq<PackGroup>, remaining: seq<nat>,
                        placedCount: seq<nat>, groupPlacements: seq<seq<Placement>>, all: seq<Placement>)
    requires L > 0 && W > 0 && H > 0
    requires gd == GroupDataOf(groups, allowVerticalFlip, sideStability, L, W, H)
    requires multiset(gs) == multiset(PackerInput(gd))
    requires |remaining| == |placedCount| == |groupPlacements| == |gs|
    requires Conserved(gs, remaining, placedCount, groupPlacements, all)
    requires PlacedWell(gs, L, W, H, all)
    requires PositiveBoxes(PackerInput(gd)) ==>
      forall m, n :: 0 <= m < n < |all| ==> !BoxesOverlap(all[m], all[n])
    ensures GroupsAccount(groups, ResultGroups(gd, gs, placedCount, groupPlacements, all), all, L, W, H)
  {
    var rs := ResultGroups(gd, gs, placedCount, groupPlacements, all);
    GroupDataIndexed(groups, allowVerticalFlip, sideStability, L, W, H);
    PackerInputSpec(gd);
    DrawnFromPermutation(PackerInput(gd), gs, gd);
    ResultGroupsSpec(gd, gs, remaining, placedCount, groupPlacements, all, L, W, H);
    ResultGroupsReport(gd, gs, remaining, placedCount, groupPlacements, all, L, W, H);
    assert PlacedQtys(rs) == IndexCounts(all, |gd|);
    AllInside(gs, L, W, H, all);
    PositiveHeights(gd, gs, L, W, H, all);
    PositiveHeights(gd, PackerInput(gd), L, W, H, []);
  }

  /** The aggregation keeps every promise once the group results account
      for the placed boxes, and its sums and means are those over the placed
      boxes. */
  lemma AggregateReported(groups: seq<GroupSpec>, L: nat, W: nat, H: nat, all: seq<Placement>, r: PackResult)
    requires L > 0 && W > 0 && H > 0
    requires GroupsAccount(groups, r.groups, all, L, W, H)
    requires MaxTop(all) <= H
    requires var t := TotalsOf(all, L, W);
      r.palletL == L && r.palletW == W && r.palletH == H && r.totalCartons == t.cartons &&
      r.totalVolume == t.volume &&
      r.usedL == UsedExtent(t.cartons, t.minUsedL, t.maxUsedL) &&
      r.usedW == UsedExtent(t.cartons, t.minUsedW, t.maxUsedW) && r.usedH == t.maxUsedH &&
      r.totalLayers == |LayerSet(r.groups)| &&
      r.weightDistribution.Balance? && r.weightDistribution.centerOfMass == CentreOfMass(t) &&
      r.volumeUtilization == Some(Utilization(r.totalVolume, L, W, H)) &&
      r.packingDensity == Some(Density(r.totalCartons, r.totalVolume, r.usedL, r.usedW, r.usedH))
    requires all == [] ==> r.stability == Analysed(1.0, [], true, "")
    requires all != [] ==> r.stability == StabilityOf(ScanSupports(SortByKey(all, FloorKey)))
    ensures Reported(groups, L, W, H, r) && Disjoint(r)
    ensures Summarises(r, all, L, W)
  {
    TotalsSpec(all, L, W);
    TotalsVolume(all, L, W);
    ReportedWithin(r, all, L, W, H);
    LayersCounted(r, all);
    StabilityReported(r, all);
    DisjointReported(r, all);
    HeightReachedFrom(r, all);
    ScoreReported(r, all);
    IssuesReportedFrom(r, all);
    FractionsReported(r, all);
    DistinctPlaced(all);
    forall n | 0 <= n < |all|
      ensures exists k :: 0 <= k < |r.groups| && Resupported(all, all[n]) in r.groups[k].placements
    {
      var k := ReportOf(r.groups, all, n);
    }
    assert Summarises(r, all, L, W);
  }

  /** The used height, the highest top of the placed boxes, is the top of a
      reported box. */
  lemma HeightReachedFrom(r: PackResult, all: seq<Placement>)
    requires Reports(r.groups, all)
    requires r.totalCartons == |all| && r.usedH == MaxTop(all)
    ensures HeightReached(r)
  {
    if all != [] {
      MaxTopAttained(all);
      var n :| 0 <= n < |all| && Top(all[n]) == MaxTop(all);
      var k := ReportOf(r.groups, all, n);
      assert Top(Resupported(all, all[n])) == r.usedH;
    }
  }

  /** The score the support pass computes over the sorted boxes is the mean
      support of the placed boxes in packing order. */
  lemma ScoreReported(r: PackResult, all: seq<Placement>)
    requires forall p :: p in all ==> p.h > 0
    requires all == [] ==> r.stability == Analysed(1.0, [], true, "")
    requires all != [] ==> r.stability == StabilityOf(ScanSupports(SortByKey(all, FloorKey)))
    ensures r.stability.score == MeanSupport(ResupportAll(all, all))
  {
    if all != [] {
      var sorted := SortByKey(all, FloorKey);
      ScanSupportsOrderFree(all);
      assert |sorted| == |multiset(sorted)| == |all|;
      ResupportPermutation(all, sorted, all);
    }
  }

  /** With boxes of positive height, the issues are exactly the reported
      boxes below the threshold. */
  lemma IssuesReportedFrom(r: PackResult, all: seq<Placement>)
    requires Reports(r.groups, all)
    requires forall p :: p in all ==> p.h > 0
    requires all == [] ==> r.stability == Analysed(1.0, [], true, "")
    requires all != [] ==> r.stability == StabilityOf(ScanSupports(SortByKey(all, FloorKey)))
    ensures IssuesReported(r)
  {
    if all != [] {
      var sorted := SortByKey(all, FloorKey);
      ScanSupportsOrderFree(all);
      IssuesOfSpec(ResupportAll(all, sorted));
      IssuesAreReported(r, all, sorted);
      ReportedAreIssues(r, all, sorted);
    }
  }

  /** Each issue of the sorted, resupported boxes is at a reported box. */
  lemma IssuesAreReported(r: PackResult, all: seq<Placement>, sorted: seq<Placement>)
    requires Reports(r.groups, all) && multiset(sorted) == multiset(all)
    ensures forall e :: e in IssuesOf(ResupportAll(all, sorted)) ==>
      exists k, p :: 0 <= k < |r.groups| && p in r.groups[k].placements &&
        e.position == Centre(p) && e.support == p.support
  {
    var s := ResupportAll(all, sorted);
    IssuesOfSpec(s);
    forall e | e in IssuesOf(s)
      ensures exists k, p ::
        0 <= k < |r.groups| && p in r.groups[k].placements && e.position == Centre(p) && e.support == p.support
    {
      var q :| q in s && e.position == Centre(q) && e.support == q.support;
      var i :| 0 <= i < |s| && s[i] == q;
      assert sorted[i] in multiset(all);
      var n :| 0 <= n < |all| && all[n] == sorted[i];
      var k := ReportOf(r.groups, all, n);
    }
  }

  /** Each reported box below the threshold has its issue among those of
      the sorted, resupported boxes. */
  lemma ReportedAreIssues(r: PackResult, all: seq<Placement>, sorted: seq<Placement>)
    requires Reports(r.groups, all) && multiset(sorted) == multiset(all)
    ensures forall k, p :: 0 <= k < |r.groups| && p in r.groups[k].placements && p.support < StabilityThreshold ==>
      Issue(Centre(p), p.support, StabilityRecommendation(p.support)) in IssuesOf(ResupportAll(all, sorted))
  {
    var s := ResupportAll(all, sorted);
    IssuesOfSpec(s);
    forall k, p | 0 <= k < |r.groups| && p in r.groups[k].placements && p.support < StabilityThreshold
      ensures Issue(Centre(p), p.support, StabilityRecommendation(p.support)) in IssuesOf(s)
    {
      var n := OriginOf(r.groups, all, k, p);
      assert all[n] in multiset(sorted);
      var i :| 0 <= i < |sorted| && sorted[i] == all[n];
      assert s[i] == p;
    }
  }

  /** No two placed boxes overlap, so every support is a fraction, and so
      is their mean. */
  lemma FractionsReported(r: PackResult, all: seq<Placement>)
    requires Reports(r.groups, all) && Separate(all)
    requires r.stability.score == MeanSupport(ResupportAll(all, all))
    ensures SupportsAreFractions(r)
  {
    var s := ResupportAll(all, all);
    forall i | 0 <= i < |s|
      ensures 0.0 <= s[i].support <= 1.0
    {
      SupportAtMostOne(all, all[i]);
    }
    StableScore(s);
    forall k, p | 0 <= k < |r.groups| && p in r.groups[k].placements
      ensures 0.0 <= p.support <= 1.0
    {
      var n := OriginOf(r.groups, all, k, p);
      SupportAtMostOne(all, all[n]);
    }
  }

  /** The supports over `all` of two orderings of the same boxes add up to
      the same total. */
  lemma ResupportPermutation(all: seq<Placement>, s: seq<Placement>, t: seq<Placement>)
    requires multiset(s) == multiset(t)
    ensures TotalSupport(ResupportAll(all, s)) == TotalSupport(ResupportAll(all, t))
  {
    var f := q => BoxSupport(all, q);
    ResupportTotal(all, s);
    ResupportTotal(all, t);
    SumByPermutation(s, t, f);
  }

  /** The total of the resupported boxes sums each box's support over `all`. */
  lemma {:induction false} ResupportTotal(all: seq<Placement>, s: seq<Placement>)
    ensures TotalSupport(ResupportAll(all, s)) == SumBy(s, q => BoxSupport(all, q))
  {
    if s != [] {
      ResupportTotal(all, s[..|s| - 1]);
      assert ResupportAll(all, s)[..|s| - 1] == ResupportAll(all, s[..|s| - 1]);
    }
  }



  lemma AllInside(gs: seq<PackGroup>, L: nat, W: nat, H: nat, all: seq<Placement>)
    requires PlacedWell(gs, L, W, H, all)
    ensures forall p :: p in all ==> Inside(p, L, W, H)
  {
    forall p | p in all
      ensures Inside(p, L, W, H)
    {
      var n :| 0 <= n < |all| && all[n] == p;
      assert LegalFor(gs, L, W, H, all[n]);
    }
  }

  /** The position in the packing order of a reported box. */
  lemma OriginOf(rs: seq<GroupResult>, all: seq<Placement>, k: nat, p: Placement) returns (n: nat)
    requires Reports(rs, all) && k < |rs| && p in rs[k].placements
    ensures n < |all| && p == Resupported(all, all[n])
  {
    var q :| q in all && p == Resupported(all, q);
    n :| n < |all| && all[n] == q;
  }

  /** The group that reports a placed box. */
  lemma ReportOf(rs: seq<GroupResult>, all: seq<Placement>, n: nat) returns (k: nat)
    requires Reports(rs, all) && n < |all|
    ensures k < |rs| && Resupported(all, all[n]) in rs[k].placements
  {
    assert all[n] in all;
    k :| 0 <= k < |rs| && Resupported(all, all[n]) in rs[k].placements;
  }

  lemma ReportedWithin(r: PackResult, all: seq<Placement>, L: nat, W: nat, H: nat)
    requires Reports(r.groups, all)
    requires forall p :: p in all ==> Inside(p, L, W, H)
    requires var t := TotalsOf(all, L, W);
      r.usedL == UsedExtent(t.cartons, t.minUsedL, t.maxUsedL) &&
      r.usedW == UsedExtent(t.cartons, t.minUsedW, t.maxUsedW) && r.usedH == t.maxUsedH
    ensures BoxesWithin(r, L, W, H)
  {
    UsedExtentBounds(all, L, W);
    TotalsSpec(all, L, W);
    forall k, p | 0 <= k < |r.groups| && p in r.groups[k].placements
      ensures BoxWithin(r, p, L, W, H)
    {
      var n := OriginOf(r.groups, all, k, p);
      assert all[n] in all;
    }
  }

  /** The reported boxes stand at exactly the floor heights of the placed
      boxes. */
  lemma LayersOfReport(rs: seq<GroupResult>, all: seq<Placement>)
    requires Reports(rs, all)
    ensures LayerSet(rs) == Heights(all)
  {
    forall h | h in Heights(all)
      ensures h in LayerSet(rs)
    {
      var q :| q in all && q.localH == h;
      var n :| 0 <= n < |all| && all[n] == q;
      var k := ReportOf(rs, all, n);
      LayerSetMembers(rs, h);
    }
    forall h | h in LayerSet(rs)
      ensures h in Heights(all)
    {
      LayerSetMembers(rs, h);
      var k, p :| 0 <= k < |rs| && p in rs[k].placements && p.localH == h;
      var n := OriginOf(rs, all, k, p);
      assert all[n] in all;
    }
  }

  lemma LayersCounted(r: PackResult, all: seq<Placement>)
    requires Reports(r.groups, all)
    requires r.totalCartons == |all| && r.totalLayers == |LayerSet(r.groups)|
    ensures r.totalLayers <= r.totalCartons && (r.totalLayers == 0 <==> r.totalCartons == 0)
  {
    LayersOfReport(r.groups, all);
    HeightsBound(all);
    if all != [] {
      assert all[0].localH in Heights(all);
    }
  }

  /** The packer only holds boxes with positive edges, so every box placed
      has positive edges. */
  lemma PositiveHeights(gd: seq<GroupData>, gs: seq<PackGroup>, L: nat, W: nat, H: nat, all: seq<Placement>)
    requires DrawnFrom(gs, gd) && PlacedWell(gs, L, W, H, all)
    ensures PositiveBoxes(gs)
    ensures forall p :: p in all ==> p.l > 0 && p.w > 0 && p.h > 0
  {
    forall k | 0 <= k < |gs|
      ensures gs[k].l > 0 && gs[k].w > 0 && gs[k].h > 0
    {
      assert gs[k] in gs;
    }
    forall p | p in all
      ensures p.l > 0 && p.w > 0 && p.h > 0
    {
      var n :| 0 <= n < |all| && all[n] == p;
      assert LegalFor(gs, L, W, H, all[n]);
      var g := gs[p.slot];
      PermutePositive(g.l, g.w, g.h, p.perm);
    }
  }

  /** Every box of `ps` has enough support. */
  predicate AllSupported(ps: seq<Placement>)
  {
    forall k :: 0 <= k < |ps| ==> ps[k].support >= StabilityThreshold
  }

  /** Every box of `all` has enough support over `all`. */
  predicate PlacedSupported(all: seq<Placement>)
  {
    forall n :: 0 <= n < |all| ==> BoxSupport(all, all[n]) >= StabilityThreshold
  }

  /** Every box of a permutation of `all`, with its support over `all`,
      clears the threshold exactly when every box of `all` does. */
  lemma ThresholdPermuted(all: seq<Placement>, sorted: seq<Placement>)
    requires multiset(sorted) == multiset(all)
    ensures AllSupported(ResupportAll(all, sorted)) <==> PlacedSupported(all)
  {
    var s := ResupportAll(all, sorted);
    if forall i :: 0 <= i < |sorted| ==> s[i].support >= StabilityThreshold {
      forall n | 0 <= n < |all|
        ensures BoxSupport(all, all[n]) >= StabilityThreshold
      {
        assert all[n] in multiset(sorted);
        var i :| 0 <= i < |sorted| && sorted[i] == all[n];
        assert s[i].support == BoxSupport(all, all[n]);
      }
    }
    if forall n :: 0 <= n < |all| ==> BoxSupport(all, all[n]) >= StabilityThreshold {
      forall i | 0 <= i < |sorted|
        ensures s[i].support >= StabilityThreshold
      {
        assert sorted[i] in multiset(all);
        var n :| 0 <= n < |all| && all[n] == sorted[i];
      }
    }
  }

  /** The reported boxes clear the threshold exactly when the placed boxes
      do, with their supports over all placed boxes. */
  lemma ThresholdReported(rs: seq<GroupResult>, all: seq<Placement>)
    requires Reports(rs, all)
    ensures PlacedSupported(all) <==>
            (forall k, p :: 0 <= k < |rs| && p in rs[k].placements ==> p.support >= StabilityThreshold)
  {
    if forall n :: 0 <= n < |all| ==> BoxSupport(all, all[n]) >= StabilityThreshold {
      forall k, p | 0 <= k < |rs| && p in rs[k].placements
        ensures p.support >= StabilityThreshold
      {
        var n := OriginOf(rs, all, k, p);
      }
    }
    if forall k, p :: 0 <= k < |rs| && p in rs[k].placements ==> p.support >= StabilityThreshold {
      forall n | 0 <= n < |all|
        ensures BoxSupport(all, all[n]) >= StabilityThreshold
      {
        var k := ReportOf(rs, all, n);
      }
    }
  }

  lemma StabilityReported(r: PackResult, all: seq<Placement>)
    requires Reports(r.groups, all)
    requires forall p :: p in all ==> p.h > 0
    requires all == [] ==> r.stability == Analysed(1.0, [], true, "")
    requires all != [] ==> r.stability == StabilityOf(ScanSupports(SortByKey(all, FloorKey)))
    ensures StableIffSupported(r)
  {
    ThresholdReported(r.groups, all);
    StableIffPlaced(r.stability, all);
  }

  /** The analysis calls the load stable exactly when every placed box has
      enough support over all placed boxes. */
  lemma StableIffPlaced(st: StabilityReport, all: seq<Placement>)
    requires forall p :: p in all ==> p.h > 0
    requires all == [] ==> st == Analysed(1.0, [], true, "")
    requires all != [] ==> st == StabilityOf(ScanSupports(SortByKey(all, FloorKey)))
    ensures st.Analysed?
    ensures st.isStable <==> PlacedSupported(all)
  {
    if all != [] {
      var sorted := SortByKey(all, FloorKey);
      var s := ResupportAll(all, sorted);
      ScanSupportsOrderFree(all);
      assert st == StabilityOf(s);
      StableIffAllSupported(s);
      ThresholdPermuted(all, sorted);
    }
  }

  /** The analysis of `ps` calls it stable exactly when every box has enough
      support. */
  lemma StableIffAllSupported(ps: seq<Placement>)
    ensures StabilityOf(ps).isStable <==> AllSupported(ps)
  {
    IssuesOfSpec(ps);
  }

  lemma DisjointReported(r: PackResult, all: seq<Placement>)
    requires Reports(r.groups, all)
    requires forall m, n :: 0 <= m < n < |all| ==> !BoxesOverlap(all[m], all[n])
    ensures Disjoint(r)
  {
    forall k1, p, k2, q |
      0 <= k1 < |r.groups| && 0 <= k2 < |r.groups| && p in r.groups[k1].placements &&
      q in r.groups[k2].placements && p != q
      ensures !BoxesOverlap(p, q)
    {
      var m := OriginOf(r.groups, all, k1, p);
      var n := OriginOf(r.groups, all, k2, q);
      ResupportedApart(all, m, n);
    }
  }

  /** Two different placed boxes, resupported, still do not overlap. */
  lemma ResupportedApart(all: seq<Placement>, m: nat, n: nat)
    requires m < |all| && n < |all|
    requires forall m, n :: 0 <= m < n < |all| ==> !BoxesOverlap(all[m], all[n])
    requires Resupported(all, all[m]) != Resupported(all, all[n])
    ensures !BoxesOverlap(Resupported(all, all[m]), Resupported(all, all[n]))
  {
    if m > n {
      assert !BoxesOverlap(all[n], all[m]);
    }
  }
}
