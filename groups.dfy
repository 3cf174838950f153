/** The group bookkeeping of `packGroups`: the records built from the
    caller's groups, the active groups handed to the packer, and the
    per-group results read back from the packer's state. */
module Groups {
  import opened Basics
  import opened Grid
  import opened Orientations
  import opened Packer
  import opened Stability

  /** A group as the caller gives it. Dimensions and quantity may be zero or
      negative; `allowVerticalFlip` may be absent, and then the call's own
      setting applies. */
  datatype GroupSpec = GroupSpec(id: string, l: int, w: int, h: int, qty: int, weight: real,
                                 allowVerticalFlip: Option<bool>)

  /** The engine's record of a group (`groupData`); `index` is its position
      in the caller's list. */
  datatype GroupData = GroupData(index: nat, id: string, l: int, w: int, h: int, originalQty: nat,
                                 weight: real, validOrientations: seq<Orientation>, density: real)

  /** One entry of the result's `groups`. */
  datatype GroupResult = GroupResult(id: string, l: int, w: int, h: int, qty: nat, weight: real,
                                     placedQty: nat, placements: seq<Placement>)

  /** An orientation with positive edges that fits the container. */
  predicate UsableIn(o: Orientation, L: int, W: int, H: int)
  {
    o.l > 0 && o.w > 0 && o.h > 0 && o.l <= L && o.w <= W && o.h <= H
  }

  /** The usable orientations of `os`, in order. */
  function Usable(os: seq<Orientation>, L: int, W: int, H: int): (r: seq<Orientation>)
    ensures forall o :: o in r <==> o in os && UsableIn(o, L, W, H)
  {
    if os == [] then []
    else
      var init := Usable(os[..|os| - 1], L, W, H);
      var last := os[|os| - 1];
      assert os == os[..|os| - 1] + [last];
      if UsableIn(last, L, W, H) then init + [last] else init
  }

  /** `validOrientations`. Every generated orientation carries all three
      edges of the box, so for a box with an edge that is not positive the
      filter keeps none; the generator is applied to positive edges only. */
  function ValidOrientations(l: int, w: int, h: int, allowVerticalFlip: bool,
                             sideStability: (nat, nat, nat) -> real, L: int, W: int, H: int): seq<Orientation>
  {
    if l > 0 && w > 0 && h > 0
    then Usable(OrientationsWithStability(l, w, h, allowVerticalFlip, sideStability), L, W, H)
    else []
  }

  /** A valid orientation rearranges the box's positive edges and fits the
      container; every rearrangement the generator offers that fits is
      valid. */
  lemma ValidOrientationsSpec(l: int, w: int, h: int, allowVerticalFlip: bool,
                              sideStability: (nat, nat, nat) -> real, L: int, W: int, H: int)
    ensures var r := ValidOrientations(l, w, h, allowVerticalFlip, sideStability, L, W, H);
      (r != [] ==> l > 0 && w > 0 && h > 0) &&
      forall o :: o in r ==> UsableIn(o, L, W, H) && Rearranges(o, l, w, h)
    ensures l > 0 && w > 0 && h > 0 ==>
      forall o :: o in OrientationsWithStability(l, w, h, allowVerticalFlip, sideStability) && UsableIn(o, L, W, H) ==>
        o in ValidOrientations(l, w, h, allowVerticalFlip, sideStability, L, W, H)
  {
    if l > 0 && w > 0 && h > 0 {
      var os := OrientationsWithStability(l, w, h, allowVerticalFlip, sideStability);
      forall o | o in os
        ensures Rearranges(o, l, w, h)
      {
        var i :| 0 <= i < |os| && os[i] == o;
      }
    }
  }

  /** The group record for the caller's group at position `k`: quantity
      clamped at 0, a zero weight read as 1, the group's own flip setting
      when it has one, and weight per unit of volume (a zero volume read as
      1). */
  function MakeGroupData(k: nat, g: GroupSpec, allowVerticalFlip: bool, sideStability: (nat, nat, nat) -> real,
                         L: int, W: int, H: int): GroupData
  {
    var groupFlip := if g.allowVerticalFlip.Some? then g.allowVerticalFlip.value else allowVerticalFlip;
    var weight := if g.weight == 0.0 then 1.0 else g.weight;
    var volume := g.l * g.w * g.h;
    GroupData(k, g.id, g.l, g.w, g.h, if g.qty > 0 then g.qty else 0, weight,
              ValidOrientations(g.l, g.w, g.h, groupFlip, sideStability, L, W, H),
              weight / (if volume == 0 then 1 else volume) as real)
  }

  function GroupDataOf(groups: seq<GroupSpec>, allowVerticalFlip: bool, sideStability: (nat, nat, nat) -> real,
                       L: int, W: int, H: int): seq<GroupData>
  {
    seq(|groups|, k requires 0 <= k < |groups| => MakeGroupData(k, groups[k], allowVerticalFlip, sideStability, L, W, H))
  }

  function DataIndex(g: GroupData): nat
  {
    g.index
  }

  function PackIndex(g: PackGroup): nat
  {
    g.index
  }

  /** Each record sits at its own index, and one with a valid orientation
      has positive edges. */
  ghost predicate Indexed(gd: seq<GroupData>)
  {
    forall k :: 0 <= k < |gd| ==>
      gd[k].index == k && (gd[k].validOrientations != [] ==> gd[k].l > 0 && gd[k].w > 0 && gd[k].h > 0)
  }

  /** The records built from the caller's groups keep the caller's data and
      are indexed by position. */
  lemma GroupDataIndexed(groups: seq<GroupSpec>, allowVerticalFlip: bool, sideStability: (nat, nat, nat) -> real,
                         L: int, W: int, H: int)
    ensures var gd := GroupDataOf(groups, allowVerticalFlip, sideStability, L, W, H);
      |gd| == |groups| && Indexed(gd) &&
      forall k :: 0 <= k < |gd| ==>
        gd[k].id == groups[k].id && gd[k].l == groups[k].l && gd[k].w == groups[k].w && gd[k].h == groups[k].h &&
        gd[k].originalQty == Max(0, groups[k].qty) && gd[k].weight != 0.0 &&
        (groups[k].weight != 0.0 ==> gd[k].weight == groups[k].weight)
  {
    var gd := GroupDataOf(groups, allowVerticalFlip, sideStability, L, W, H);
    forall k | 0 <= k < |gd|
      ensures gd[k].validOrientations != [] ==> gd[k].l > 0 && gd[k].w > 0 && gd[k].h > 0
    {
      var g := groups[k];
      var groupFlip := if g.allowVerticalFlip.Some? then g.allowVerticalFlip.value else allowVerticalFlip;
      ValidOrientationsSpec(g.l, g.w, g.h, groupFlip, sideStability, L, W, H);
    }
  }

  lemma IndexedDistinct(gd: seq<GroupData>)
    requires Indexed(gd)
    ensures DistinctBy(gd, DataIndex)
  {
  }

  /** A group takes part in packing when it has boxes and an orientation. */
  predicate IsActive(g: GroupData)
  {
    g.originalQty > 0 && |g.validOrientations| > 0
  }

  /** The active groups, in the caller's order. */
  function ActiveOf(gd: seq<GroupData>): (r: seq<GroupData>)
    ensures forall g :: g in r <==> g in gd && IsActive(g)
  {
    if gd == [] then []
    else
      var init := ActiveOf(gd[..|gd| - 1]);
      var last := gd[|gd| - 1];
      assert gd == gd[..|gd| - 1] + [last];
      if IsActive(last) then init + [last] else init
  }

  /** Filtering keeps indices distinct. */
  lemma {:induction false} ActiveDistinct(gd: seq<GroupData>)
    requires DistinctBy(gd, DataIndex)
    ensures DistinctBy(ActiveOf(gd), DataIndex)
  {
    if gd != [] {
      var init := gd[..|gd| - 1];
      var last := gd[|gd| - 1];
      ActiveDistinct(init);
      var a := ActiveOf(init);
      var r := ActiveOf(gd);
      if IsActive(last) {
        assert r == a + [last];
        forall i, j | 0 <= i < j < |r|
          ensures DataIndex(r[i]) != DataIndex(r[j])
        {
          if j == |r| - 1 {
            assert r[i] == a[i] && r[i] in init;
            var m :| 0 <= m < |init| && init[m] == r[i];
            assert gd[m] == r[i];
          } else {
            assert r[i] == a[i] && r[j] == a[j];
          }
        }
      }
    }
  }

  /** The key of the density sort: denser groups first. */
  function NegDensity(g: GroupData): real
  {
    -g.density
  }

  /** The packer's view of an active group. */
  function ToPackGroup(g: GroupData): PackGroup
    requires g.l > 0 && g.w > 0 && g.h > 0
  {
    PackGroup(g.index, g.id, g.l, g.w, g.h, g.originalQty, g.weight)
  }

  function PackGroupsOf(gs: seq<GroupData>): (r: seq<PackGroup>)
    requires forall g :: g in gs ==> g.l > 0 && g.w > 0 && g.h > 0
    ensures |r| == |gs| && forall i :: 0 <= i < |gs| ==> r[i] == ToPackGroup(gs[i])
  {
    seq(|gs|, i requires 0 <= i < |gs| => ToPackGroup(gs[i]))
  }

  /** The groups handed to the packer: the active ones, densest first
      (stable). */
  function PackerInput(gd: seq<GroupData>): seq<PackGroup>
    requires Indexed(gd)
  {
    var sorted := SortByKey(ActiveOf(gd), NegDensity);
    assert forall g :: g in sorted ==> g in ActiveOf(gd) by {
      forall g | g in sorted
        ensures g in ActiveOf(gd)
      {
        assert g in multiset(sorted);
      }
    }
    PackGroupsOf(sorted)
  }

  /** Every group of `gs` is the packer's view of the active record with its
      index. */
  ghost predicate DrawnFrom(gs: seq<PackGroup>, gd: seq<GroupData>)
  {
    forall g :: g in gs ==>
      g.index < |gd| && IsActive(gd[g.index]) &&
      gd[g.index].l > 0 && gd[g.index].w > 0 && gd[g.index].h > 0 && g == ToPackGroup(gd[g.index])
  }

  /** The packer receives each active group once, and nothing else. */
  lemma PackerInputSpec(gd: seq<GroupData>)
    requires Indexed(gd)
    ensures DrawnFrom(PackerInput(gd), gd) && DistinctBy(PackerInput(gd), PackIndex)
    ensures forall k :: 0 <= k < |gd| && IsActive(gd[k]) ==>
      exists s :: 0 <= s < |PackerInput(gd)| && PackerInput(gd)[s].index == k
  {
    PackerInputDistinct(gd);
    PackerInputDrawn(gd);
    PackerInputCovers(gd);
  }

  lemma PackerInputDistinct(gd: seq<GroupData>)
    requires Indexed(gd)
    ensures DistinctBy(PackerInput(gd), PackIndex)
  {
    var active := ActiveOf(gd);
    var sorted := SortByKey(active, NegDensity);
    var r := PackerInput(gd);
    IndexedDistinct(gd);
    ActiveDistinct(gd);
    DistinctByPermutation(active, sorted, DataIndex);
    assert forall i :: 0 <= i < |r| ==> PackIndex(r[i]) == DataIndex(sorted[i]);
  }

  lemma PackerInputDrawn(gd: seq<GroupData>)
    requires Indexed(gd)
    ensures DrawnFrom(PackerInput(gd), gd)
  {
    var active := ActiveOf(gd);
    var sorted := SortByKey(active, NegDensity);
    var r := PackerInput(gd);
    forall g | g in r
      ensures g.index < |gd| && IsActive(gd[g.index]) && gd[g.index].l > 0 && gd[g.index].w > 0 &&
        gd[g.index].h > 0 && g == ToPackGroup(gd[g.index])
    {
      var i :| 0 <= i < |r| && r[i] == g;
      assert sorted[i] in multiset(active);
      assert sorted[i] in gd;
    }
  }

  lemma PackerInputCovers(gd: seq<GroupData>)
    requires Indexed(gd)
    ensures forall k :: 0 <= k < |gd| && IsActive(gd[k]) ==>
      exists s :: 0 <= s < |PackerInput(gd)| && PackerInput(gd)[s].index == k
  {
    var active := ActiveOf(gd);
    var sorted := SortByKey(active, NegDensity);
    var r := PackerInput(gd);
    forall k | 0 <= k < |gd| && IsActive(gd[k])
      ensures exists s :: 0 <= s < |r| && r[s].index == k
    {
      assert gd[k] in active;
      assert gd[k] in multiset(sorted);
      var s :| 0 <= s < |sorted| && sorted[s] == gd[k];
      assert r[s].index == k;
    }
  }

  /** Reordering the packer's groups keeps them drawn from the records with
      distinct indices. */
  lemma DrawnFromPermutation(gs: seq<PackGroup>, hs: seq<PackGroup>, gd: seq<GroupData>)
    requires multiset(gs) == multiset(hs) && DrawnFrom(gs, gd) && DistinctBy(gs, PackIndex)
    ensures DrawnFrom(hs, gd) && DistinctBy(hs, PackIndex)
  {
    DistinctByPermutation(gs, hs, PackIndex);
    forall g | g in hs
      ensures g in gs
    {
      assert g in multiset(hs);
    }
  }

  /** The packer slot that holds the caller's group `k`, if any. */
  function SlotOf(gs: seq<PackGroup>, k: nat): (r: Option<nat>)
    ensures r.Some? ==> r.value < |gs| && gs[r.value].index == k
    ensures r.None? ==> forall s :: 0 <= s < |gs| ==> gs[s].index != k
  {
    if gs == [] then None
    else if gs[|gs| - 1].index == k then Some(|gs| - 1)
    else SlotOf(gs[..|gs| - 1], k)
  }

  /** A placement with the support the support pass writes into it. */
  function Resupported(all: seq<Placement>, p: Placement): Placement
  {
    p.(support := BoxSupport(all, p))
  }

  function ResupportAll(all: seq<Placement>, ps: seq<Placement>): (r: seq<Placement>)
    ensures |r| == |ps| && forall i :: 0 <= i < |ps| ==> r[i] == Resupported(all, ps[i])
  {
    seq(|ps|, i requires 0 <= i < |ps| => Resupported(all, ps[i]))
  }

  function ResultGroup(d: GroupData, placedQty: nat, ps: seq<Placement>): GroupResult
  {
    GroupResult(d.id, d.l, d.w, d.h, d.originalQty, d.weight, placedQty, ps)
  }

  /** `resultGroups`: every record of the caller, with the count and list
      the packer kept for it (nothing for a group that was not packed). The
      engine's records are shared with the packer, so the lists hold the
      supports written by the support pass. */
  function ResultGroups(gd: seq<GroupData>, gs: seq<PackGroup>, placedCount: seq<nat>,
                        groupPlacements: seq<seq<Placement>>, all: seq<Placement>): (r: seq<GroupResult>)
    requires |placedCount| == |gs| && |groupPlacements| == |gs|
    ensures |r| == |gd|
  {
    seq(|gd|, k requires 0 <= k < |gd| =>
      match SlotOf(gs, k)
      case Some(s) => ResultGroup(gd[k], placedCount[s], ResupportAll(all, groupPlacements[s]))
      case None => ResultGroup(gd[k], 0, []))
  }

  /** `createEmptyResult`'s groups: every record, nothing placed. */
  function EmptyGroups(gd: seq<GroupData>): (r: seq<GroupResult>)
    ensures |r| == |gd| && forall k :: 0 <= k < |gd| ==> r[k].placedQty == 0 && r[k].placements == []
  {
    seq(|gd|, k requires 0 <= k < |gd| => ResultGroup(gd[k], 0, []))
  }

  /** How many placements carry the caller's group `k`. */
  function CountIndex(ps: seq<Placement>, k: nat): nat
  {
    if ps == [] then 0
    else CountIndex(ps[..|ps| - 1], k) + (if ps[|ps| - 1].groupIndex == k then 1 else 0)
  }

  function IndexCounts(ps: seq<Placement>, n: nat): (r: seq<nat>)
    ensures |r| == n && forall k :: 0 <= k < n ==> r[k] == CountIndex(ps, k)
  {
    seq(n, k requires 0 <= k < n => CountIndex(ps, k))
  }

  /** Counting by caller index covers every placement once. */
  lemma {:induction false} IndexCountsSum(ps: seq<Placement>, n: nat)
    requires forall p :: p in ps ==> p.groupIndex < n
    ensures Sum(IndexCounts(ps, n)) == |ps|
  {
    if ps != [] {
      var init, last := ps[..|ps| - 1], ps[|ps| - 1];
      assert ps == init + [last];
      IndexCountsSum(init, n);
      var g := last.groupIndex;
      assert IndexCounts(ps, n) == IndexCounts(init, n)[g := CountIndex(init, g) + 1];
      SumUpdate(IndexCounts(init, n), g, CountIndex(init, g) + 1);
    } else {
      ZeroSum(IndexCounts(ps, n));
    }
  }

  /** Each placement records the caller index of its slot's group. */
  ghost predicate IndexedBySlot(ps: seq<Placement>, gs: seq<PackGroup>)
  {
    forall p :: p in ps ==> p.slot < |gs| && p.groupIndex == gs[p.slot].index
  }

  lemma LegalIndexed(gs: seq<PackGroup>, L: nat, W: nat, H: nat, ps: seq<Placement>)
    requires PlacedWell(gs, L, W, H, ps)
    ensures IndexedBySlot(ps, gs)
  {
    forall p | p in ps
      ensures p.slot < |gs| && p.groupIndex == gs[p.slot].index
    {
      var n :| 0 <= n < |ps| && ps[n] == p;
      assert LegalFor(gs, L, W, H, ps[n]);
    }
  }

  /** With distinct indices, a slot's placements are those of its group's
      caller index, and an index no slot holds has none. */
  lemma {:induction false} SlotCounts(ps: seq<Placement>, gs: seq<PackGroup>, k: nat)
    requires IndexedBySlot(ps, gs) && DistinctBy(gs, PackIndex)
    ensures SlotOf(gs, k).Some? ==> |OfSlot(ps, SlotOf(gs, k).value)| == CountIndex(ps, k)
    ensures SlotOf(gs, k).None? ==> CountIndex(ps, k) == 0
  {
    if ps != [] {
      var init, last := ps[..|ps| - 1], ps[|ps| - 1];
      assert forall p :: p in init ==> p in ps;
      SlotCounts(init, gs, k);
      assert last in ps;
      match SlotOf(gs, k)
      case Some(s) =>
        assert last.slot == s <==> last.groupIndex == k by {
          if last.groupIndex == k && last.slot != s {
            assert false;
          }
        }
      case None =>
    }
  }

  ghost predicate InsideAll(gd: seq<GroupData>, rs: seq<GroupResult>, L: nat, W: nat, H: nat)
  {
    forall k, p :: 0 <= k < |rs| && p in rs[k].placements ==> Inside(p, L, W, H)
  }

  /** What the caller reads back: each group's placed count is the number of
      placements made for it, at most its quantity and the length of its
      list; the counts add up to the number of placements; every reported
      box lies inside the container. */
  lemma ResultGroupsSpec(gd: seq<GroupData>, gs: seq<PackGroup>, remaining: seq<nat>, placedCount: seq<nat>,
                         groupPlacements: seq<seq<Placement>>, all: seq<Placement>, L: nat, W: nat, H: nat)
    requires |remaining| == |placedCount| == |groupPlacements| == |gs|
    requires Conserved(gs, remaining, placedCount, groupPlacements, all)
    requires PlacedWell(gs, L, W, H, all)
    requires Indexed(gd) && DrawnFrom(gs, gd) && DistinctBy(gs, PackIndex)
    ensures var rs := ResultGroups(gd, gs, placedCount, groupPlacements, all);
      (forall k :: 0 <= k < |rs| ==>
         rs[k].placedQty == CountIndex(all, k) && rs[k].placedQty <= rs[k].qty &&
         rs[k].placedQty == |rs[k].placements| && rs[k].qty == gd[k].originalQty) &&
      Sum(IndexCounts(all, |gd|)) == |all| &&
      InsideAll(gd, rs, L, W, H)
  {
    ResultGroupsCounts(gd, gs, remaining, placedCount, groupPlacements, all, L, W, H);
    LegalIndexed(gs, L, W, H, all);
    forall p | p in all
      ensures p.groupIndex < |gd|
    {
      assert gs[p.slot] in gs;
    }
    IndexCountsSum(all, |gd|);
    ResultGroupsInside(gd, gs, remaining, placedCount, groupPlacements, all, L, W, H);
  }

  lemma ResultGroupsCounts(gd: seq<GroupData>, gs: seq<PackGroup>, remaining: seq<nat>, placedCount: seq<nat>,
                           groupPlacements: seq<seq<Placement>>, all: seq<Placement>, L: nat, W: nat, H: nat)
    requires |remaining| == |placedCount| == |groupPlacements| == |gs|
    requires Conserved(gs, remaining, placedCount, groupPlacements, all)
    requires PlacedWell(gs, L, W, H, all)
    requires Indexed(gd) && DrawnFrom(gs, gd) && DistinctBy(gs, PackIndex)
    ensures var rs := ResultGroups(gd, gs, placedCount, groupPlacements, all);
      forall k :: 0 <= k < |rs| ==>
        rs[k].placedQty == CountIndex(all, k) && rs[k].placedQty <= rs[k].qty &&
        rs[k].placedQty == |rs[k].placements| && rs[k].qty == gd[k].originalQty
  {
    var rs := ResultGroups(gd, gs, placedCount, groupPlacements, all);
    LegalIndexed(gs, L, W, H, all);
    forall k | 0 <= k < |rs|
      ensures rs[k].placedQty == CountIndex(all, k) && rs[k].placedQty <= rs[k].qty &&
        rs[k].placedQty == |rs[k].placements| && rs[k].qty == gd[k].originalQty
    {
      SlotCounts(all, gs, k);
      if SlotOf(gs, k).Some? {
        var s := SlotOf(gs, k).value;
        assert gs[s] in gs;
      }
    }
  }

  lemma ResultGroupsInside(gd: seq<GroupData>, gs: seq<PackGroup>, remaining: seq<nat>, placedCount: seq<nat>,
                           groupPlacements: seq<seq<Placement>>, all: seq<Placement>, L: nat, W: nat, H: nat)
    requires |remaining| == |placedCount| == |groupPlacements| == |gs|
    requires Conserved(gs, remaining, placedCount, groupPlacements, all)
    requires PlacedWell(gs, L, W, H, all)
    requires Indexed(gd) && DrawnFrom(gs, gd) && DistinctBy(gs, PackIndex)
    ensures InsideAll(gd, ResultGroups(gd, gs, placedCount, groupPlacements, all), L, W, H)
  {
    var rs := ResultGroups(gd, gs, placedCount, groupPlacements, all);
    LegalIndexed(gs, L, W, H, all);
    forall k, p | 0 <= k < |rs| && p in rs[k].placements
      ensures Inside(p, L, W, H)
    {
      var s := SlotOf(gs, k).value;
      var i :| 0 <= i < |groupPlacements[s]| && rs[k].placements[i] == p;
      var q := groupPlacements[s][i];
      OfSlotMembers(all, s);
      assert q in all;
      var n :| 0 <= n < |all| && all[n] == q;
      assert LegalFor(gs, L, W, H, all[n]);
    }
  }

  /** The reported lists hold exactly the placements, each in the list of
      its own group and with the support the support pass gives it. */
  ghost predicate Reports(rs: seq<GroupResult>, all: seq<Placement>)
  {
    (forall k, p :: 0 <= k < |rs| && p in rs[k].placements ==>
       p.groupIndex == k && exists q :: q in all && p == Resupported(all, q)) &&
    (forall q :: q in all ==> q.groupIndex < |rs| && Resupported(all, q) in rs[q.groupIndex].placements)
  }

  lemma ResultGroupsReport(gd: seq<GroupData>, gs: seq<PackGroup>, remaining: seq<nat>, placedCount: seq<nat>,
                           groupPlacements: seq<seq<Placement>>, all: seq<Placement>, L: nat, W: nat, H: nat)
    requires |remaining| == |placedCount| == |groupPlacements| == |gs|
    requires Conserved(gs, remaining, placedCount, groupPlacements, all)
    requires PlacedWell(gs, L, W, H, all)
    requires Indexed(gd) && DrawnFrom(gs, gd) && DistinctBy(gs, PackIndex)
    ensures Reports(ResultGroups(gd, gs, placedCount, groupPlacements, all), all)
  {
    ReportedDrawn(gd, gs, remaining, placedCount, groupPlacements, all, L, W, H);
    PlacedReported(gd, gs, remaining, placedCount, groupPlacements, all, L, W, H);
  }

  /** Every reported box is a placement with its support. */
  lemma ReportedDrawn(gd: seq<GroupData>, gs: seq<PackGroup>, remaining: seq<nat>, placedCount: seq<nat>,
                      groupPlacements: seq<seq<Placement>>, all: seq<Placement>, L: nat, W: nat, H: nat)
    requires |remaining| == |placedCount| == |groupPlacements| == |gs|
    requires Conserved(gs, remaining, placedCount, groupPlacements, all)
    requires PlacedWell(gs, L, W, H, all)
    requires Indexed(gd) && DrawnFrom(gs, gd) && DistinctBy(gs, PackIndex)
    ensures var rs := ResultGroups(gd, gs, placedCount, groupPlacements, all);
      forall k, p :: 0 <= k < |rs| && p in rs[k].placements ==>
        p.groupIndex == k && exists q :: q in all && p == Resupported(all, q)
  {
    var rs := ResultGroups(gd, gs, placedCount, groupPlacements, all);
    LegalIndexed(gs, L, W, H, all);
    forall k, p | 0 <= k < |rs| && p in rs[k].placements
      ensures p.groupIndex == k && exists q :: q in all && p == Resupported(all, q)
    {
      var s := SlotOf(gs, k).value;
      var i :| 0 <= i < |groupPlacements[s]| && rs[k].placements[i] == p;
      OfSlotMembers(all, s);
      var q := groupPlacements[s][i];
      assert q in all && q.slot == s;
    }
  }

  /** Every placement is reported, with its support, in its group. */
  lemma PlacedReported(gd: seq<GroupData>, gs: seq<PackGroup>, remaining: seq<nat>, placedCount: seq<nat>,
                       groupPlacements: seq<seq<Placement>>, all: seq<Placement>, L: nat, W: nat, H: nat)
    requires |remaining| == |placedCount| == |groupPlacements| == |gs|
    requires Conserved(gs, remaining, placedCount, groupPlacements, all)
    requires PlacedWell(gs, L, W, H, all)
    requires Indexed(gd) && DrawnFrom(gs, gd) && DistinctBy(gs, PackIndex)
    ensures var rs := ResultGroups(gd, gs, placedCount, groupPlacements, all);
      forall q :: q in all ==> q.groupIndex < |rs| && Resupported(all, q) in rs[q.groupIndex].placements
  {
    var rs := ResultGroups(gd, gs, placedCount, groupPlacements, all);
    LegalIndexed(gs, L, W, H, all);
    forall q | q in all
      ensures q.groupIndex < |rs| && Resupported(all, q) in rs[q.groupIndex].placements
    {
      var s := q.slot;
      assert gs[s] in gs;
      var k := gs[s].index;
      var s' := SlotOf(gs, k).value;
      assert s' == s by {
        if s' != s {
          assert false;
        }
      }
      OfSlotMembers(all, s);
      var i :| 0 <= i < |groupPlacements[s]| && groupPlacements[s][i] == q;
      assert rs[k].placements[i] == Resupported(all, q);
    }
  }
}
