/** `packMultipleContainers`: packs the caller's groups into a list of
    containers, either spreading every group evenly over the containers or
    filling the containers one after the other and carrying what did not
    fit forward. */
module Distributor {
  import opened Basics
  import opened Stability
  import opened Groups
  import opened Aggregate
  import opened Grid
  import opened Packer

  /** A container of the list: its id, inner sizes and the ids of the
      groups it may hold (an empty list allows every group). */
  datatype Container = Container(id: string, L: int, W: int, H: int, allowedGroups: seq<string>)

  /** One container's result: the packing result of the container with its
      position in the list and the weight it holds. */
  datatype ContainerResult = ContainerResult(containerId: string, containerIndex: nat, result: PackResult,
                                             totalWeight: real)

  // ---------------------------------------------------------------------
  // Even spread
  // ---------------------------------------------------------------------

  /** JavaScript's `%`: the remainder has the sign of the dividend. */
  function JsRemainder(q: int, n: nat): (r: int)
    requires n > 0
    ensures q >= 0 ==> r == q % n
    ensures q < 0 ==> -(n as int) < r <= 0
    ensures (q - r) % n == 0
  {
    var a: nat := if q >= 0 then q else -q;
    RemainderMultiple(a, n);
    if q >= 0 then q % n else -((-q) % n)
  }

  /** Taking the remainder of `a` off `a`, or adding it to `-a`, leaves a
      multiple of `n`. */
  lemma RemainderMultiple(a: nat, n: nat)
    requires n > 0
    ensures (a - a % n) % n == 0
    ensures (-(a as int) + a % n) % n == 0
  {
    var k := a / n;
    assert a == n * k + a % n;
    assert a - a % n == n * k;
    assert -(a as int) + a % n == n * -k;
    MultipleMod(n, k);
    MultipleMod(n, -k);
  }

  /** A multiple of `n` leaves no remainder. */
  lemma MultipleMod(n: nat, k: int)
    requires n > 0
    ensures (n * k) % n == 0
  {
    var x := n * k;
    var d, m := x / n, x % n;
    assert x == n * d + m && 0 <= m < n;
    var e := k - d;
    assert n * e == n * k - n * d;
    assert n * e == m;
    if e > 0 {
      var e1: nat := e - 1;
      assert n * e == n * e1 + n;
    }
  }

  /** The quantity of a group of `q` boxes given to container `idx` of `n`:
      the floor of `q / n`, plus one for the containers before the
      remainder. */
  function Allocation(q: int, n: nat, idx: nat): int
    requires n > 0
  {
    if idx < JsRemainder(q, n) then q / n + 1 else q / n
  }

  /** Sum of a sequence of integers, peeled from the end. */
  function IntSum(s: seq<int>): int
  {
    if s == [] then 0 else IntSum(s[..|s| - 1]) + s[|s| - 1]
  }

  /** The allocations of a group to the `n` containers. */
  function Allocations(q: int, n: nat): (r: seq<int>)
    requires n > 0
    ensures |r| == n && forall i :: 0 <= i < n ==> r[i] == Allocation(q, n, i)
  {
    seq(n, i requires 0 <= i < n => Allocation(q, n, i))
  }

  lemma {:induction false} AllocationsPrefixSum(q: nat, n: nat, m: nat)
    requires n > 0 && m <= n
    ensures IntSum(Allocations(q, n)[..m]) == m * (q / n) + Min(m, q % n)
  {
    if m > 0 {
      var a := Allocations(q, n);
      AllocationsPrefixSum(q, n, m - 1);
      assert a[..m][..m - 1] == a[..m - 1];
      assert m * (q / n) == (m - 1) * (q / n) + q / n;
    }
  }

  /** The even spread hands out exactly the group's quantity. */
  lemma AllocationsSum(q: nat, n: nat)
    requires n > 0
    ensures IntSum(Allocations(q, n)) == q
  {
    var a := Allocations(q, n);
    AllocationsPrefixSum(q, n, n);
    assert a[..n] == a;
    DivMod(q, n);
  }

  /** No allocation is negative, no two containers differ by more than one
      box, and the extra boxes go to the first `q mod n` containers. */
  lemma AllocationsBalanced(q: nat, n: nat)
    requires n > 0
    ensures forall i :: 0 <= i < n ==> Allocations(q, n)[i] >= 0
    ensures forall i, j :: 0 <= i < n && 0 <= j < n ==>
      -1 <= Allocations(q, n)[i] - Allocations(q, n)[j] <= 1
    ensures forall i :: 0 <= i < n ==> (Allocations(q, n)[i] == q / n + 1 <==> i < q % n)
  {
    DivNonNegative(q, n);
  }

  lemma DivNonNegative(q: nat, n: nat)
    requires n > 0
    ensures q / n >= 0
  {
  }

  lemma DivMod(q: nat, n: nat)
    requires n > 0
    ensures q == n * (q / n) + q % n && 0 <= q % n < n
  {
  }

  /** A negative quantity gives every container a negative allocation. */
  lemma AllocationsNegative(q: int, n: nat, idx: nat)
    requires n > 0 && q < 0
    ensures Allocation(q, n, idx) < 0
  {
  }

  // ---------------------------------------------------------------------
  // Sequential carry
  // ---------------------------------------------------------------------

  /** What is left of a group of `q` boxes after containers that placed
      `placed[0]`, `placed[1]`, ... of it: each container leaves
      `max(0, left - placed)`. */
  function Carry(q: int, placed: seq<nat>): int
  {
    if placed == [] then q else Max(0, Carry(q, placed[..|placed| - 1]) - placed[|placed| - 1])
  }

  /** When no container places more than is left, the boxes placed and the
      boxes left always add up to the group's quantity. */
  lemma {:induction false} CarryConserves(q: int, placed: seq<nat>)
    requires forall i :: 0 <= i < |placed| ==> placed[i] <= Max(0, Carry(q, placed[..i]))
    ensures Sum(placed) + Max(0, Carry(q, placed)) == Max(0, q)
  {
    if placed != [] {
      var init := placed[..|placed| - 1];
      forall i | 0 <= i < |init|
        ensures init[i] <= Max(0, Carry(q, init[..i]))
      {
        assert init[..i] == placed[..i];
      }
      CarryConserves(q, init);
      assert placed[..|placed| - 1] == init;
    }
  }

  /** Containers that each place at most their allocation place at most the
      group's quantity. */
  lemma SpreadConserves(q: int, n: nat, placed: seq<nat>)
    requires n > 0 && |placed| <= n
    requires forall i :: 0 <= i < |placed| ==> placed[i] <= Max(0, Allocation(q, n, i))
    ensures Sum(placed) <= Max(0, q)
  {
    if q < 0 {
      forall i | 0 <= i < |placed|
        ensures placed[i] == 0
      {
        AllocationsNegative(q, n, i);
      }
      ZeroSum(placed);
    } else {
      AllocationsBalanced(q, n);
      SpreadPrefix(q, n, placed);
      PrefixSumBounded(Allocations(q, n), |placed|);
      AllocationsSum(q, n);
    }
  }

  lemma {:induction false} SpreadPrefix(q: nat, n: nat, placed: seq<nat>)
    requires n > 0 && |placed| <= n
    requires forall i :: 0 <= i < |placed| ==> placed[i] <= Max(0, Allocation(q, n, i))
    ensures Sum(placed) <= IntSum(Allocations(q, n)[..|placed|])
  {
    if placed != [] {
      var m := |placed|;
      var a := Allocations(q, n);
      var init := placed[..m - 1];
      assert forall i :: 0 <= i < |init| ==> init[i] == placed[i];
      SpreadPrefix(q, n, init);
      assert a[..m][..m - 1] == a[..m - 1];
      AllocationsBalanced(q, n);
      assert placed[m - 1] <= a[m - 1];
    }
  }

  /** A prefix of a sequence of naturals sums to at most the whole. */
  lemma {:induction false} PrefixSumBounded(s: seq<int>, m: nat)
    requires m <= |s| && forall i :: 0 <= i < |s| ==> s[i] >= 0
    ensures IntSum(s[..m]) <= IntSum(s)
  {
    if m < |s| {
      var init := s[..|s| - 1];
      PrefixSumBounded(init, m);
      assert init[..m] == s[..m];
      assert s[..|s|] == s;
    } else {
      assert s[..m] == s;
    }
  }

  // ---------------------------------------------------------------------
  // One container
  // ---------------------------------------------------------------------

  /** `reduce` over the requested quantities. */
  function TotalQty(gs: seq<GroupSpec>): int
  {
    if gs == [] then 0 else TotalQty(gs[..|gs| - 1]) + gs[|gs| - 1].qty
  }

  /** The groups a container is packed with: with a non-empty allow-list,
      the groups not on it ask for nothing. */
  function AllowedFor(c: Container, gs: seq<GroupSpec>): (r: seq<GroupSpec>)
    ensures |r| == |gs|
  {
    if |c.allowedGroups| > 0
    then seq(|gs|, k requires 0 <= k < |gs| => if gs[k].id in c.allowedGroups then gs[k] else gs[k].(qty := 0))
    else gs
  }

  /** The result for a container reached when nothing is left to pack. */
  function NothingLeft(c: Container, idx: nat, gs: seq<GroupSpec>): ContainerResult
  {
    var groups := seq(|gs|, k requires 0 <= k < |gs| =>
      GroupResult(gs[k].id, gs[k].l, gs[k].w, gs[k].h, 0, gs[k].weight, 0, []));
    ContainerResult(c.id, idx,
      PackResult(c.L, c.W, c.H, 0, 0, 0, 0, 0, 0, groups, Analysed(1.0, [], true, ""),
                 Balance(Origin, true), None, None),
      0.0)
  }

  /** The weight a container holds: each group's weight times its placed
      count. */
  function WeightOf(rs: seq<GroupResult>): real
  {
    if rs == [] then 0.0
    else WeightOf(rs[..|rs| - 1]) + rs[|rs| - 1].weight * rs[|rs| - 1].placedQty as real
  }

  /** Groups with nothing placed weigh nothing. */
  lemma {:induction false} UnplacedWeighsNothing(rs: seq<GroupResult>)
    requires forall k :: 0 <= k < |rs| ==> rs[k].placedQty == 0
    ensures WeightOf(rs) == 0.0
  {
    if rs != [] {
      UnplacedWeighsNothing(rs[..|rs| - 1]);
    }
  }

  /** How many boxes of group `k` a container placed. */
  function PlacedIn(r: ContainerResult, k: nat): nat
  {
    if k < |r.result.groups| then r.result.groups[k].placedQty else 0
  }

  /** The groups agree with `gs` in everything but their quantities. */
  predicate SameGroups(gs: seq<GroupSpec>, hs: seq<GroupSpec>)
  {
    |gs| == |hs| && forall k :: 0 <= k < |gs| ==> hs[k] == gs[k].(qty := hs[k].qty)
  }

  /** The per-container results report each group's count as its
      quantity. */
  predicate Corrected(r: ContainerResult)
  {
    forall k :: 0 <= k < |r.result.groups| ==> r.result.groups[k].qty == r.result.groups[k].placedQty
  }

  /** A container's result carries the container's id and position, each
      group's count as its quantity, and the weight it holds. */
  predicate Labelled(c: Container, idx: nat, r: ContainerResult)
  {
    r.containerId == c.id && r.containerIndex == idx && Corrected(r) && r.totalWeight == WeightOf(r.result.groups)
  }

  /** Every result is labelled with its own container. */
  ghost predicate AllLabelled(containers: seq<Container>, rs: seq<ContainerResult>)
  {
    |rs| <= |containers| && forall i :: 0 <= i < |rs| ==> Labelled(containers[i], i, rs[i])
  }

  lemma LabelledStep(containers: seq<Container>, rs: seq<ContainerResult>, res: ContainerResult)
    requires AllLabelled(containers, rs) && |rs| < |containers| && Labelled(containers[|rs|], |rs|, res)
    ensures AllLabelled(containers, rs + [res])
  {
    forall i | 0 <= i < |rs| + 1
      ensures Labelled(containers[i], i, (rs + [res])[i])
    {
      if i < |rs| {
        assert (rs + [res])[i] == rs[i];
      }
    }
  }

  /** Each group's count as its quantity: the `correctedGroups` of a
      container's result. */
  function Recounted(gs: seq<GroupResult>): (r: seq<GroupResult>)
    ensures |r| == |gs| && forall k :: 0 <= k < |gs| ==> r[k] == gs[k].(qty := gs[k].placedQty)
  {
    seq(|gs|, k requires 0 <= k < |gs| => gs[k].(qty := gs[k].placedQty))
  }

  /** Container `idx`'s result when it is offered the groups `asked`: the
      empty container result when they ask for nothing in total; otherwise
      `packGroups`' result for the groups its allow-list lets through, each
      group's count as its quantity, labelled with the container and the
      weight it holds. */
  ghost predicate ContainerPacked(c: Container, idx: nat, asked: seq<GroupSpec>, allowVerticalFlip: bool,
                                  sideStability: (nat, nat, nat) -> real, res: ContainerResult)
  {
    if TotalQty(asked) == 0 then res == NothingLeft(c, idx, asked)
    else
      res.containerId == c.id && res.containerIndex == idx && res.totalWeight == WeightOf(res.result.groups) &&
      exists packed ::
        GroupsPacked(AllowedFor(c, asked), c.L, c.W, c.H, allowVerticalFlip, sideStability, packed) &&
        res.result == packed.(groups := Recounted(packed.groups))
  }

  /** A container's reported total is the sum of its groups' counts, and
      each count is that of the group's own boxes, in the nothing-left case
      too. */
  lemma ContainerTallied(c: Container, idx: nat, asked: seq<GroupSpec>, allowVerticalFlip: bool,
                         sideStability: (nat, nat, nat) -> real, res: ContainerResult)
    requires ContainerPacked(c, idx, asked, allowVerticalFlip, sideStability, res)
    ensures Tallied(res.result)
  {
    if TotalQty(asked) == 0 {
      NothingLeftTallied(c, idx, asked);
    } else {
      var packed :| GroupsPacked(AllowedFor(c, asked), c.L, c.W, c.H, allowVerticalFlip, sideStability, packed) &&
        res.result == packed.(groups := Recounted(packed.groups));
      PackedTallied(AllowedFor(c, asked), c.L, c.W, c.H, allowVerticalFlip, sideStability, packed);
      RecountTallied(packed);
    }
  }

  /** The empty container result counts no box. */
  lemma NothingLeftTallied(c: Container, idx: nat, gs: seq<GroupSpec>)
    ensures Tallied(NothingLeft(c, idx, gs).result)
  {
    var r := NothingLeft(c, idx, gs).result;
    ZeroSum(PlacedQtys(r.groups));
    assert CountsOwnBoxes(r, []);
  }

  /** Recounting keeps the total, each group's count and its list. */
  lemma RecountTallied(packed: PackResult)
    requires Tallied(packed)
    ensures Tallied(packed.(groups := Recounted(packed.groups)))
  {
    var all :| CountsOwnBoxes(packed, all);
    RecountOwnBoxes(packed, all);
    assert PlacedQtys(Recounted(packed.groups)) == PlacedQtys(packed.groups);
  }

  /** Recounting keeps each group's count and list. */
  lemma RecountOwnBoxes(packed: PackResult, all: seq<Placement>)
    requires CountsOwnBoxes(packed, all)
    ensures CountsOwnBoxes(packed.(groups := Recounted(packed.groups)), all)
  {
  }

  /** What one container's step does with the quantities: the result is
      labelled with the container, places at most what is left of each
      group and nothing of a group off a non-empty allow-list; the groups
      passed on differ only in quantity, and with `carry` each drops by what
      was placed (never below 0), without it they are passed on unchanged.
      When nothing is left they are passed on unchanged. */
  predicate Stepped(c: Container, idx: nat, remaining: seq<GroupSpec>, carry: bool, res: ContainerResult,
                    next: seq<GroupSpec>)
  {
    Labelled(c, idx, res) &&
    (TotalQty(remaining) == 0 ==> next == remaining) &&
    (forall k :: 0 <= k < |remaining| ==> PlacedIn(res, k) <= Max(0, remaining[k].qty)) &&
    (forall k :: 0 <= k < |remaining| && |c.allowedGroups| > 0 && remaining[k].id !in c.allowedGroups ==>
       PlacedIn(res, k) == 0) &&
    SameGroups(remaining, next) &&
    (carry ==> forall k :: 0 <= k < |remaining| ==>
       Max(0, next[k].qty) == Max(0, remaining[k].qty - PlacedIn(res, k))) &&
    (carry ==> next == LeftAfter(remaining, res)) &&
    (!carry ==> next == remaining)
  }

  /** What sequential mode offers the next container after `r` was offered
      `gs`: nothing changes when nothing was left; otherwise each group `r`
      reports drops by its count, never below 0. */
  function LeftAfter(gs: seq<GroupSpec>, r: ContainerResult): (next: seq<GroupSpec>)
    ensures SameGroups(gs, next)
    ensures forall k :: 0 <= k < |gs| ==>
      next[k].qty == if TotalQty(gs) != 0 && k < |r.result.groups| then Max(0, gs[k].qty - PlacedIn(r, k))
                     else gs[k].qty
  {
    if TotalQty(gs) == 0 then gs
    else seq(|gs|, k requires 0 <= k < |gs| =>
           if k < |r.result.groups| then gs[k].(qty := Max(0, gs[k].qty - PlacedIn(r, k))) else gs[k])
  }

  /** The per-container step of `packMultipleContainers` for the groups
      `remaining`. With `carry`, the quantities left for the next container
      are reduced by what was placed. */
  method PackContainer(c: Container, idx: nat, remaining: seq<GroupSpec>, carry: bool, allowVerticalFlip: bool,
                       sideStability: (nat, nat, nat) -> real)
    returns (res: ContainerResult, next: seq<GroupSpec>)
    ensures Stepped(c, idx, remaining, carry, res, next)
    ensures ContainerPacked(c, idx, remaining, allowVerticalFlip, sideStability, res)
    ensures Tallied(res.result)
  {
    if TotalQty(remaining) == 0 {
      res := NothingLeft(c, idx, remaining);
      next := remaining;
      NothingLeftStep(c, idx, remaining, carry);
      NothingLeftTallied(c, idx, remaining);
      return;
    }
    var packResult := PackAllowed(c, remaining, allowVerticalFlip, sideStability);
    var corrected;
    corrected, next := CorrectGroups(packResult.groups, remaining, carry);
    res := ContainerResult(c.id, idx, packResult.(groups := corrected), WeightOf(corrected));
    RecountedStep(c, idx, remaining, carry, packResult, corrected, next, res);
    PackedFromAllowed(c, idx, remaining, allowVerticalFlip, sideStability, packResult, res);
    RecountTallied(packResult);
  }

  /** A container reached with nothing left holds nothing and passes the
      groups on unchanged. */
  lemma NothingLeftStep(c: Container, idx: nat, remaining: seq<GroupSpec>, carry: bool)
    requires TotalQty(remaining) == 0
    ensures Stepped(c, idx, remaining, carry, NothingLeft(c, idx, remaining), remaining)
  {
    UnplacedWeighsNothing(NothingLeft(c, idx, remaining).result.groups);
  }

  /** What the distributor reads off `packGroups`' result for the groups a
      container allows: one result per group unless the container is
      degenerate, each echoing its group's id in order, placing at most what
      is left and nothing of a group off a non-empty allow-list. */
  predicate AllowedResult(c: Container, remaining: seq<GroupSpec>, packed: PackResult)
  {
    (c.L <= 0 || c.W <= 0 || c.H <= 0 ==> packed == DegenerateResult(c.L, c.W, c.H)) &&
    (c.L > 0 && c.W > 0 && c.H > 0 ==> |packed.groups| == |remaining|) &&
    (forall k :: 0 <= k < |packed.groups| ==> k < |remaining| && packed.groups[k].id == remaining[k].id) &&
    (forall k :: 0 <= k < |packed.groups| ==> packed.groups[k].placedQty <= Max(0, remaining[k].qty)) &&
    (forall k ::
       (0 <= k < |packed.groups| && |c.allowedGroups| > 0 && remaining[k].id !in c.allowedGroups) ==>
       packed.groups[k].placedQty == 0)
  }

  /** The container's result, built from `packGroups`' result by recounting
      its groups, keeps the allow-list, places at most what is left and
      carries the rest forward. */
  lemma RecountedStep(c: Container, idx: nat, remaining: seq<GroupSpec>, carry: bool, packed: PackResult,
                      corrected: seq<GroupResult>, next: seq<GroupSpec>, res: ContainerResult)
    requires TotalQty(remaining) != 0
    requires AllowedResult(c, remaining, packed)
    requires Recounts(packed.groups, remaining, carry, corrected, next)
    requires res == ContainerResult(c.id, idx, packed.(groups := corrected), WeightOf(corrected))
    ensures Stepped(c, idx, remaining, carry, res, next)
    ensures Labelled(c, idx, res) && res.result == packed.(groups := Recounted(packed.groups))
  {
    assert corrected == Recounted(packed.groups);
    if carry {
      CarriedIsLeftAfter(packed.groups, remaining, corrected, next, res);
    }
  }

  /** In sequential mode the recount passes on exactly `LeftAfter`. */
  lemma CarriedIsLeftAfter(packed: seq<GroupResult>, remaining: seq<GroupSpec>, corrected: seq<GroupResult>,
                           next: seq<GroupSpec>, res: ContainerResult)
    requires TotalQty(remaining) != 0 && res.result.groups == corrected
    requires Recounts(packed, remaining, true, corrected, next)
    ensures next == LeftAfter(remaining, res)
  {
    var left := LeftAfter(remaining, res);
    forall k | 0 <= k < |remaining|
      ensures next[k] == left[k]
    {
      assert next[k] == remaining[k].(qty := next[k].qty);
    }
  }

  /** A recount of `packGroups`' result for the allowed groups is the
      container's packed result. */
  lemma PackedFromAllowed(c: Container, idx: nat, asked: seq<GroupSpec>, allowVerticalFlip: bool,
                          sideStability: (nat, nat, nat) -> real, packed: PackResult, res: ContainerResult)
    requires TotalQty(asked) != 0
    requires GroupsPacked(AllowedFor(c, asked), c.L, c.W, c.H, allowVerticalFlip, sideStability, packed)
    requires Labelled(c, idx, res) && res.result == packed.(groups := Recounted(packed.groups))
    ensures ContainerPacked(c, idx, asked, allowVerticalFlip, sideStability, res)
  {
  }

  /** `packGroups` on the groups a container allows: its result for them,
      read as `AllowedResult`. */
  method PackAllowed(c: Container, remaining: seq<GroupSpec>, allowVerticalFlip: bool,
                     sideStability: (nat, nat, nat) -> real)
    returns (packed: PackResult)
    ensures |packed.groups| == 0 || |packed.groups| == |remaining|
    ensures AllowedResult(c, remaining, packed)
    ensures GroupsPacked(AllowedFor(c, remaining), c.L, c.W, c.H, allowVerticalFlip, sideStability, packed)
    ensures Tallied(packed)
  {
    packed := PackEchoing(AllowedFor(c, remaining), c.L, c.W, c.H, allowVerticalFlip, sideStability);
    AllowedEchoes(c, remaining, packed);
  }

  /** A result echoing the allowed groups reports them in order, within
      what each asks for, and nothing of a group off the allow-list. */
  lemma AllowedEchoes(c: Container, remaining: seq<GroupSpec>, packed: PackResult)
    requires c.L <= 0 || c.W <= 0 || c.H <= 0 ==> packed == DegenerateResult(c.L, c.W, c.H)
    requires c.L > 0 && c.W > 0 && c.H > 0 ==> |packed.groups| == |remaining|
    requires c.L > 0 && c.W > 0 && c.H > 0 ==> forall k :: 0 <= k < |remaining| ==>
      Echoes(AllowedFor(c, remaining)[k], packed.groups[k]) && packed.groups[k].placedQty <= packed.groups[k].qty
    ensures |packed.groups| == 0 || |packed.groups| == |remaining|
    ensures AllowedResult(c, remaining, packed)
  {
    var forThis := AllowedFor(c, remaining);
    if c.L > 0 && c.W > 0 && c.H > 0 {
      forall k | 0 <= k < |packed.groups|
        ensures packed.groups[k].id == remaining[k].id
        ensures packed.groups[k].placedQty <= Max(0, forThis[k].qty) <= Max(0, remaining[k].qty)
      {
        assert Echoes(forThis[k], packed.groups[k]);
      }
    }
  }

  /** `packGroups`, with what the distributor relies on spelled out: one
      result per requested group echoing its request. */
  method PackEchoing(groups: seq<GroupSpec>, L: int, W: int, H: int, allowVerticalFlip: bool,
                     sideStability: (nat, nat, nat) -> real)
    returns (packed: PackResult)
    ensures L <= 0 || W <= 0 || H <= 0 ==> packed == DegenerateResult(L, W, H)
    ensures L > 0 && W > 0 && H > 0 ==> |packed.groups| == |groups|
    ensures L > 0 && W > 0 && H > 0 ==> forall k :: 0 <= k < |groups| ==>
      Echoes(groups[k], packed.groups[k]) && packed.groups[k].placedQty <= packed.groups[k].qty
    ensures GroupsPacked(groups, L, W, H, allowVerticalFlip, sideStability, packed)
    ensures Tallied(packed)
  {
    packed := PackGroups(groups, L, W, H, allowVerticalFlip, sideStability);
    PackedTallied(groups, L, W, H, allowVerticalFlip, sideStability, packed);
    if L > 0 && W > 0 && H > 0 {
      ReportedEchoes(groups, L, W, H, packed);
    }
  }

  /** `corrected` is `packed` with each group's count as its quantity;
      `next` is `remaining` with, under `carry`, each quantity reduced by the
      count placed (never below 0). */
  predicate Recounts(packed: seq<GroupResult>, remaining: seq<GroupSpec>, carry: bool,
                     corrected: seq<GroupResult>, next: seq<GroupSpec>)
  {
    |corrected| == |packed| &&
    (forall k :: 0 <= k < |packed| ==> corrected[k] == packed[k].(qty := packed[k].placedQty)) &&
    SameGroups(remaining, next) &&
    forall k :: 0 <= k < |remaining| ==>
      next[k].qty == if carry && k < |packed| then Max(0, remaining[k].qty - packed[k].placedQty)
                     else remaining[k].qty
  }

  /** The `correctedGroups` map of `packMultipleContainers`: each group's
      quantity becomes its placed count and, with `carry`, the quantity left
      for the next container drops by the placed count (never below 0). */
  method CorrectGroups(packed: seq<GroupResult>, remaining: seq<GroupSpec>, carry: bool)
    returns (corrected: seq<GroupResult>, next: seq<GroupSpec>)
    requires |packed| == 0 || |packed| == |remaining|
    ensures Recounts(packed, remaining, carry, corrected, next)
  {
    corrected := [];
    next := remaining;
    for i := 0 to |packed|
      invariant |corrected| == i
      invariant forall k :: 0 <= k < i ==> corrected[k] == packed[k].(qty := packed[k].placedQty)
      invariant SameGroups(remaining, next)
      invariant forall k :: 0 <= k < |remaining| ==>
        next[k].qty == if carry && k < i then Max(0, remaining[k].qty - packed[k].placedQty)
                       else remaining[k].qty
    {
      var placed := packed[i].placedQty;
      if carry {
        next := next[i := next[i].(qty := Max(0, next[i].qty - placed))];
      }
      corrected := corrected + [packed[i].(qty := placed)];
    }
  }

  // ---------------------------------------------------------------------
  // The container loop
  // ---------------------------------------------------------------------

  /** Group `k`'s counts in the containers of `rs`, in order. */
  function PlacedSeq(rs: seq<ContainerResult>, k: nat): (r: seq<nat>)
    ensures |r| == |rs| && forall i :: 0 <= i < |rs| ==> r[i] == PlacedIn(rs[i], k)
  {
    seq(|rs|, i requires 0 <= i < |rs| => PlacedIn(rs[i], k))
  }

  /** The quantities the first container starts from. */
  function Working(groups: seq<GroupSpec>, n: nat, spread: bool): (r: seq<GroupSpec>)
    requires n > 0
    ensures SameGroups(groups, r)
  {
    if spread && n > 1
    then seq(|groups|, k requires 0 <= k < |groups| => groups[k].(qty := Allocation(groups[k].qty, n, 0)))
    else groups
  }

  /** The groups with their allocation for container `idx`. */
  function Allocated(groups: seq<GroupSpec>, n: nat, idx: nat): (r: seq<GroupSpec>)
    requires n > 0
    ensures SameGroups(groups, r)
    ensures forall k :: 0 <= k < |groups| ==> r[k].qty == Allocation(groups[k].qty, n, idx)
  {
    seq(|groups|, k requires 0 <= k < |groups| => groups[k].(qty := Allocation(groups[k].qty, n, idx)))
  }

  /** What sequential mode offers the container after those of `rs`. */
  function Remaining(groups: seq<GroupSpec>, rs: seq<ContainerResult>): (r: seq<GroupSpec>)
    ensures SameGroups(groups, r)
  {
    if rs == [] then groups else LeftAfter(Remaining(groups, rs[..|rs| - 1]), rs[|rs| - 1])
  }

  /** The groups container `|rs|` of `n` is offered once those of `rs` are
      packed: its allocation in spread mode, what the earlier containers
      left otherwise. */
  function Offered(groups: seq<GroupSpec>, n: nat, spreadAcrossContainers: bool, rs: seq<ContainerResult>)
    : (r: seq<GroupSpec>)
    requires n > 0
    ensures SameGroups(groups, r)
  {
    if spreadAcrossContainers && n > 1 then Allocated(groups, n, |rs|) else Remaining(groups, rs)
  }

  /** Each container's result, in turn, is `packGroups`' result for the
      groups it was offered once the earlier ones were packed, or the empty
      result when they asked for nothing . */
  ghost predicate PackedInTurn(groups: seq<GroupSpec>, containers: seq<Container>, spreadAcrossContainers: bool,
                               allowVerticalFlip: bool, sideStability: (nat, nat, nat) -> real,
                               rs: seq<ContainerResult>)
    decreases |rs|
  {
    |rs| <= |containers| &&
    (rs != [] ==>
       var i := |rs| - 1;
       PackedInTurn(groups, containers, spreadAcrossContainers, allowVerticalFlip, sideStability, rs[..i]) &&
       ContainerPacked(containers[i], i, Offered(groups, |containers|, spreadAcrossContainers, rs[..i]),
                       allowVerticalFlip, sideStability, rs[i]))
  }

  /** Packing the next container in turn extends `PackedInTurn`. */
  lemma PackedInTurnStep(groups: seq<GroupSpec>, containers: seq<Container>, spreadAcrossContainers: bool,
                         allowVerticalFlip: bool, sideStability: (nat, nat, nat) -> real,
                         rs: seq<ContainerResult>, res: ContainerResult)
    requires |rs| < |containers|
    requires PackedInTurn(groups, containers, spreadAcrossContainers, allowVerticalFlip, sideStability, rs)
    requires ContainerPacked(containers[|rs|], |rs|, Offered(groups, |containers|, spreadAcrossContainers, rs),
                             allowVerticalFlip, sideStability, res)
    ensures PackedInTurn(groups, containers, spreadAcrossContainers, allowVerticalFlip, sideStability, rs + [res])
    ensures Remaining(groups, rs + [res]) == LeftAfter(Remaining(groups, rs), res)
  {
    var rs' := rs + [res];
    assert rs'[..|rs|] == rs;
  }

  /** In sequential mode every container places at most what the earlier
      containers left of each group. */
  ghost predicate CarriedForward(groups: seq<GroupSpec>, rs: seq<ContainerResult>)
  {
    forall i, k :: 0 <= i < |rs| && 0 <= k < |groups| ==>
      PlacedIn(rs[i], k) <= Max(0, Carry(groups[k].qty, PlacedSeq(rs[..i], k)))
  }

  /** In spread mode every container places at most its allocation of each
      group. */
  ghost predicate WithinAllocation(groups: seq<GroupSpec>, n: nat, rs: seq<ContainerResult>)
    requires n > 0
  {
    forall i, k :: 0 <= i < |rs| && 0 <= k < |groups| ==>
      PlacedIn(rs[i], k) <= Max(0, Allocation(groups[k].qty, n, i))
  }

  /** No container holds a group its non-empty allow-list leaves out. */
  ghost predicate AllowListsKept(groups: seq<GroupSpec>, containers: seq<Container>, rs: seq<ContainerResult>)
    requires |rs| <= |containers|
  {
    forall i, k ::
      (0 <= i < |rs| && 0 <= k < |groups| &&
       |containers[i].allowedGroups| > 0 && groups[k].id !in containers[i].allowedGroups) ==>
      PlacedIn(rs[i], k) == 0
  }

  /** What the container loop keeps once the containers of `rs` are
      packed and `remaining` is left: every result labelled with its
      container, the allow-lists kept, each container within its allocation
      (spread mode) or within what the earlier ones left, which is exactly
      `remaining` (sequential mode), and each container packed in turn. */
  ghost predicate InTurn(groups: seq<GroupSpec>, containers: seq<Container>, spreadAcrossContainers: bool,
                         allowVerticalFlip: bool, sideStability: (nat, nat, nat) -> real,
                         rs: seq<ContainerResult>, remaining: seq<GroupSpec>)
  {
    |containers| > 0 && SameGroups(groups, remaining) && AllLabelled(containers, rs) &&
    AllowListsKept(groups, containers, rs) &&
    (spreadAcrossContainers && |containers| > 1 ==> WithinAllocation(groups, |containers|, rs)) &&
    (!(spreadAcrossContainers && |containers| > 1) ==>
       CarriedForward(groups, rs) && remaining == Remaining(groups, rs) &&
       forall k :: 0 <= k < |groups| ==>
         Max(0, remaining[k].qty) == Max(0, Carry(groups[k].qty, PlacedSeq(rs, k)))) &&
    PackedInTurn(groups, containers, spreadAcrossContainers, allowVerticalFlip, sideStability, rs)
  }

  /** One turn of the container loop: packing the next container with the
      groups it is offered keeps `InTurn`. */
  lemma TurnStep(groups: seq<GroupSpec>, containers: seq<Container>, spreadAcrossContainers: bool,
                 allowVerticalFlip: bool, sideStability: (nat, nat, nat) -> real,
                 rs: seq<ContainerResult>, remaining: seq<GroupSpec>, offered: seq<GroupSpec>,
                 res: ContainerResult, next: seq<GroupSpec>)
    requires |rs| < |containers|
    requires InTurn(groups, containers, spreadAcrossContainers, allowVerticalFlip, sideStability, rs, remaining)
    requires offered == if spreadAcrossContainers && |containers| > 1
                        then Allocated(groups, |containers|, |rs|) else remaining
    requires Stepped(containers[|rs|], |rs|, offered, !(spreadAcrossContainers && |containers| > 1), res, next)
    requires ContainerPacked(containers[|rs|], |rs|, offered, allowVerticalFlip, sideStability, res)
    ensures InTurn(groups, containers, spreadAcrossContainers, allowVerticalFlip, sideStability, rs + [res], next)
  {
    var n := |containers|;
    assert offered == Offered(groups, n, spreadAcrossContainers, rs);
    PackedInTurnStep(groups, containers, spreadAcrossContainers, allowVerticalFlip, sideStability, rs, res);
    LabelledStep(containers, rs, res);
    AllowStep(groups, containers, rs, offered, res);
    if spreadAcrossContainers && n > 1 {
      SpreadStep(groups, rs, offered, res, n);
    } else {
      CarryStep(groups, rs, offered, res, next);
    }
  }

  /** One pass of `packMultipleContainers`' container loop: the next
      container is offered its allocation (spread mode) or what is left
      (sequential mode), and its result is appended. */
  method PackTurn(groups: seq<GroupSpec>, containers: seq<Container>, spreadAcrossContainers: bool,
                  allowVerticalFlip: bool, sideStability: (nat, nat, nat) -> real,
                  results: seq<ContainerResult>, remaining: seq<GroupSpec>)
    returns (results': seq<ContainerResult>, remaining': seq<GroupSpec>)
    requires |results| < |containers|
    requires InTurn(groups, containers, spreadAcrossContainers, allowVerticalFlip, sideStability, results, remaining)
    ensures |results'| == |results| + 1 && results'[..|results|] == results
    ensures InTurn(groups, containers, spreadAcrossContainers, allowVerticalFlip, sideStability, results', remaining')
    requires AllTallied(results)
    ensures AllTallied(results')
  {
    var i := |results|;
    var spread := spreadAcrossContainers && |containers| > 1;
    var offered := if spread then Allocated(groups, |containers|, i) else remaining;
    var res;
    res, remaining' := PackContainer(containers[i], i, offered, !spread, allowVerticalFlip, sideStability);
    TurnStep(groups, containers, spreadAcrossContainers, allowVerticalFlip, sideStability, results, remaining,
             offered, res, remaining');
    TalliedStep(results, res);
    results' := results + [res];
    assert results'[..i] == results;
  }

  /** Every container's counts are tallied from its own boxes. */
  ghost predicate AllTallied(rs: seq<ContainerResult>)
  {
    forall i :: 0 <= i < |rs| ==> Tallied(rs[i].result)
  }

  /** Appending a tallied result keeps every result tallied. */
  lemma TalliedStep(rs: seq<ContainerResult>, res: ContainerResult)
    requires AllTallied(rs) && Tallied(res.result)
    ensures AllTallied(rs + [res])
  {
    assert forall j :: 0 <= j < |rs| ==> (rs + [res])[j] == rs[j];
  }

  /** `packMultipleContainers`. */
  method PackMultipleContainers(groups: seq<GroupSpec>, containers: seq<Container>, allowVerticalFlip: bool,
                                spreadAcrossContainers: bool, sideStability: (nat, nat, nat) -> real)
    returns (results: seq<ContainerResult>)
    ensures |results| == |containers|
    ensures AllLabelled(containers, results)
    ensures AllowListsKept(groups, containers, results)
    ensures spreadAcrossContainers && |containers| > 1 ==> WithinAllocation(groups, |containers|, results)
    ensures !(spreadAcrossContainers && |containers| > 1) ==> CarriedForward(groups, results)
    ensures forall k :: 0 <= k < |groups| ==> Sum(PlacedSeq(results, k)) <= Max(0, groups[k].qty)
    ensures PackedInTurn(groups, containers, spreadAcrossContainers, allowVerticalFlip, sideStability, results)
    ensures AllTallied(results)
  {
    results := [];
    if |containers| == 0 {
      return;
    }
    var n := |containers|;
    var spread := spreadAcrossContainers && n > 1;
    var remaining := Working(groups, n, spreadAcrossContainers);
    for i := 0 to n
      invariant |results| == i
      invariant InTurn(groups, containers, spreadAcrossContainers, allowVerticalFlip, sideStability, results, remaining)
      invariant AllTallied(results)
    {
      results, remaining := PackTurn(groups, containers, spreadAcrossContainers, allowVerticalFlip, sideStability,
                                     results, remaining);
    }
    DistributionConserves(groups, n, spread, results);
  }

  /** In either mode, the containers together place at most what the
      caller asked for of each group. */
  lemma DistributionConserves(groups: seq<GroupSpec>, n: nat, spread: bool, results: seq<ContainerResult>)
    requires n > 0 && |results| <= n
    requires spread ==> WithinAllocation(groups, n, results)
    requires !spread ==> CarriedForward(groups, results)
    ensures forall k :: 0 <= k < |groups| ==> Sum(PlacedSeq(results, k)) <= Max(0, groups[k].qty)
  {
    forall k | 0 <= k < |groups|
      ensures Sum(PlacedSeq(results, k)) <= Max(0, groups[k].qty)
    {
      if spread {
        SpreadConserves(groups[k].qty, n, PlacedSeq(results, k));
      } else {
        forall j | 0 <= j < |results|
          ensures PlacedSeq(results, k)[j] <= Max(0, Carry(groups[k].qty, PlacedSeq(results, k)[..j]))
        {
          assert PlacedSeq(results, k)[..j] == PlacedSeq(results[..j], k);
        }
        CarryConserves(groups[k].qty, PlacedSeq(results, k));
      }
    }
  }

  /** One container's step keeps the allow-lists. */
  lemma AllowStep(groups: seq<GroupSpec>, containers: seq<Container>, results: seq<ContainerResult>,
                  remaining: seq<GroupSpec>, res: ContainerResult)
    requires |results| < |containers| && SameGroups(groups, remaining)
    requires AllowListsKept(groups, containers, results)
    requires forall k ::
      (0 <= k < |remaining| && |containers[|results|].allowedGroups| > 0 &&
       remaining[k].id !in containers[|results|].allowedGroups) ==> PlacedIn(res, k) == 0
    ensures AllowListsKept(groups, containers, results + [res])
  {
    var rs := results + [res];
    forall i, k |
      (0 <= i < |rs| && 0 <= k < |groups| &&
       |containers[i].allowedGroups| > 0 && groups[k].id !in containers[i].allowedGroups)
      ensures PlacedIn(rs[i], k) == 0
    {
      if i < |results| {
        assert rs[i] == results[i];
      } else {
        assert remaining[k].id == groups[k].id;
      }
    }
  }

  /** One container's step keeps every container within its allocation. */
  lemma SpreadStep(groups: seq<GroupSpec>, results: seq<ContainerResult>, remaining: seq<GroupSpec>,
                   res: ContainerResult, n: nat)
    requires n > 0 && SameGroups(groups, remaining)
    requires WithinAllocation(groups, n, results)
    requires forall k :: 0 <= k < |groups| ==> remaining[k].qty == Allocation(groups[k].qty, n, |results|)
    requires forall k :: 0 <= k < |remaining| ==> PlacedIn(res, k) <= Max(0, remaining[k].qty)
    ensures WithinAllocation(groups, n, results + [res])
  {
    var rs := results + [res];
    forall i, k | 0 <= i < |rs| && 0 <= k < |groups|
      ensures PlacedIn(rs[i], k) <= Max(0, Allocation(groups[k].qty, n, i))
    {
      if i < |results| {
        assert rs[i] == results[i];
      }
    }
  }

  /** The placed counts of the containers before `i` do not change when a
      container is appended. */
  lemma PlacedSeqSnoc(results: seq<ContainerResult>, res: ContainerResult, k: nat)
    ensures PlacedSeq(results + [res], k) == PlacedSeq(results, k) + [PlacedIn(res, k)]
    ensures forall i :: 0 <= i <= |results| ==> (results + [res])[..i] == results[..i]
  {
    assert forall i :: 0 <= i <= |results| ==> (results + [res])[..i] == results[..i];
  }

  /** One container's step keeps the carry in step with what is left. */
  lemma CarryStep(groups: seq<GroupSpec>, results: seq<ContainerResult>, remaining: seq<GroupSpec>,
                  res: ContainerResult, next: seq<GroupSpec>)
    requires SameGroups(groups, remaining) && SameGroups(remaining, next)
    requires CarriedForward(groups, results)
    requires forall k :: 0 <= k < |groups| ==>
      Max(0, remaining[k].qty) == Max(0, Carry(groups[k].qty, PlacedSeq(results, k)))
    requires forall k :: 0 <= k < |remaining| ==> PlacedIn(res, k) <= Max(0, remaining[k].qty)
    requires forall k :: 0 <= k < |remaining| ==>
      Max(0, next[k].qty) == Max(0, remaining[k].qty - PlacedIn(res, k))
    ensures CarriedForward(groups, results + [res])
    ensures forall k :: 0 <= k < |groups| ==>
      Max(0, next[k].qty) == Max(0, Carry(groups[k].qty, PlacedSeq(results + [res], k)))
  {
    var rs := results + [res];
    forall k | 0 <= k < |groups|
      ensures Max(0, next[k].qty) == Max(0, Carry(groups[k].qty, PlacedSeq(rs, k)))
    {
      PlacedSeqSnoc(results, res, k);
      assert PlacedSeq(rs, k)[..|results|] == PlacedSeq(results, k);
    }
    forall i, k | 0 <= i < |rs| && 0 <= k < |groups|
      ensures PlacedIn(rs[i], k) <= Max(0, Carry(groups[k].qty, PlacedSeq(rs[..i], k)))
    {
      PlacedSeqSnoc(results, res, k);
      if i < |results| {
        assert rs[i] == results[i];
      } else {
        assert rs[..i] == results;
      }
    }
  }
}
