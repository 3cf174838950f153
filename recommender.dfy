/** `recommendContainers`: finds a cheap list of containers that holds all
    the caller's boxes. Each container type's capacity and each candidate
    list's placed count come from the multi-container packer, which the
    model receives as a function: `placedBy(list)` is the number of boxes
    `packMultipleContainers` places, in sequential mode, in the containers
    of `list`. */
module Recommender {
  import opened Basics
  import opened Groups
  import opened Distributor

  /** A container type the caller offers, named by its label. A
      `costWeight` of 0 stands for
      an absent one. */
  datatype ContainerType = ContainerType(name: string, L: int, W: int, H: int, weightLimit: real, costWeight: real)

  /** A type with the number of boxes one container of it holds. */
  datatype TypeCapacity = TypeCapacity(kind: ContainerType, capacity: nat, costWeight: real)

  /** A candidate list of containers with its placed count and cost. */
  datatype Candidate = Candidate(totalPlaced: nat, totalCost: real, containers: seq<ContainerType>)

  /** Strategy 1 tries up to this many containers of one type. */
  const MaxContainers: nat := 4

  /** The tolerance within which two costs count as equal. */
  const CostTolerance: real := 0.01

  // ---------------------------------------------------------------------
  // Container types and their capacities
  // ---------------------------------------------------------------------

  /** A type with all three sizes and a weight limit (none of them 0). */
  predicate IsValidType(t: ContainerType)
  {
    t.L != 0 && t.W != 0 && t.H != 0 && t.weightLimit != 0.0
  }

  function ValidTypes(ts: seq<ContainerType>): (r: seq<ContainerType>)
    ensures forall t :: t in r <==> t in ts && IsValidType(t)
  {
    if ts == [] then []
    else
      var init := ValidTypes(ts[..|ts| - 1]);
      var last := ts[|ts| - 1];
      assert ts == ts[..|ts| - 1] + [last];
      if IsValidType(last) then init + [last] else init
  }

  /** The filter is stable: filtering a concatenation concatenates the
      filtered parts, so the kept types stay in the caller's order. */
  lemma {:induction false} ValidTypesAppend(a: seq<ContainerType>, b: seq<ContainerType>)
    ensures ValidTypes(a + b) == ValidTypes(a) + ValidTypes(b)
    decreases |b|
  {
    if b == [] {
      assert a + b == a;
    } else {
      var b' := b[..|b| - 1];
      ValidTypesAppend(a, b');
      assert (a + b)[..|a + b| - 1] == a + b';
      assert (a + b)[|a + b| - 1] == b[|b| - 1];
    }
  }

  /** The type's cost weight, 1 when none is given. */
  function CostWeightOf(t: ContainerType): real
  {
    if t.costWeight != 0.0 then t.costWeight else 1.0
  }

  /** The capacities of the valid types, keeping those that hold at least
      one box. */
  function Capacities(valid: seq<ContainerType>, placedBy: seq<ContainerType> -> nat): (r: seq<TypeCapacity>)
    ensures forall c :: c in r ==>
      (c.kind in valid && c.capacity == placedBy([c.kind]) && c.capacity > 0 && c.costWeight == CostWeightOf(c.kind))
    ensures forall t :: t in valid && placedBy([t]) > 0 ==>
      TypeCapacity(t, placedBy([t]), CostWeightOf(t)) in r
  {
    if valid == [] then []
    else
      var init := Capacities(valid[..|valid| - 1], placedBy);
      var last := valid[|valid| - 1];
      assert valid == valid[..|valid| - 1] + [last];
      if placedBy([last]) > 0 then init + [TypeCapacity(last, placedBy([last]), CostWeightOf(last))] else init
  }

  /** Capacities are listed in the order of the valid types: computing them
      for a concatenation concatenates the parts' lists. */
  lemma {:induction false} CapacitiesAppend(a: seq<ContainerType>, b: seq<ContainerType>,
                                            placedBy: seq<ContainerType> -> nat)
    ensures Capacities(a + b, placedBy) == Capacities(a, placedBy) + Capacities(b, placedBy)
    decreases |b|
  {
    if b == [] {
      assert a + b == a;
    } else {
      var b' := b[..|b| - 1];
      var last := b[|b| - 1];
      var kept := if placedBy([last]) > 0 then [TypeCapacity(last, placedBy([last]), CostWeightOf(last))] else [];
      CapacitiesAppend(a, b', placedBy);
      assert (a + b)[..|a + b| - 1] == a + b';
      assert (a + b)[|a + b| - 1] == last;
      assert Capacities(a + b, placedBy) == Capacities(a + b', placedBy) + kept;
      assert Capacities(b, placedBy) == Capacities(b', placedBy) + kept;
    }
  }

  function NegCapacity(c: TypeCapacity): real
  {
    -(c.capacity as real)
  }

  // ---------------------------------------------------------------------
  // The candidate search
  // ---------------------------------------------------------------------

  /** What the search works on: the types by capacity (largest first), the
      packer's placed count and the number of boxes asked for. */
  datatype Search = Search(sorted: seq<TypeCapacity>, placedBy: seq<ContainerType> -> nat, total: int)

  /** `typeCapacities.find(...)`: the cost weight of the first type with
      the label, 1 when there is none. */
  function CostOf(name: string, caps: seq<TypeCapacity>): real
  {
    if caps == [] then 1.0
    else if caps[0].kind.name == name then caps[0].costWeight
    else CostOf(name, caps[1..])
  }

  /** The cost of a list of containers. */
  function ConfigCost(list: seq<ContainerType>, caps: seq<TypeCapacity>): real
  {
    if list == [] then 0.0 else ConfigCost(list[..|list| - 1], caps) + CostOf(list[|list| - 1].name, caps)
  }

  /** `testConfig`. */
  function Test(s: Search, list: seq<ContainerType>): Candidate
  {
    Candidate(s.placedBy(list), ConfigCost(list, s.sorted), list)
  }

  predicate Fits(s: Search, list: seq<ContainerType>)
  {
    s.placedBy(list) >= s.total
  }

  /** `count` containers of type `t`. */
  function Copies(t: ContainerType, count: nat): (r: seq<ContainerType>)
    ensures |r| == count && forall i :: 0 <= i < count ==> r[i] == t
  {
    seq(count, i requires 0 <= i < count => t)
  }

  /** Strategy 1 for one type, from `count` containers up: the first count
      that holds everything, if any up to the limit does. */
  function FirstFit(s: Search, t: ContainerType, count: nat): (r: seq<Candidate>)
    requires 1 <= count <= MaxContainers + 1
    decreases MaxContainers + 1 - count
    ensures |r| <= 1
  {
    if count > MaxContainers then []
    else if Fits(s, Copies(t, count)) then [Test(s, Copies(t, count))]
    else FirstFit(s, t, count + 1)
  }

  /** Strategy 1 finds nothing exactly when no count up to the limit holds
      everything, and otherwise tests the smallest count that does. */
  lemma {:induction false} FirstFitMinimal(s: Search, t: ContainerType, count: nat)
    requires 1 <= count <= MaxContainers + 1
    decreases MaxContainers + 1 - count
    ensures FirstFit(s, t, count) == [] <==> forall c :: count <= c <= MaxContainers ==> !Fits(s, Copies(t, c))
    ensures FirstFit(s, t, count) != [] ==>
      exists c :: count <= c <= MaxContainers && FirstFit(s, t, count) == [Test(s, Copies(t, c))] &&
        Fits(s, Copies(t, c)) && forall d :: count <= d < c ==> !Fits(s, Copies(t, d))
  {
    if count <= MaxContainers && !Fits(s, Copies(t, count)) {
      FirstFitMinimal(s, t, count + 1);
    }
  }

  /** Strategy 1 over the first `n` types. */
  function Strategy1(s: Search, n: nat): seq<Candidate>
    requires n <= |s.sorted|
  {
    if n == 0 then [] else Strategy1(s, n - 1) + FirstFit(s, s.sorted[n - 1].kind, 1)
  }

  /** Strategy 2 for the types `i` and `j`: one of each, and one of `i`
      with two of `j` when `i` holds more. */
  function PairCandidates(s: Search, i: nat, j: nat): seq<Candidate>
    requires i < |s.sorted| && j < |s.sorted|
  {
    var t1 := s.sorted[i];
    var t2 := s.sorted[j];
    (if i != j && Fits(s, [t1.kind, t2.kind]) then [Test(s, [t1.kind, t2.kind])] else []) +
    (if i != j && t1.capacity > t2.capacity && Fits(s, [t1.kind, t2.kind, t2.kind])
     then [Test(s, [t1.kind, t2.kind, t2.kind])] else [])
  }

  /** Strategy 2 for type `i` with the types `i` to `j - 1`. */
  function Row(s: Search, i: nat, j: nat): seq<Candidate>
    requires i < |s.sorted| && i <= j <= |s.sorted|
    decreases j - i
  {
    if j == i then [] else Row(s, i, j - 1) + PairCandidates(s, i, j - 1)
  }

  /** Strategy 2 for the first `n` types. */
  function Rows(s: Search, n: nat): seq<Candidate>
    requires n <= |s.sorted|
  {
    if n == 0 then [] else Rows(s, n - 1) + Row(s, n - 1, |s.sorted|)
  }

  function CandidatesOf(s: Search): seq<Candidate>
  {
    Strategy1(s, |s.sorted|) + Rows(s, |s.sorted|)
  }

  /** Strategy 1's inner loop: more containers of one type until they hold
      everything or the limit is reached. */
  method TryCounts(s: Search, t: ContainerType) returns (found: seq<Candidate>)
    ensures found == FirstFit(s, t, 1)
  {
    var count := 1;
    while count <= MaxContainers
      invariant 1 <= count <= MaxContainers + 1
      invariant FirstFit(s, t, 1) == FirstFit(s, t, count)
      decreases MaxContainers + 1 - count
    {
      var containers := Copies(t, count);
      var result := Test(s, containers);
      if result.totalPlaced >= s.total {
        return [result];
      }
      count := count + 1;
    }
    return [];
  }

  /** Strategy 2's loop body for the types `i` and `j`. */
  method TryPair(s: Search, i: nat, j: nat) returns (found: seq<Candidate>)
    requires i < |s.sorted| && j < |s.sorted|
    ensures found == PairCandidates(s, i, j)
  {
    var type1 := s.sorted[i];
    var type2 := s.sorted[j];
    found := [];
    if i != j {
      var result := Test(s, [type1.kind, type2.kind]);
      if result.totalPlaced >= s.total {
        found := found + [result];
      }
    }
    if i != j && type1.capacity > type2.capacity {
      var result := Test(s, [type1.kind, type2.kind, type2.kind]);
      if result.totalPlaced >= s.total {
        found := found + [result];
      }
    }
  }

  /** Strategy 2's inner loop: type `i` with every type from `i` on. */
  method TryPairs(s: Search, i: nat) returns (found: seq<Candidate>)
    requires i < |s.sorted|
    ensures found == Row(s, i, |s.sorted|)
  {
    found := [];
    for j := i to |s.sorted|
      invariant found == Row(s, i, j)
    {
      var pair := TryPair(s, i, j);
      found := found + pair;
    }
  }

  /** The two strategies' loops. */
  method CollectCandidates(s: Search) returns (candidates: seq<Candidate>)
    ensures candidates == CandidatesOf(s)
  {
    var n := |s.sorted|;
    var single := [];
    for i := 0 to n
      invariant single == Strategy1(s, i)
    {
      var found := TryCounts(s, s.sorted[i].kind);
      single := single + found;
    }
    var mixed := [];
    for i := 0 to n
      invariant mixed == Rows(s, i)
    {
      var found := TryPairs(s, i);
      mixed := mixed + found;
    }
    candidates := single + mixed;
  }

  // ---------------------------------------------------------------------
  // What the candidates are
  // ---------------------------------------------------------------------

  /** A candidate is an evaluated list that holds everything. */
  predicate Evaluated(s: Search, c: Candidate)
  {
    c == Test(s, c.containers) && Fits(s, c.containers)
  }

  /** The three shapes of a candidate list: one to four containers of one
      type; one each of two types; one of a type and two of a type that
      holds less. */
  ghost predicate Shaped(s: Search, list: seq<ContainerType>)
  {
    (exists i, count :: 0 <= i < |s.sorted| && 1 <= count <= MaxContainers &&
       list == Copies(s.sorted[i].kind, count)) ||
    (exists i, j :: 0 <= i < j < |s.sorted| &&
       (list == [s.sorted[i].kind, s.sorted[j].kind] ||
        (s.sorted[i].capacity > s.sorted[j].capacity &&
         list == [s.sorted[i].kind, s.sorted[j].kind, s.sorted[j].kind])))
  }

  ghost predicate Candidates(s: Search, cs: seq<Candidate>)
  {
    forall k :: 0 <= k < |cs| ==> Evaluated(s, cs[k]) && Shaped(s, cs[k].containers)
  }

  lemma CandidatesAppend(s: Search, a: seq<Candidate>, b: seq<Candidate>)
    requires Candidates(s, a) && Candidates(s, b)
    ensures Candidates(s, a + b)
  {
    forall k | 0 <= k < |a + b|
      ensures Evaluated(s, (a + b)[k]) && Shaped(s, (a + b)[k].containers)
    {
      if k >= |a| {
        assert (a + b)[k] == b[k - |a|];
      }
    }
  }

  lemma {:induction false} Strategy1Candidates(s: Search, n: nat)
    requires n <= |s.sorted|
    ensures Candidates(s, Strategy1(s, n))
  {
    if n > 0 {
      Strategy1Candidates(s, n - 1);
      var t := s.sorted[n - 1].kind;
      FirstFitMinimal(s, t, 1);
      if FirstFit(s, t, 1) != [] {
        var c :| 1 <= c <= MaxContainers && FirstFit(s, t, 1) == [Test(s, Copies(t, c))] && Fits(s, Copies(t, c));
        assert Shaped(s, Copies(t, c));
      }
      CandidatesAppend(s, Strategy1(s, n - 1), FirstFit(s, t, 1));
    }
  }

  lemma PairCandidatesShaped(s: Search, i: nat, j: nat)
    requires i <= j < |s.sorted|
    ensures Candidates(s, PairCandidates(s, i, j))
  {
    var t1 := s.sorted[i].kind;
    var t2 := s.sorted[j].kind;
    if i != j {
      assert Shaped(s, [t1, t2]);
      if s.sorted[i].capacity > s.sorted[j].capacity {
        assert Shaped(s, [t1, t2, t2]);
      }
    }
  }

  lemma {:induction false} RowCandidates(s: Search, i: nat, j: nat)
    requires i < |s.sorted| && i <= j <= |s.sorted|
    decreases j - i
    ensures Candidates(s, Row(s, i, j))
  {
    if j > i {
      RowCandidates(s, i, j - 1);
      PairCandidatesShaped(s, i, j - 1);
      CandidatesAppend(s, Row(s, i, j - 1), PairCandidates(s, i, j - 1));
    }
  }

  lemma {:induction false} RowsCandidates(s: Search, n: nat)
    requires n <= |s.sorted|
    ensures Candidates(s, Rows(s, n))
  {
    if n > 0 {
      RowsCandidates(s, n - 1);
      RowCandidates(s, n - 1, |s.sorted|);
      CandidatesAppend(s, Rows(s, n - 1), Row(s, n - 1, |s.sorted|));
    }
  }

  /** Every candidate is a list of one of the three shapes, evaluated with the
      packer, that holds every box. */
  lemma CandidatesOfSpec(s: Search)
    ensures Candidates(s, CandidatesOf(s))
  {
    Strategy1Candidates(s, |s.sorted|);
    RowsCandidates(s, |s.sorted|);
    CandidatesAppend(s, Strategy1(s, |s.sorted|), Rows(s, |s.sorted|));
  }

  /** Strategy 1 misses no type: each type's first fit is among the
      candidates. */
  lemma {:induction false} Strategy1Complete(s: Search, n: nat, i: nat)
    requires i < n <= |s.sorted|
    ensures forall c :: c in FirstFit(s, s.sorted[i].kind, 1) ==> c in Strategy1(s, n)
  {
    if i < n - 1 {
      Strategy1Complete(s, n - 1, i);
    }
  }

  /** With nothing to find, no total can be reached: when no candidate
      exists, some boxes were asked for. */
  lemma NoCandidatesPositive(s: Search)
    requires |s.sorted| > 0 && CandidatesOf(s) == []
    ensures s.total > 0
  {
    Strategy1Complete(s, |s.sorted|, 0);
    FirstFitMinimal(s, s.sorted[0].kind, 1);
  }

  // ---------------------------------------------------------------------
  // Choosing a candidate
  // ---------------------------------------------------------------------

  /** The candidate comparator: lower cost first (costs within the
      tolerance count as equal), then fewer containers, then more boxes
      placed. */
  predicate Before(a: Candidate, b: Candidate)
  {
    var costDiff := a.totalCost - b.totalCost;
    if costDiff > CostTolerance || -costDiff > CostTolerance then costDiff < 0.0
    else if |a.containers| != |b.containers| then |a.containers| < |b.containers|
    else a.totalPlaced > b.totalPlaced
  }

  /** The costs of the candidates are equal or further apart than the
      tolerance (as they are when cost weights are multiples of 0.5). */
  ghost predicate CostsSeparated(cs: seq<Candidate>)
  {
    forall i, j :: 0 <= i < |cs| && 0 <= j < |cs| ==>
      cs[i].totalCost == cs[j].totalCost ||
      cs[i].totalCost - cs[j].totalCost > CostTolerance || cs[j].totalCost - cs[i].totalCost > CostTolerance
  }

  /** On separated costs the comparator orders by cost, then container
      count, then placed count descending, which is a strict weak order. */
  lemma SeparatedIsStrictWeak(cs: seq<Candidate>)
    requires CostsSeparated(cs)
    ensures StrictWeakOrderOn(cs, Before)
  {
    forall i, j | 0 <= i < |cs| && 0 <= j < |cs|
      ensures Before(cs[i], cs[j]) <==> Lex(cs[i], cs[j])
    {
    }
    forall i, j, k | 0 <= i < |cs| && 0 <= j < |cs| && 0 <= k < |cs| && Before(cs[i], cs[j])
      ensures Before(cs[i], cs[k]) || Before(cs[k], cs[j])
    {
      assert Lex(cs[i], cs[j]);
    }
  }

  /** The lexicographic order by cost, container count and placed count
      (descending). */
  predicate Lex(a: Candidate, b: Candidate)
  {
    a.totalCost < b.totalCost ||
    (a.totalCost == b.totalCost && |a.containers| < |b.containers|) ||
    (a.totalCost == b.totalCost && |a.containers| == |b.containers| && a.totalPlaced > b.totalPlaced)
  }

  // ---------------------------------------------------------------------
  // recommendContainers
  // ---------------------------------------------------------------------

  /** The choice among the candidates: the first one the comparator puts
      no later candidate before, which holds every box; on separated costs
      no candidate at all comes before it. */
  ghost predicate ChosenFrom(s: Search, r: seq<ContainerType>)
  {
    var cs := CandidatesOf(s);
    cs != [] ==>
      exists k :: 0 <= k < |cs| && r == cs[k].containers && s.placedBy(r) >= s.total &&
        (forall j :: k < j < |cs| ==> !Before(cs[j], cs[k])) &&
        (CostsSeparated(cs) ==>
           (forall j :: 0 <= j < |cs| ==> !Before(cs[j], cs[k])) && forall j :: 0 <= j < k ==> Before(cs[k], cs[j]))
  }

  /** The index the first-minimal scan returns gives the chosen list. */
  lemma ScanChooses(s: Search, k: nat)
    requires k < |CandidatesOf(s)|
    requires forall j :: k < j < |CandidatesOf(s)| ==> !Before(CandidatesOf(s)[j], CandidatesOf(s)[k])
    requires StrictWeakOrderOn(CandidatesOf(s), Before) ==>
      (forall j :: 0 <= j < |CandidatesOf(s)| ==> !Before(CandidatesOf(s)[j], CandidatesOf(s)[k])) &&
      forall j :: 0 <= j < k ==> Before(CandidatesOf(s)[k], CandidatesOf(s)[j])
    ensures CandidatesOf(s)[k].containers != [] && ChosenFrom(s, CandidatesOf(s)[k].containers)
  {
    var cs := CandidatesOf(s);
    CandidatesOfSpec(s);
    assert Evaluated(s, cs[k]) && Shaped(s, cs[k].containers);
    if CostsSeparated(cs) {
      SeparatedIsStrictWeak(cs);
    }
  }

  /** The fallback when no candidate holds everything: enough containers of
      the largest type to reach the total by capacity. */
  ghost predicate FallsBack(s: Search, r: seq<ContainerType>)
    requires |s.sorted| > 0
  {
    CandidatesOf(s) == [] ==>
      s.total > 0 && s.sorted[0].capacity > 0 && r == Copies(s.sorted[0].kind, CeilDiv(s.total, s.sorted[0].capacity)) &&
      |r| * s.sorted[0].capacity >= s.total &&
      forall c :: c in s.sorted ==> c.capacity <= s.sorted[0].capacity
  }

  /** The search and the choice, once the guards have passed. */
  method Recommend(s: Search) returns (r: seq<ContainerType>)
    requires |s.sorted| > 0 && SortedBy(s.sorted, NegCapacity) && s.total != 0
    requires forall c :: c in s.sorted ==> c.capacity > 0
    ensures r != [] && ChosenFrom(s, r) && FallsBack(s, r)
  {
    var candidates := CollectCandidates(s);
    if |candidates| == 0 {
      NoCandidatesPositive(s);
      var largest := s.sorted[0];
      assert largest in s.sorted;
      var numNeeded := CeilDiv(s.total, largest.capacity);
      LargestFirst(s.sorted);
      return Copies(largest.kind, numNeeded);
    }
    var k := FirstMinimal(candidates, Before);
    ScanChooses(s, k);
    r := candidates[k].containers;
  }

  /** The search over the caller's container types. */
  function SearchOf(groups: seq<GroupSpec>, types: seq<ContainerType>, placedBy: seq<ContainerType> -> nat): Search
  {
    Search(SortByKey(Capacities(ValidTypes(types), placedBy), NegCapacity), placedBy, TotalQty(groups))
  }

  /** `recommendContainers`: no list when there are no groups, no valid
      type, nothing to pack or no type that holds a box; otherwise the
      chosen candidate or the fallback. */
  method RecommendContainers(groups: seq<GroupSpec>, types: seq<ContainerType>, placedBy: seq<ContainerType> -> nat)
    returns (r: seq<ContainerType>)
    ensures var s := SearchOf(groups, types, placedBy);
      (r == [] <==> groups == [] || ValidTypes(types) == [] || s.total == 0 || s.sorted == []) &&
      (r != [] ==> ChosenFrom(s, r) && FallsBack(s, r))
  {
    if |groups| == 0 {
      return [];
    }
    var validTypes := ValidTypes(types);
    if |validTypes| == 0 {
      return [];
    }
    var totalCartons := TotalQty(groups);
    if totalCartons == 0 {
      return [];
    }
    var typeCapacities := Capacities(validTypes, placedBy);
    if |typeCapacities| == 0 {
      return [];
    }
    var sorted := SortByKey(typeCapacities, NegCapacity);
    assert |multiset(sorted)| == |multiset(typeCapacities)|;
    forall c | c in sorted
      ensures c.capacity > 0
    {
      assert c in multiset(typeCapacities);
    }
    typeCapacities := sorted;
    r := Recommend(Search(typeCapacities, placedBy, totalCartons));
  }

  /** The types sorted by capacity start with the largest. */
  lemma LargestFirst(sorted: seq<TypeCapacity>)
    requires |sorted| > 0 && SortedBy(sorted, NegCapacity)
    ensures forall c :: c in sorted ==> c.capacity <= sorted[0].capacity
  {
    forall c | c in sorted
      ensures c.capacity <= sorted[0].capacity
    {
      var i :| 0 <= i < |sorted| && sorted[i] == c;
      if i > 0 {
        assert NegCapacity(sorted[0]) <= NegCapacity(sorted[i]);
      }
    }
  }
}
