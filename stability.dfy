/** Support and stability: how much of each box's base rests on the tops of
    earlier boxes (`calculateSupport`), the issues and score derived from it
    (`analyzeStability`), and the recommendation texts. */
module Stability {
  import opened Basics
  import opened Grid

  /** A box with less support than this is an issue. */
  const StabilityThreshold: real := 0.7

  datatype Point = Point(x: real, y: real, z: real)

  /** A box that is not supported well enough, with its centre. */
  datatype Issue = Issue(position: Point, support: real, recommendation: string)

  /** The result of the stability analysis. `Analysed` is what
      `analyzeStability` returns (and what the engine reports when it skips
      the analysis); `ScoreOnly` is the bare record of a degenerate
      container. */
  datatype StabilityReport =
    | Analysed(score: real, issues: seq<Issue>, isStable: bool, recommendation: string)
    | ScoreOnly(score: real, issues: seq<Issue>)

  /** The area shared by the footprints of `box` and `below`: the overlap
      along the length times the overlap along the width, or 0 when either is
      not positive. */
  function OverlapArea(box: Placement, below: Placement): (a: nat)
    ensures a > 0 <==> AreaOverlap(box, below)
    ensures a <= box.l * box.w && a <= below.l * below.w
  {
    var overlapL := Min(box.localL + box.l, below.localL + below.l) - Max(box.localL, below.localL);
    var overlapW := Min(box.localW + box.w, below.localW + below.w) - Max(box.localW, below.localW);
    if overlapL > 0 && overlapW > 0 then
      assert overlapL <= box.l && overlapL <= below.l;
      assert overlapW <= box.w && overlapW <= below.w;
      MulMono(overlapL, box.l, overlapW, box.w);
      MulMono(overlapL, below.l, overlapW, below.w);
      overlapL * overlapW
    else 0
  }

  /** Two footprints of positive area overlap with positive area. */
  predicate AreaOverlap(box: Placement, below: Placement)
  {
    box.l > 0 && box.w > 0 && below.l > 0 && below.w > 0 && FootprintsOverlap(box, below)
  }

  lemma MulMono(a: nat, b: nat, c: nat, d: nat)
    requires a <= b && c <= d
    ensures a * c <= b * d
  {
    assert a * c <= b * c;
  }

  /** The part of `box`'s base that `below` carries: its overlap when the top
      of `below` is at the floor of `box`. Heights are whole millimetres, so
      the engine's 0.001 tolerance on that comparison is equality. */
  function Carried(below: Placement, box: Placement): nat
  {
    if Top(below) == box.localH then OverlapArea(box, below) else 0
  }

  /** The supported area of `box` summed over the boxes `below`. */
  function SupportArea(below: seq<Placement>, box: Placement): nat
  {
    if below == [] then 0
    else SupportArea(below[..|below| - 1], box) + Carried(below[|below| - 1], box)
  }

  /** The support of `box` given the boxes scanned before it: 1 on the
      floor, otherwise the supported fraction of its base (0 for a flat
      base). */
  function BoxSupport(below: seq<Placement>, box: Placement): (s: real)
    ensures s >= 0.0
    ensures box.localH == 0 ==> s == 1.0
  {
    if box.localH == 0 then 1.0
    else if box.l * box.w > 0 then SupportArea(below, box) as real / (box.l * box.w) as real
    else 0.0
  }

  // ---------------------------------------------------------------------
  // Support never exceeds one
  // ---------------------------------------------------------------------

  /** The unit squares of the rectangle [x0, x1) x [y0, y1), in millimetres. */
  function Squares(x0: int, x1: int, y0: int, y1: int): set<(int, int)>
  {
    set x: int, y: int | x0 <= x < x1 && y0 <= y < y1 :: (x, y)
  }

  /** The unit squares under a box. */
  function Footprint(p: Placement): set<(int, int)>
  {
    Squares(p.localL, p.localL + p.l, p.localW, p.localW + p.w)
  }

  /** A strip one millimetre wide holds as many squares as it is long. */
  lemma {:induction false} StripCount(x: int, y0: int, y1: int)
    requires y0 <= y1
    ensures |Squares(x, x + 1, y0, y1)| == y1 - y0
    decreases y1 - y0
  {
    if y0 == y1 {
      assert Squares(x, x + 1, y0, y1) == {};
    } else {
      StripCount(x, y0, y1 - 1);
      assert Squares(x, x + 1, y0, y1) == Squares(x, x + 1, y0, y1 - 1) + {(x, y1 - 1)};
    }
  }

  /** A rectangle holds as many squares as its area. */
  lemma {:induction false} SquaresCount(x0: int, x1: int, y0: int, y1: int)
    requires x0 <= x1 && y0 <= y1
    ensures |Squares(x0, x1, y0, y1)| == (x1 - x0) * (y1 - y0)
    decreases x1 - x0
  {
    if x0 == x1 {
      assert Squares(x0, x1, y0, y1) == {};
    } else {
      var rest, strip := Squares(x0, x1 - 1, y0, y1), Squares(x1 - 1, x1, y0, y1);
      SquaresCount(x0, x1 - 1, y0, y1);
      StripCount(x1 - 1, y0, y1);
      assert Squares(x0, x1, y0, y1) == rest + strip;
      assert rest * strip == {};
      assert (x1 - x0) * (y1 - y0) == (x1 - 1 - x0) * (y1 - y0) + (y1 - y0);
    }
  }

  /** The squares two footprints share are as many as their overlap area. */
  lemma SharedSquares(box: Placement, below: Placement)
    ensures |Footprint(box) * Footprint(below)| == OverlapArea(box, below)
  {
    var x0, x1 := Max(box.localL, below.localL), Min(box.localL + box.l, below.localL + below.l);
    var y0, y1 := Max(box.localW, below.localW), Min(box.localW + box.w, below.localW + below.w);
    assert Footprint(box) * Footprint(below) == Squares(x0, x1, y0, y1);
    if x1 - x0 > 0 && y1 - y0 > 0 {
      SquaresCount(x0, x1, y0, y1);
    } else {
      assert Squares(x0, x1, y0, y1) == {};
    }
  }

  /** Footprints that do not overlap share no square. */
  lemma ApartShareNothing(p: Placement, q: Placement)
    requires !FootprintsOverlap(p, q)
    ensures Footprint(p) * Footprint(q) == {}
  {
  }

  /** The squares of `box`'s base carried by the boxes `below`. */
  function CarriedSquares(below: seq<Placement>, box: Placement): set<(int, int)>
  {
    if below == [] then {}
    else
      var last := below[|below| - 1];
      CarriedSquares(below[..|below| - 1], box) +
      (if Top(last) == box.localH then Footprint(box) * Footprint(last) else {})
  }

  /** No two of the boxes overlap, and every one has height. */
  ghost predicate Separate(ps: seq<Placement>)
  {
    (forall q :: q in ps ==> q.h > 0) &&
    forall m, n :: 0 <= m < n < |ps| ==> !BoxesOverlap(ps[m], ps[n])
  }

  /** Every carried square lies under `box` and on some box below whose top
      is level with its floor. */
  lemma {:induction false} CarriedSquaresFrom(below: seq<Placement>, box: Placement)
    ensures CarriedSquares(below, box) <= Footprint(box)
    ensures forall z :: z in CarriedSquares(below, box) ==>
      exists m :: 0 <= m < |below| && Top(below[m]) == box.localH && z in Footprint(below[m])
  {
    if below != [] {
      var init, last := below[..|below| - 1], below[|below| - 1];
      CarriedSquaresFrom(init, box);
      forall z | z in CarriedSquares(below, box)
        ensures exists m :: 0 <= m < |below| && Top(below[m]) == box.localH && z in Footprint(below[m])
      {
        if z in CarriedSquares(init, box) {
          var m :| 0 <= m < |init| && Top(init[m]) == box.localH && z in Footprint(init[m]);
          assert below[m] == init[m];
        } else {
          assert Top(below[|below| - 1]) == box.localH && z in Footprint(below[|below| - 1]);
        }
      }
    }
  }

  /** Two boxes with height whose tops are level and whose footprints overlap
      overlap in volume; so among separate boxes, the last box level with
      `box`'s floor shares no square with what the earlier ones carry. */
  lemma LastCarrierApart(below: seq<Placement>, box: Placement)
    requires Separate(below) && below != []
    requires Top(below[|below| - 1]) == box.localH
    ensures CarriedSquares(below[..|below| - 1], box) * Footprint(below[|below| - 1]) == {}
  {
    var init, last := below[..|below| - 1], below[|below| - 1];
    CarriedSquaresFrom(init, box);
    forall z | z in CarriedSquares(init, box)
      ensures z !in Footprint(last)
    {
      var m :| 0 <= m < |init| && Top(init[m]) == box.localH && z in Footprint(init[m]);
      assert below[m] == init[m] && init[m] in below;
      assert !BoxesOverlap(below[m], last);
      ApartShareNothing(init[m], last);
    }
  }

  /** Among separate boxes, the supported area counts each carried square
      once. */
  lemma {:induction false} CarriedSquaresCount(below: seq<Placement>, box: Placement)
    requires Separate(below)
    ensures |CarriedSquares(below, box)| == SupportArea(below, box)
  {
    if below != [] {
      var init, last := below[..|below| - 1], below[|below| - 1];
      assert Separate(init) by {
        forall q | q in init ensures q in below {}
      }
      CarriedSquaresCount(init, box);
      if Top(last) == box.localH {
        LastCarrierApart(below, box);
        SharedSquares(box, last);
        assert CarriedSquares(init, box) * (Footprint(box) * Footprint(last)) == {};
      }
    }
  }

  /** Among separate boxes the supported area never exceeds the base. */
  lemma SupportAreaAtMostBase(below: seq<Placement>, box: Placement)
    requires Separate(below)
    ensures SupportArea(below, box) <= box.l * box.w
  {
    CarriedSquaresCount(below, box);
    CarriedSquaresFrom(below, box);
    FootprintCount(box);
    SubsetCount(CarriedSquares(below, box), Footprint(box));
  }

  /** A box's footprint holds as many squares as its base area. */
  lemma FootprintCount(p: Placement)
    ensures |Footprint(p)| == p.l * p.w
  {
    SquaresCount(p.localL, p.localL + p.l, p.localW, p.localW + p.w);
  }

  lemma SubsetCount<T>(a: set<T>, b: set<T>)
    requires a <= b
    ensures |a| <= |b|
  {
    assert b == a + (b - a);
    assert a * (b - a) == {};
  }

  /** Among separate boxes a support is a fraction: never above 1. */
  lemma SupportAtMostOne(below: seq<Placement>, box: Placement)
    requires Separate(below)
    ensures 0.0 <= BoxSupport(below, box) <= 1.0
  {
    if box.localH != 0 && box.l * box.w > 0 {
      SupportAreaAtMostBase(below, box);
      FractionAtMostOne(SupportArea(below, box) as real, (box.l * box.w) as real);
    }
  }

  lemma FractionAtMostOne(a: real, b: real)
    requires 0.0 <= a <= b && b > 0.0
    ensures a / b <= 1.0
  {
    var r := a / b;
    assert r * b == a;
  }

  /** The supported area is positive exactly when some box below has its top
      at this box's floor and a footprint that overlaps this box's. */
  lemma {:induction false} SupportAreaPositive(below: seq<Placement>, box: Placement)
    ensures SupportArea(below, box) > 0 <==>
      exists q :: q in below && Top(q) == box.localH && AreaOverlap(box, q)
  {
    if below != [] {
      var init := below[..|below| - 1];
      var last := below[|below| - 1];
      SupportAreaPositive(init, box);
      assert below == init + [last];
      if SupportArea(below, box) > 0 {
        if SupportArea(init, box) == 0 {
          assert Carried(last, box) > 0;
          assert last in below && Top(last) == box.localH && AreaOverlap(box, last);
        } else {
          var q :| q in init && Top(q) == box.localH && AreaOverlap(box, q);
          assert q in below;
        }
      } else {
        forall q | q in below
          ensures !(Top(q) == box.localH && AreaOverlap(box, q))
        {
          if q in init {
          } else {
            assert q == last && Carried(last, box) == 0;
          }
        }
      }
    }
  }

  /** A box is supported (positive support) exactly when it stands on the
      floor or rests on an overlapping box below it. */
  lemma SupportedIffResting(below: seq<Placement>, box: Placement)
    ensures BoxSupport(below, box) > 0.0 <==>
      box.localH == 0 || exists q :: q in below && Top(q) == box.localH && AreaOverlap(box, q)
  {
    SupportAreaPositive(below, box);
    if box.localH != 0 && box.l * box.w > 0 {
      if SupportArea(below, box) > 0 {
        assert SupportArea(below, box) as real / (box.l * box.w) as real > 0.0;
      }
    }
    if box.l > 0 && box.w > 0 {
      MulPositive(box.l, box.w);
    }
  }

  lemma {:induction false} SupportAreaAppend(s: seq<Placement>, t: seq<Placement>, box: Placement)
    ensures SupportArea(s + t, box) == SupportArea(s, box) + SupportArea(t, box)
  {
    if t != [] {
      var init := t[..|t| - 1];
      var last := t[|t| - 1];
      SupportAreaAppend(s, init, box);
      assert (s + t)[..|s + t| - 1] == s + init;
      assert (s + t)[|s + t| - 1] == last;
      assert SupportArea(s + t, box) == SupportArea(s + init, box) + Carried(last, box);
    } else {
      assert s + t == s;
    }
  }

  /** The supported area does not depend on the order of the boxes below. */
  lemma {:induction false} SupportAreaPermutation(s: seq<Placement>, t: seq<Placement>, box: Placement)
    requires multiset(s) == multiset(t)
    ensures SupportArea(s, box) == SupportArea(t, box)
  {
    if s != [] {
      var init := s[..|s| - 1];
      var last := s[|s| - 1];
      assert s == init + [last];
      assert last in multiset(t);
      var m :| 0 <= m < |t| && t[m] == last;
      var rest := t[..m] + t[m + 1..];
      MultisetRemoveLast(s, t, m);
      SupportAreaPermutation(init, rest, box);
      SupportAreaRemove(t, m, box);
    }
  }

  /** Taking one box out removes exactly what it carries. */
  lemma SupportAreaRemove(t: seq<Placement>, m: nat, box: Placement)
    requires m < |t|
    ensures SupportArea(t, box) == SupportArea(t[..m] + t[m + 1..], box) + Carried(t[m], box)
  {
    assert t == t[..m] + [t[m]] + t[m + 1..];
    SupportAreaAppend(t[..m] + [t[m]], t[m + 1..], box);
    SupportAreaAppend(t[..m], [t[m]], box);
    SupportAreaAppend(t[..m], t[m + 1..], box);
    assert SupportArea([t[m]], box) == Carried(t[m], box) by {
      assert [t[m]][..0] == [];
    }
  }

  /** Boxes whose tops are all above a box's floor carry none of it. */
  lemma {:induction false} SupportAreaAbove(t: seq<Placement>, box: Placement)
    requires forall q :: q in t ==> Top(q) > box.localH
    ensures SupportArea(t, box) == 0
  {
    if t != [] {
      SupportAreaAbove(t[..|t| - 1], box);
    }
  }

  /** The sort key applied before the support pass: the floor height. */
  function FloorKey(p: Placement): real
  {
    p.localH as real
  }

  /** Once the boxes are sorted by floor height and have positive heights,
      scanning only the boxes before a box finds every box that can carry it:
      its support over the earlier boxes is its support over all of them, in
      whatever order they were placed. */
  lemma SortedScanSeesAll(all: seq<Placement>, sorted: seq<Placement>, i: nat)
    requires multiset(sorted) == multiset(all) && SortedBy(sorted, FloorKey)
    requires forall p :: p in all ==> p.h > 0
    requires i < |sorted|
    ensures BoxSupport(sorted[..i], sorted[i]) == BoxSupport(all, sorted[i])
  {
    var box := sorted[i];
    assert sorted == sorted[..i] + sorted[i..];
    LaterAbove(all, sorted, i);
    SupportAreaAbove(sorted[i..], box);
    SupportAreaAppend(sorted[..i], sorted[i..], box);
    SupportAreaPermutation(sorted, all, box);
  }

  /** In a sorted list of boxes of positive height, every box from `i` on
      has its top above the floor of box `i`. */
  lemma LaterAbove(all: seq<Placement>, sorted: seq<Placement>, i: nat)
    requires multiset(sorted) == multiset(all) && SortedBy(sorted, FloorKey)
    requires forall p :: p in all ==> p.h > 0
    requires i < |sorted|
    ensures forall q :: q in sorted[i..] ==> Top(q) > sorted[i].localH
  {
    forall q | q in sorted[i..]
      ensures Top(q) > sorted[i].localH
    {
      var n :| 0 <= n < |sorted[i..]| && sorted[i..][n] == q;
      assert sorted[i + n] == q;
      assert FloorKey(sorted[i]) <= FloorKey(sorted[i + n]) || n == 0;
      assert q in multiset(all);
    }
  }

  /** The support values the boxes carry play no part in the supported
      area. */
  lemma {:induction false} SupportAreaIgnoresSupport(s: seq<Placement>, t: seq<Placement>, box: Placement)
    requires |s| == |t| && forall k :: 0 <= k < |s| ==> s[k] == t[k].(support := s[k].support)
    ensures SupportArea(s, box) == SupportArea(t, box)
  {
    if s != [] {
      SupportAreaIgnoresSupport(s[..|s| - 1], t[..|t| - 1], box);
    }
  }

  /** The inner loop of `calculateSupport`: the area of `box` that the
      first `i` boxes carry. */
  method SupportAreaOf(a: array<Placement>, i: nat, box: Placement) returns (supportArea: nat)
    requires i <= a.Length
    ensures supportArea == SupportArea(a[..i], box)
  {
    supportArea := 0;
    for j := 0 to i
      invariant supportArea == SupportArea(a[..j], box)
    {
      var below := a[j];
      if below.localH + below.h == box.localH {
        var overlapL := Min(box.localL + box.l, below.localL + below.l) - Max(box.localL, below.localL);
        var overlapW := Min(box.localW + box.w, below.localW + below.w) - Max(box.localW, below.localW);
        if overlapL > 0 && overlapW > 0 {
          supportArea := supportArea + overlapL * overlapW;
        }
      }
      assert a[..j + 1][..j] == a[..j];
    }
  }

  /** `calculateSupport`: walks the boxes in order and writes each one's
      support, computed over the boxes before it, into the box. */
  method CalculateSupport(a: array<Placement>)
    modifies a
    ensures forall i :: 0 <= i < a.Length ==>
      a[i] == old(a[i]).(support := BoxSupport(old(a[..i]), old(a[i])))
  {
    ghost var orig := a[..];
    for i := 0 to a.Length
      invariant forall k :: 0 <= k < i ==> a[k] == orig[k].(support := BoxSupport(orig[..k], orig[k]))
      invariant forall k :: i <= k < a.Length ==> a[k] == orig[k]
    {
      var box := a[i];
      if box.localH == 0 {
        a[i] := box.(support := 1.0);
      } else {
        var boxArea := box.l * box.w;
        var supportArea := SupportAreaOf(a, i, box);
        SupportAreaIgnoresSupport(a[..i], orig[..i], box);
        a[i] := box.(support := if boxArea > 0 then supportArea as real / boxArea as real else 0.0);
      }
    }
  }

  /** The four bands of `getStabilityRecommendation`. */
  datatype SupportBand = CriticalSupport | WarningSupport | CautionSupport | AcceptableSupport

  function SupportBandOf(support: real): SupportBand
  {
    if support < 0.3 then CriticalSupport
    else if support < 0.5 then WarningSupport
    else if support < 0.7 then CautionSupport
    else AcceptableSupport
  }

  const CriticalSupportText := "Critical: Less than 30% support. High risk of falling."
  const WarningSupportText := "Warning: Less than 50% support. May shift during transport."
  const CautionSupportText := "Caution: Marginal support. Consider repositioning."
  const AcceptableSupportText := "Acceptable support level."

  function SupportMessage(b: SupportBand): string
  {
    match b
    case CriticalSupport => CriticalSupportText
    case WarningSupport => WarningSupportText
    case CautionSupport => CautionSupportText
    case AcceptableSupport => AcceptableSupportText
  }

  lemma SupportTextsDistinct()
    ensures CriticalSupportText != WarningSupportText && CriticalSupportText != CautionSupportText
    ensures CriticalSupportText != AcceptableSupportText && WarningSupportText != CautionSupportText
    ensures WarningSupportText != AcceptableSupportText && CautionSupportText != AcceptableSupportText
  {
  }

  /** `getStabilityRecommendation`. */
  function StabilityRecommendation(support: real): string
  {
    SupportMessage(SupportBandOf(support))
  }

  /** Rank of a band, worst first. */
  function SupportRank(b: SupportBand): nat
  {
    match b
    case CriticalSupport => 0
    case WarningSupport => 1
    case CautionSupport => 2
    case AcceptableSupport => 3
  }

  /** More support never gets a worse recommendation, each band has its own
      text, and the text is "acceptable" exactly when the support is not an
      issue. */
  lemma StabilityRecommendationBands(s1: real, s2: real)
    ensures s1 <= s2 ==> SupportRank(SupportBandOf(s1)) <= SupportRank(SupportBandOf(s2))
    ensures StabilityRecommendation(s1) == StabilityRecommendation(s2) <==> SupportBandOf(s1) == SupportBandOf(s2)
    ensures StabilityRecommendation(s1) == SupportMessage(AcceptableSupport) <==> s1 >= StabilityThreshold
  {
    SupportMessageInjective(SupportBandOf(s1), SupportBandOf(s2));
    SupportMessageInjective(SupportBandOf(s1), AcceptableSupport);
  }

  /** Different bands have different texts. */
  lemma SupportMessageInjective(b1: SupportBand, b2: SupportBand)
    ensures SupportMessage(b1) == SupportMessage(b2) ==> b1 == b2
  {
    SupportTextsDistinct();
  }

  /** The five bands of `getOverallRecommendation`. */
  datatype OverallBand = Excellent | Good | Fair | Poor | Critical

  function OverallBandOf(score: real, issueCount: nat): OverallBand
  {
    if score > 0.9 && issueCount == 0 then Excellent
    else if score > 0.8 && issueCount <= 2 then Good
    else if score > 0.7 then Fair
    else if score > 0.5 then Poor
    else Critical
  }

  const ExcellentText := "Excellent stability. Load is well-balanced and secure."
  const GoodText := "Good stability with minor issues. Check highlighted items."
  const FairText := "Acceptable stability. Some adjustments recommended."
  const PoorText := "Poor stability. Significant adjustments needed."
  const CriticalText := "Critical stability issues. Complete reorganization recommended."

  function OverallMessage(b: OverallBand): string
  {
    match b
    case Excellent => ExcellentText
    case Good => GoodText
    case Fair => FairText
    case Poor => PoorText
    case Critical => CriticalText
  }

  lemma OverallTextsDistinct()
    ensures ExcellentText != GoodText && ExcellentText != FairText && ExcellentText != PoorText
    ensures ExcellentText != CriticalText && GoodText != FairText && GoodText != PoorText
    ensures GoodText != CriticalText && FairText != PoorText && FairText != CriticalText
    ensures PoorText != CriticalText
  {
  }

  /** `getOverallRecommendation`. */
  function OverallRecommendation(score: real, issueCount: nat): string
  {
    OverallMessage(OverallBandOf(score, issueCount))
  }

  function OverallRank(b: OverallBand): nat
  {
    match b
    case Critical => 0
    case Poor => 1
    case Fair => 2
    case Good => 3
    case Excellent => 4
  }

  /** A higher score with no more issues never gets a worse verdict, and each
      verdict has its own text. */
  lemma OverallRecommendationBands(s1: real, n1: nat, s2: real, n2: nat)
    ensures s1 <= s2 && n2 <= n1 ==> OverallRank(OverallBandOf(s1, n1)) <= OverallRank(OverallBandOf(s2, n2))
    ensures OverallRecommendation(s1, n1) == OverallRecommendation(s2, n2) <==>
      OverallBandOf(s1, n1) == OverallBandOf(s2, n2)
  {
    OverallMessageInjective(OverallBandOf(s1, n1), OverallBandOf(s2, n2));
  }

  /** Different verdicts have different texts. */
  lemma OverallMessageInjective(b1: OverallBand, b2: OverallBand)
    ensures OverallMessage(b1) == OverallMessage(b2) ==> b1 == b2
  {
    OverallTextsDistinct();
  }

  /** The centre of a placement in the viewer's coordinates. */
  function Centre(p: Placement): Point
  {
    Point(p.x, p.y, p.z)
  }

  /** The issues `analyzeStability` collects, in order. */
  function IssuesOf(ps: seq<Placement>): seq<Issue>
  {
    if ps == [] then []
    else
      var p := ps[|ps| - 1];
      if p.support < StabilityThreshold
      then IssuesOf(ps[..|ps| - 1]) + [Issue(Centre(p), p.support, StabilityRecommendation(p.support))]
      else IssuesOf(ps[..|ps| - 1])
  }

  function TotalSupport(ps: seq<Placement>): real
  {
    if ps == [] then 0.0 else TotalSupport(ps[..|ps| - 1]) + ps[|ps| - 1].support
  }

  /** The score: the mean support, 1 for no boxes. */
  function MeanSupport(ps: seq<Placement>): real
  {
    if |ps| > 0 then TotalSupport(ps) / |ps| as real else 1.0
  }

  /** Exactly the boxes below the threshold are issues, each carrying its
      centre, support and band text; so there are no issues exactly when
      every box is supported enough. */
  lemma {:induction false} IssuesOfSpec(ps: seq<Placement>)
    ensures |IssuesOf(ps)| <= |ps|
    ensures forall e :: e in IssuesOf(ps) ==>
      e.support < StabilityThreshold && e.recommendation == StabilityRecommendation(e.support) &&
      exists p :: p in ps && e.position == Centre(p) && e.support == p.support
    ensures forall k :: 0 <= k < |ps| && ps[k].support < StabilityThreshold ==>
      Issue(Centre(ps[k]), ps[k].support, StabilityRecommendation(ps[k].support)) in IssuesOf(ps)
    ensures IssuesOf(ps) == [] <==> forall k :: 0 <= k < |ps| ==> ps[k].support >= StabilityThreshold
  {
    if ps != [] {
      var init := ps[..|ps| - 1];
      IssuesOfSpec(init);
      assert ps == init + [ps[|ps| - 1]];
      forall k | 0 <= k < |ps| && ps[k].support < StabilityThreshold
        ensures Issue(Centre(ps[k]), ps[k].support, StabilityRecommendation(ps[k].support)) in IssuesOf(ps)
      {
        if k < |ps| - 1 {
          assert ps[k] == init[k];
        }
      }
      forall e | e in IssuesOf(ps)
        ensures exists p :: p in ps && e.position == Centre(p) && e.support == p.support
      {
        if e in IssuesOf(init) {
          var p :| p in init && e.position == Centre(p) && e.support == p.support;
          assert p in ps;
        } else {
          assert ps[|ps| - 1] in ps;
        }
      }
    }
  }

  /** Bounds on every support bound the mean. */
  lemma {:induction false} TotalSupportBounds(ps: seq<Placement>, lo: real, hi: real)
    requires forall k :: 0 <= k < |ps| ==> lo <= ps[k].support <= hi
    ensures |ps| as real * lo <= TotalSupport(ps) <= |ps| as real * hi
  {
    if ps != [] {
      TotalSupportBounds(ps[..|ps| - 1], lo, hi);
    }
  }

  lemma MeanSupportBounds(ps: seq<Placement>, lo: real, hi: real)
    requires ps != []
    requires forall k :: 0 <= k < |ps| ==> lo <= ps[k].support <= hi
    ensures lo <= MeanSupport(ps) <= hi
  {
    TotalSupportBounds(ps, lo, hi);
    var n := |ps| as real;
    assert lo * n <= TotalSupport(ps) <= hi * n;
  }

  /** `analyzeStability`: one pass over the boxes counting them, summing
      their support and collecting the issues. */
  method AnalyzeStability(ps: seq<Placement>) returns (r: StabilityReport)
    ensures r.Analysed?
    ensures r.issues == IssuesOf(ps) && r.score == MeanSupport(ps)
    ensures r.isStable <==> forall k :: 0 <= k < |ps| ==> ps[k].support >= StabilityThreshold
    ensures r.recommendation == OverallRecommendation(r.score, |r.issues|)
  {
    var issues := [];
    var totalScore := 0.0;
    var count := 0;
    for n := 0 to |ps|
      invariant count == n
      invariant issues == IssuesOf(ps[..n]) && totalScore == TotalSupport(ps[..n])
    {
      var placement := ps[n];
      count := count + 1;
      var support := placement.support;
      totalScore := totalScore + support;
      if support < StabilityThreshold {
        issues := issues + [Issue(Centre(placement), support, StabilityRecommendation(support))];
      }
      assert ps[..n + 1][..n] == ps[..n];
    }
    assert ps[..|ps|] == ps;
    IssuesOfSpec(ps);
    var averageScore := if count > 0 then totalScore / count as real else 1.0;
    r := Analysed(averageScore, issues, |issues| == 0, OverallRecommendation(averageScore, |issues|));
  }

  /** A stable load has a mean support of at least the threshold, and a load
      whose supports all lie in [0, 1] has a score in [0, 1]. */
  lemma StableScore(ps: seq<Placement>)
    ensures (forall k :: 0 <= k < |ps| ==> ps[k].support >= StabilityThreshold) ==>
      MeanSupport(ps) >= StabilityThreshold
    ensures (forall k :: 0 <= k < |ps| ==> 0.0 <= ps[k].support <= 1.0) ==>
      0.0 <= MeanSupport(ps) <= 1.0
  {
    if ps != [] {
      if forall k :: 0 <= k < |ps| ==> ps[k].support >= StabilityThreshold {
        MaxSupportBound(ps);
        MeanSupportBounds(ps, StabilityThreshold, MaxSupport(ps));
      }
      if forall k :: 0 <= k < |ps| ==> 0.0 <= ps[k].support <= 1.0 {
        MeanSupportBounds(ps, 0.0, 1.0);
      }
    }
  }

  /** The largest support among `ps`. */
  function MaxSupport(ps: seq<Placement>): real
    requires ps != []
  {
    if |ps| == 1 then ps[0].support
    else if ps[|ps| - 1].support >= MaxSupport(ps[..|ps| - 1]) then ps[|ps| - 1].support
    else MaxSupport(ps[..|ps| - 1])
  }

  lemma {:induction false} MaxSupportBound(ps: seq<Placement>)
    requires ps != []
    ensures forall k :: 0 <= k < |ps| ==> ps[k].support <= MaxSupport(ps)
  {
    if |ps| > 1 {
      MaxSupportBound(ps[..|ps| - 1]);
    }
  }

  /** `isWeightBalanced`: the centre of mass lies within 15% of the
      container's floor diagonal from the point on the axis at a quarter of
      the height. Both sides of the comparison are square roots of
      non-negative numbers, so it is compared squared. */
  function IsWeightBalanced(centre: Point, L: real, W: real, H: real): (b: bool)
    ensures centre == Point(0.0, H * 0.25, 0.0) ==> b
  {
    var dy := centre.y - H * 0.25;
    centre.x * centre.x + dy * dy + centre.z * centre.z <= (L * L + W * W) * (0.15 * 0.15)
  }

  /** The squared comparison agrees with the engine's comparison of the two
      square roots: `deviation` is the distance from the ideal point and
      `maxDeviation` 15% of the floor diagonal. */
  lemma WeightBalancedBySqrt(centre: Point, L: real, W: real, H: real, deviation: real, maxDeviation: real)
    requires deviation >= 0.0 && maxDeviation >= 0.0
    requires deviation * deviation ==
      centre.x * centre.x + (centre.y - H * 0.25) * (centre.y - H * 0.25) + centre.z * centre.z
    requires maxDeviation * maxDeviation == (L * L + W * W) * (0.15 * 0.15)
    ensures IsWeightBalanced(centre, L, W, H) <==> deviation <= maxDeviation
  {
    if deviation <= maxDeviation {
      SquareMono(deviation, maxDeviation);
    } else {
      SquareMono(maxDeviation, deviation);
    }
  }

  lemma SquareMono(a: real, b: real)
    requires 0.0 <= a <= b
    ensures a * a <= b * b
    ensures a < b ==> a * a < b * b
  {
    assert a * a <= a * b;
    assert a * b <= b * b;
    if a < b {
      calc {
        a * a;
      <= a * b;
      <  { assert (b - a) * b > 0.0; } b * b;
      }
    }
  }
}
