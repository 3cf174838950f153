/** The orientation generator: the axis-aligned rotations a box may take,
    each tagged with a stability score. */
module Orientations {

  /** The six rotations, named as the engine labels them. */
  datatype Label = Upright | UprightRotated | LaidSideL | LaidSideW | LaidHL | LaidHW

  /** An assignment of the box's edges to the container's length, width and
      height axes. */
  datatype Orientation = Orientation(l: nat, w: nat, h: nat, name: Label, stabilityScore: real)

  /** How many of the three edges a, b, c equal x. */
  function Occurrences(x: nat, a: nat, b: nat, c: nat): nat
  {
    (if a == x then 1 else 0) + (if b == x then 1 else 0) + (if c == x then 1 else 0)
  }

  /** (a, b, c) holds the edges (l, w, h) in some order: every length occurs
      equally often in both. */
  ghost predicate SameEdges(a: nat, b: nat, c: nat, l: nat, w: nat, h: nat)
  {
    forall x :: Occurrences(x, a, b, c) == Occurrences(x, l, w, h)
  }

  /** The edges of `o` are those of the box (l, w, h), in some order. */
  ghost predicate Rearranges(o: Orientation, l: nat, w: nat, h: nat)
  {
    SameEdges(o.l, o.w, o.h, l, w, h)
  }

  /** The two upright orientations (height kept, score 1.0), followed, when
      side-laying is allowed, by the four that rotate the height into the
      footprint plane. The score of a side-laid orientation comes from
      `sideStability` applied to its own (l, w, h); that score is a square-root
      formula and is a parameter here. */
  function OrientationsWithStability(l: nat, w: nat, h: nat, allowVerticalFlip: bool,
                                     sideStability: (nat, nat, nat) -> real): (r: seq<Orientation>)
    ensures |r| == if allowVerticalFlip then 6 else 2
    ensures forall i :: 0 <= i < |r| ==> Rearranges(r[i], l, w, h)
    ensures forall i :: 0 <= i < 2 ==>
      r[i].h == h && SameEdges(r[i].l, r[i].w, 0, l, w, 0) && r[i].stabilityScore == 1.0
    ensures forall i :: 2 <= i < |r| ==>
      (r[i].l == h || r[i].w == h) && r[i].stabilityScore == sideStability(r[i].l, r[i].w, r[i].h)
  {
    var upright := [Orientation(l, w, h, Upright, 1.0), Orientation(w, l, h, UprightRotated, 1.0)];
    if allowVerticalFlip then
      upright + [
        Orientation(w, h, l, LaidSideL, sideStability(w, h, l)),
        Orientation(l, h, w, LaidSideW, sideStability(l, h, w)),
        Orientation(h, l, w, LaidHL, sideStability(h, l, w)),
        Orientation(h, w, l, LaidHW, sideStability(h, w, l))
      ]
    else upright
  }

  /** With side-laying allowed, every rearrangement of the three edges is
      offered; without it, every one that keeps the height vertical. */
  lemma OrientationsComplete(l: nat, w: nat, h: nat, allowVerticalFlip: bool,
                             sideStability: (nat, nat, nat) -> real, a: nat, b: nat, c: nat)
    requires SameEdges(a, b, c, l, w, h)
    requires !allowVerticalFlip ==> c == h
    ensures exists i :: (0 <= i < |OrientationsWithStability(l, w, h, allowVerticalFlip, sideStability)| &&
      var o := OrientationsWithStability(l, w, h, allowVerticalFlip, sideStability)[i];
      o.l == a && o.w == b && o.h == c)
  {
    var r := OrientationsWithStability(l, w, h, allowVerticalFlip, sideStability);
    assert Occurrences(a, a, b, c) == Occurrences(a, l, w, h);
    assert Occurrences(b, a, b, c) == Occurrences(b, l, w, h);
    assert Occurrences(c, a, b, c) == Occurrences(c, l, w, h);
    assert Occurrences(l, a, b, c) == Occurrences(l, l, w, h);
    assert Occurrences(w, a, b, c) == Occurrences(w, l, w, h);
    assert Occurrences(h, a, b, c) == Occurrences(h, l, w, h);
    if a == l && b == w && c == h {
      assert r[0].l == a && r[0].w == b && r[0].h == c;
    } else if a == w && b == l && c == h {
      assert r[1].l == a && r[1].w == b && r[1].h == c;
    } else if a == w && b == h && c == l {
      assert r[2].l == a && r[2].w == b && r[2].h == c;
    } else if a == l && b == h && c == w {
      assert r[3].l == a && r[3].w == b && r[3].h == c;
    } else if a == h && b == l && c == w {
      assert r[4].l == a && r[4].w == b && r[4].h == c;
    } else {
      assert a == h && b == w && c == l;
      assert r[5].l == a && r[5].w == b && r[5].h == c;
    }
  }
}
