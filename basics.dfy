/** Small building blocks shared by the packing engine's components: an Option
    type, sums, ceiling division, the key-based de-duplication the engine uses
    with its `seen` sets, the stable sort that `Array.prototype.sort` performs,
    and the "first element of the sorted list" selection. */
module Basics {

  datatype Option<T> = None | Some(value: T)

  function Max(a: int, b: int): (r: int)
    ensures r >= a && r >= b && (r == a || r == b)
  {
    if a >= b then a else b
  }

  function Min(a: int, b: int): (r: int)
    ensures r <= a && r <= b && (r == a || r == b)
  {
    if a <= b then a else b
  }

  /** Sum of a sequence of naturals, peeled from the end so that appending
      one element is one unfolding. */
  function Sum(s: seq<nat>): nat
  {
    if s == [] then 0 else Sum(s[..|s| - 1]) + s[|s| - 1]
  }

  /** A sum of zeros is zero. */
  lemma {:induction false} ZeroSum(s: seq<nat>)
    requires forall k :: 0 <= k < |s| ==> s[k] == 0
    ensures Sum(s) == 0
  {
    if s != [] {
      ZeroSum(s[..|s| - 1]);
    }
  }

  /** Replacing one entry changes the sum by the difference. */
  lemma {:induction false} SumUpdate(s: seq<nat>, i: nat, v: nat)
    requires i < |s|
    ensures Sum(s[i := v]) + s[i] == Sum(s) + v
  {
    var t := s[i := v];
    if i == |s| - 1 {
      assert t[..|t| - 1] == s[..|s| - 1];
    } else {
      assert t[..|t| - 1] == s[..|s| - 1][i := v];
      SumUpdate(s[..|s| - 1], i, v);
    }
  }

  /** A sum of naturals bounds each of its terms. */
  lemma {:induction false} SumBoundsTerm(s: seq<nat>, i: nat)
    requires i < |s|
    ensures s[i] <= Sum(s)
  {
    if i < |s| - 1 {
      SumBoundsTerm(s[..|s| - 1], i);
    }
  }

  /** `Math.ceil(a / b)` on naturals. */
  function CeilDiv(a: nat, b: nat): (r: nat)
    requires b > 0
    ensures r * b >= a
    ensures r > 0 ==> (r - 1) * b < a
  {
    var q := (a + b - 1) / b;
    assert q * b <= a + b - 1 < (q + 1) * b;
    q
  }

  /** Floor division brackets its dividend. */
  lemma DivFloor(a: nat, b: nat)
    requires b > 0
    ensures (a / b) * b <= a < (a / b) * b + b
    ensures a / b == 0 <==> a < b
  {
  }

  lemma MulPositive(a: nat, b: nat)
    requires a > 0 && b > 0
    ensures a * b > 0
  {
  }

  /** The set of keys of the elements of `s`. */
  function KeySet<T(==), K(==)>(s: seq<T>, key: T -> K): set<K>
  {
    set x | x in s :: key(x)
  }

  lemma KeySetSnoc<T, K>(s: seq<T>, x: T, key: T -> K)
    ensures KeySet(s + [x], key) == KeySet(s, key) + {key(x)}
  {
    assert forall y :: y in s + [x] <==> y in s || y == x;
  }

  /** The filter-with-a-`seen`-set idiom: scans `s` left to right, keeping
      an element only when its key is not yet in `seen`, and returns the kept
      elements together with the final `seen` set. */
  function DedupSeen<T, K(==)>(s: seq<T>, key: T -> K): (seq<T>, set<K>)
  {
    if s == [] then ([], {})
    else
      var (d, seen) := DedupSeen(s[..|s| - 1], key);
      var last := s[|s| - 1];
      if key(last) in seen then (d, seen) else (d + [last], seen + {key(last)})
  }

  /** The elements kept by the `seen`-set filter. */
  function DedupBy<T, K(==)>(s: seq<T>, key: T -> K): seq<T>
  {
    DedupSeen(s, key).0
  }

  /** The `seen`-set filter keeps only elements of `s`, exactly one element
      per key of `s`, and its `seen` set is the set of those keys. */
  lemma {:induction false} DedupByProperties<T, K>(s: seq<T>, key: T -> K)
    ensures DedupSeen(s, key).1 == KeySet(DedupBy(s, key), key) == KeySet(s, key)
    ensures forall x :: x in DedupBy(s, key) ==> x in s
    ensures forall i, j :: 0 <= i < j < |DedupBy(s, key)| ==>
      key(DedupBy(s, key)[i]) != key(DedupBy(s, key)[j])
  {
    if s != [] {
      var init := s[..|s| - 1];
      var last := s[|s| - 1];
      assert s == init + [last];
      DedupByProperties(init, key);
      KeySetSnoc(init, last, key);
      var d := DedupBy(init, key);
      KeySetSnoc(d, last, key);
      var r := DedupBy(s, key);
      if key(last) !in DedupSeen(init, key).1 {
        assert r == d + [last];
        forall i, j | 0 <= i < j < |r|
          ensures key(r[i]) != key(r[j])
        {
          if j == |r| - 1 {
            assert r[i] in d;
          } else {
            assert r[i] == d[i] && r[j] == d[j];
          }
        }
      }
    }
  }

  /** One more element seen by the filter. */
  lemma DedupSeenSnoc<T, K>(s: seq<T>, x: T, key: T -> K)
    ensures DedupSeen(s + [x], key) ==
      (if key(x) in DedupSeen(s, key).1 then DedupSeen(s, key)
       else (DedupSeen(s, key).0 + [x], DedupSeen(s, key).1 + {key(x)}))
  {
    assert (s + [x])[..|s + [x]| - 1] == s;
  }

  /** Taking the last element out of `s` and the same element out of a
      permutation `t` leaves permutations. */
  lemma MultisetRemoveLast<T>(s: seq<T>, t: seq<T>, m: nat)
    requires multiset(s) == multiset(t) && s != []
    requires m < |t| && t[m] == s[|s| - 1]
    ensures multiset(s[..|s| - 1]) == multiset(t[..m] + t[m + 1..])
  {
    var init, last, rest := s[..|s| - 1], s[|s| - 1], t[..m] + t[m + 1..];
    assert s == init + [last];
    assert t == t[..m] + [last] + t[m + 1..];
    assert multiset(t) == multiset(t[..m]) + multiset{last} + multiset(t[m + 1..]);
    assert multiset(rest) == multiset(t[..m]) + multiset(t[m + 1..]);
    forall y
      ensures multiset(rest)[y] == multiset(init)[y]
    {
      assert (multiset(init) + multiset{last})[y] == (multiset(rest) + multiset{last})[y];
    }
  }

  /** The sum of `f` over the elements of `s`, peeled from the end. */
  function SumBy<T>(s: seq<T>, f: T -> real): real
  {
    if s == [] then 0.0 else SumBy(s[..|s| - 1], f) + f(s[|s| - 1])
  }

  lemma {:induction false} SumByAppend<T>(s: seq<T>, t: seq<T>, f: T -> real)
    ensures SumBy(s + t, f) == SumBy(s, f) + SumBy(t, f)
    decreases |t|
  {
    if t == [] {
      assert s + t == s;
    } else {
      SumByAppend(s, t[..|t| - 1], f);
      assert (s + t)[..|s + t| - 1] == s + t[..|t| - 1];
    }
  }

  /** A sum does not depend on the order of its terms. */
  lemma {:induction false} SumByPermutation<T>(s: seq<T>, t: seq<T>, f: T -> real)
    requires multiset(s) == multiset(t)
    ensures SumBy(s, f) == SumBy(t, f)
    decreases |s|
  {
    if s != [] {
      var init, last := s[..|s| - 1], s[|s| - 1];
      assert last in multiset(t);
      var m :| 0 <= m < |t| && t[m] == last;
      var front, back := t[..m], t[m + 1..];
      MultisetRemoveLast(s, t, m);
      SumByPermutation(init, front + back, f);
      assert t == front + [last] + back;
      SumByAppend(front + [last], back, f);
      SumByAppend(front, [last], f);
      SumByAppend(front, back, f);
      assert [last][..0] == [];
    }
  }

  /** No two elements of `s` have the same key. */
  predicate DistinctBy<T, K(==)>(s: seq<T>, key: T -> K)
  {
    forall i, j :: 0 <= i < j < |s| ==> key(s[i]) != key(s[j])
  }

  /** Distinct keys mean no element occurs twice. */
  lemma {:induction false} DistinctByOnce<T, K>(s: seq<T>, key: T -> K)
    requires DistinctBy(s, key)
    ensures forall x :: multiset(s)[x] <= 1
  {
    if s != [] {
      var init, last := s[..|s| - 1], s[|s| - 1];
      assert s == init + [last];
      DistinctByOnce(init, key);
      if last in init {
        assert false;
      }
    }
  }

  /** An element at two positions occurs at least twice. */
  lemma OccursTwice<T>(t: seq<T>, i: nat, j: nat)
    requires i < j < |t| && t[i] == t[j]
    ensures multiset(t)[t[j]] >= 2
  {
    assert t == t[..j] + [t[j]] + t[j + 1..];
    assert t[i] in t[..j];
    assert multiset(t) == multiset(t[..j]) + multiset{t[j]} + multiset(t[j + 1..]);
  }

  /** Reordering keeps keys distinct. */
  lemma DistinctByPermutation<T, K>(s: seq<T>, t: seq<T>, key: T -> K)
    requires multiset(s) == multiset(t) && DistinctBy(s, key)
    ensures DistinctBy(t, key)
  {
    DistinctByOnce(s, key);
    forall i, j | 0 <= i < j < |t|
      ensures key(t[i]) != key(t[j])
    {
      if t[i] == t[j] {
        OccursTwice(t, i, j);
        assert false;
      } else {
        assert t[i] in multiset(s) && t[j] in multiset(s);
        var a :| 0 <= a < |s| && s[a] == t[i];
        var b :| 0 <= b < |s| && s[b] == t[j];
        assert a != b;
      }
    }
  }

  predicate SortedBy<T>(s: seq<T>, key: T -> real)
  {
    forall i, j :: 0 <= i < j < |s| ==> key(s[i]) <= key(s[j])
  }

  /** Inserts `x` after every element whose key is not larger: the step of
      a stable insertion sort that receives the elements in input order. */
  function InsertByKey<T>(x: T, s: seq<T>, key: T -> real): (r: seq<T>)
    ensures multiset(r) == multiset(s) + multiset{x}
  {
    if s == [] then [x]
    else if key(x) < key(s[0]) then [x] + s
    else
      assert s == [s[0]] + s[1..];
      [s[0]] + InsertByKey(x, s[1..], key)
  }

  /** A key bound that holds for `x` and all of `s` holds for the insertion. */
  lemma {:induction false} InsertLowerBound<T>(x: T, s: seq<T>, key: T -> real, b: real)
    requires b <= key(x) && forall i :: 0 <= i < |s| ==> b <= key(s[i])
    ensures forall i :: 0 <= i < |InsertByKey(x, s, key)| ==> b <= key(InsertByKey(x, s, key)[i])
  {
    if s != [] && key(x) >= key(s[0]) {
      InsertLowerBound(x, s[1..], key, b);
      var rest := InsertByKey(x, s[1..], key);
      assert InsertByKey(x, s, key) == [s[0]] + rest;
      forall i | 0 < i <= |rest|
        ensures b <= key(([s[0]] + rest)[i])
      {
        assert ([s[0]] + rest)[i] == rest[i - 1];
      }
    }
  }

  /** A first element whose key bounds a sorted rest from below. */
  lemma SortedCons<T>(h: T, rest: seq<T>, key: T -> real)
    requires SortedBy(rest, key) && forall i :: 0 <= i < |rest| ==> key(h) <= key(rest[i])
    ensures SortedBy([h] + rest, key)
  {
  }

  /** Insertion keeps a sorted sequence sorted. */
  lemma {:induction false} InsertByKeySorted<T>(x: T, s: seq<T>, key: T -> real)
    requires SortedBy(s, key)
    ensures SortedBy(InsertByKey(x, s, key), key)
  {
    if s != [] && key(x) >= key(s[0]) {
      assert SortedBy(s[1..], key);
      InsertByKeySorted(x, s[1..], key);
      InsertLowerBound(x, s[1..], key, key(s[0]));
      SortedCons(s[0], InsertByKey(x, s[1..], key), key);
    } else if s != [] {
      forall i | 0 < i < |s|
        ensures key(x) <= key(s[i])
      {
        assert key(s[0]) <= key(s[i]);
      }
      SortedCons(x, s, key);
    }
  }

  /** The ascending, stable sort by `key` that `Array.prototype.sort`
      performs with the comparator `(a, b) => key(a) - key(b)`. */
  function SortByKey<T>(s: seq<T>, key: T -> real): (r: seq<T>)
    ensures multiset(r) == multiset(s)
    ensures SortedBy(r, key)
  {
    if s == [] then []
    else
      assert s == s[..|s| - 1] + [s[|s| - 1]];
      var sorted := SortByKey(s[..|s| - 1], key);
      InsertByKeySorted(s[|s| - 1], sorted, key);
      InsertByKey(s[|s| - 1], sorted, key)
  }

  /** `before` is a strict weak order on the elements of `s`: asymmetric and
      negatively transitive, the condition under which a sort by a comparator
      is well defined. */
  ghost predicate StrictWeakOrderOn<T>(s: seq<T>, before: (T, T) -> bool)
  {
    (forall i, j :: 0 <= i < |s| && 0 <= j < |s| && before(s[i], s[j]) ==> !before(s[j], s[i])) &&
    (forall i, j, k :: 0 <= i < |s| && 0 <= j < |s| && 0 <= k < |s| && before(s[i], s[j]) ==>
       before(s[i], s[k]) || before(s[k], s[j]))
  }

  /** The index of `sort(s, cmp)[0]` for a stable sort, computed by a
      left-to-right scan in which a later element replaces the current best
      only when it strictly precedes it. For any relation, nothing after the
      chosen element precedes it; for a strict weak order the chosen element
      is the first minimal one, which is what a stable sort puts first. */
  method FirstMinimal<T>(s: seq<T>, before: (T, T) -> bool) returns (k: nat)
    requires |s| > 0
    ensures k < |s|
    ensures forall j :: k < j < |s| ==> !before(s[j], s[k])
    ensures StrictWeakOrderOn(s, before) ==> forall j :: 0 <= j < k ==> before(s[k], s[j])
    ensures StrictWeakOrderOn(s, before) ==> forall j :: 0 <= j < |s| ==> !before(s[j], s[k])
  {
    k := 0;
    var i := 1;
    while i < |s|
      invariant k < i <= |s|
      invariant forall j :: k < j < i ==> !before(s[j], s[k])
      invariant StrictWeakOrderOn(s, before) ==> forall j :: 0 <= j < k ==> before(s[k], s[j])
    {
      if before(s[i], s[k]) {
        if StrictWeakOrderOn(s, before) {
          forall j | 0 <= j < i
            ensures before(s[i], s[j])
          {
            if j < k {
              assert !before(s[j], s[k]);
            } else if j > k {
              assert !before(s[j], s[k]);
            }
          }
        }
        k := i;
      }
      i := i + 1;
    }
  }
}
