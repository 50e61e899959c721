/**
 * Python's stable `list.sort` / `sorted`, with the ordering given as a relation
 * `above(a, b)`: "a belongs strictly before b". Sorting by a key with
 * `reverse=True` is `above(a, b) == key(a) > key(b)`; an ascending sort is
 * `above(a, b) == key(a) < key(b)`. Elements the relation does not separate keep
 * their input order.
 */
module Sorting {
  import opened Seqs

  /** Places `x` just before the first element of `s` that it belongs strictly before. */
  function Insert<T>(x: T, s: seq<T>, above: (T, T) -> bool): (r: seq<T>)
    ensures |r| == |s| + 1
    decreases |s|
  {
    if s == [] then [x]
    else if above(x, s[0]) then [x] + s
    else [s[0]] + Insert(x, s[1..], above)
  }

  /** The stable sort: each element, left to right, goes after every earlier one it is not strictly before. */
  function SortBy<T>(s: seq<T>, above: (T, T) -> bool): (r: seq<T>)
    ensures |r| == |s|
    decreases |s|
  {
    if s == [] then [] else Insert(s[|s| - 1], SortBy(s[..|s| - 1], above), above)
  }

  ghost predicate Transitive<T(!new)>(above: (T, T) -> bool)
  {
    forall a, b, c :: above(a, b) && above(b, c) ==> above(a, c)
  }

  ghost predicate Irreflexive<T(!new)>(above: (T, T) -> bool)
  {
    forall a :: !above(a, a)
  }

  /** `above` is a strict weak order: what a sort key with `<` or `>` always induces. */
  ghost predicate StrictWeakOrder<T(!new)>(above: (T, T) -> bool)
  {
    Irreflexive(above) && Transitive(above) &&
    forall a, b, c :: above(a, c) ==> above(a, b) || above(b, c)
  }

  /** No element is strictly before an element that precedes it. */
  predicate Sorted<T>(s: seq<T>, above: (T, T) -> bool)
  {
    forall i, j :: 0 <= i < j < |s| ==> !above(s[j], s[i])
  }

  lemma {:induction false} InsertPermutes<T>(x: T, s: seq<T>, above: (T, T) -> bool)
    ensures multiset(Insert(x, s, above)) == multiset(s) + multiset{x}
    decreases |s|
  {
    if s != [] && !above(x, s[0]) {
      InsertPermutes(x, s[1..], above);
      assert s == [s[0]] + s[1..];
    }
  }

  /** Sorting only reorders: the result is a permutation of the input. */
  lemma {:induction false} SortPermutes<T>(s: seq<T>, above: (T, T) -> bool)
    ensures multiset(SortBy(s, above)) == multiset(s)
    decreases |s|
  {
    if s != [] {
      SortPermutes(s[..|s| - 1], above);
      InsertPermutes(s[|s| - 1], SortBy(s[..|s| - 1], above), above);
      assert s == s[..|s| - 1] + [s[|s| - 1]];
    }
  }

  lemma {:induction false} InsertSorted<T(!new)>(x: T, s: seq<T>, above: (T, T) -> bool)
    requires Irreflexive(above) && Transitive(above) && Sorted(s, above)
    ensures Sorted(Insert(x, s, above), above)
    decreases |s|
  {
    if s == [] {
    } else if above(x, s[0]) {
      var r := Insert(x, s, above);
      assert r == [x] + s;
      forall i, j | 0 <= i < j < |r| ensures !above(r[j], r[i]) {
        if i > 0 {
          assert r[j] == s[j - 1] && r[i] == s[i - 1];
        } else {
          assert r[j] == s[j - 1];
          assert !above(s[j - 1], s[0]);
        }
      }
    } else {
      InsertSorted(x, s[1..], above);
      var t := Insert(x, s[1..], above);
      var r := Insert(x, s, above);
      assert r == [s[0]] + t;
      InsertPermutes(x, s[1..], above);
      forall i, j | 0 <= i < j < |r| ensures !above(r[j], r[i]) {
        if i > 0 {
          assert r[j] == t[j - 1] && r[i] == t[i - 1];
        } else {
          assert r[j] == t[j - 1];
          assert t[j - 1] in multiset(t);
          if t[j - 1] != x {
            assert t[j - 1] in multiset(s[1..]);
            var k :| 0 <= k < |s[1..]| && s[1..][k] == t[j - 1];
            assert s[k + 1] == r[j];
          }
        }
      }
    }
  }

  /** The sort's output is ordered: no element is strictly before an earlier one. */
  lemma {:induction false} SortSorted<T(!new)>(s: seq<T>, above: (T, T) -> bool)
    requires Irreflexive(above) && Transitive(above)
    ensures Sorted(SortBy(s, above), above)
    decreases |s|
  {
    if s != [] {
      SortSorted(s[..|s| - 1], above);
      InsertSorted(s[|s| - 1], SortBy(s[..|s| - 1], above), above);
    }
  }

  /** Index of the first element that nothing in `s` is strictly before. */
  function BestIndex<T>(s: seq<T>, above: (T, T) -> bool): (b: nat)
    requires |s| > 0
    ensures b < |s|
    decreases |s|
  {
    if |s| == 1 then 0
    else
      var b := BestIndex(s[..|s| - 1], above);
      if above(s[|s| - 1], s[b]) then |s| - 1 else b
  }

  /** The sorted head is the element at BestIndex. */
  lemma {:induction false} SortHead<T>(s: seq<T>, above: (T, T) -> bool)
    requires |s| > 0
    ensures SortBy(s, above)[0] == s[BestIndex(s, above)]
    decreases |s|
  {
    if |s| > 1 {
      SortHead(s[..|s| - 1], above);
    }
  }

  /**
   * Under a strict weak order, BestIndex is the first maximal element: nothing is
   * strictly before it, and it is strictly before everything that precedes it.
   */
  lemma {:induction false} BestIndexIsFirstMaximal<T(!new)>(s: seq<T>, above: (T, T) -> bool)
    requires |s| > 0 && StrictWeakOrder(above)
    ensures forall j :: 0 <= j < |s| ==> !above(s[j], s[BestIndex(s, above)])
    ensures forall j :: 0 <= j < BestIndex(s, above) ==> above(s[BestIndex(s, above)], s[j])
    decreases |s|
  {
    if |s| > 1 {
      var p := s[..|s| - 1];
      BestIndexIsFirstMaximal(p, above);
      var b := BestIndex(p, above);
      assert forall j :: 0 <= j < |p| ==> s[j] == p[j];
    }
  }

  /** Inserting an element `p`-equivalent to everything `p` selects puts it after all of them. */
  lemma {:induction false} InsertStable<T(!new)>(x: T, s: seq<T>, above: (T, T) -> bool, p: T -> bool)
    requires Irreflexive(above) && Sorted(s, above)
    requires forall a, b, c :: p(a) && p(b) && above(a, c) ==> above(b, c)
    ensures Filter(Insert(x, s, above), p) == Filter(s, p) + Filter([x], p)
    decreases |s|
  {
    if s == [] {
      assert Insert(x, s, above) == [x];
    } else if above(x, s[0]) {
      assert Filter([x] + s, p) == Filter([x], p) + Filter(s, p) by {
        FilterAppend([x], s, p);
      }
      assert Filter([x], p) + Filter(s, p) == Filter(s, p) + Filter([x], p) by {
        FilterSingle(x, p);
        if p(x) {
          NoneSelected(s, above, p, x);
        }
      }
    } else {
      var t := Insert(x, s[1..], above);
      assert Filter(t, p) == Filter(s[1..], p) + Filter([x], p) by {
        assert Sorted(s[1..], above);
        InsertStable(x, s[1..], above, p);
      }
      assert Filter([s[0]] + t, p) == Filter([s[0]], p) + Filter(t, p) by {
        FilterAppend([s[0]], t, p);
      }
      assert Filter(s, p) == Filter([s[0]], p) + Filter(s[1..], p) by {
        FilterAppend([s[0]], s[1..], p);
        assert [s[0]] + s[1..] == s;
      }
    }
  }

  lemma NoneSelected<T(!new)>(s: seq<T>, above: (T, T) -> bool, p: T -> bool, x: T)
    requires |s| > 0 && Irreflexive(above) && Sorted(s, above)
    requires forall a, b, c :: p(a) && p(b) && above(a, c) ==> above(b, c)
    requires p(x) && above(x, s[0])
    ensures Filter(s, p) == []
  {
    assert !above(s[0], s[0]);
    forall k | 0 <= k < |s| ensures !p(s[k]) {
      assert k > 0 ==> !above(s[k], s[0]);
    }
    FilterNone(s, p);
  }

  lemma {:induction false} FilterNone<T>(s: seq<T>, p: T -> bool)
    requires forall k :: 0 <= k < |s| ==> !p(s[k])
    ensures Filter(s, p) == []
    decreases |s|
  {
    if s != [] {
      FilterNone(s[..|s| - 1], p);
    }
  }

  /**
   * Stability: the elements of one tie class (`p` picks elements that `above` does
   * not tell apart) come out in the order they went in.
   */
  lemma {:induction false} SortStable<T(!new)>(s: seq<T>, above: (T, T) -> bool, p: T -> bool)
    requires Irreflexive(above) && Transitive(above)
    requires forall a, b, c :: p(a) && p(b) && above(a, c) ==> above(b, c)
    ensures Filter(SortBy(s, above), p) == Filter(s, p)
    decreases |s|
  {
    if s != [] {
      var init, x := s[..|s| - 1], s[|s| - 1];
      var sorted := SortBy(init, above);
      assert SortBy(s, above) == Insert(x, sorted, above);
      assert Filter(sorted, p) == Filter(init, p) by {
        SortStable(init, above, p);
      }
      assert Filter(Insert(x, sorted, above), p) == Filter(sorted, p) + Filter([x], p) by {
        SortSorted(init, above);
        InsertStable(x, sorted, above, p);
      }
      assert Filter(s, p) == Filter(init, p) + Filter([x], p) by {
        FilterAppend(init, [x], p);
        assert init + [x] == s;
      }
    }
  }

  /** No element occurs twice. */
  predicate Distinct<T(==)>(s: seq<T>)
  {
    forall i, j :: 0 <= i < j < |s| ==> s[i] != s[j]
  }

  lemma {:induction false} InsertDistinct<T>(x: T, s: seq<T>, above: (T, T) -> bool)
    requires Distinct(s) && x !in s
    ensures Distinct(Insert(x, s, above))
    decreases |s|
  {
    if s != [] && !above(x, s[0]) {
      InsertDistinct(x, s[1..], above);
      InsertPermutes(x, s[1..], above);
      var rest := Insert(x, s[1..], above);
      assert s[0] !in multiset(rest) by {
        assert s[0] !in s[1..];
      }
      assert Insert(x, s, above) == [s[0]] + rest;
    }
  }

  /** Sorting a list without repeats gives a list without repeats. */
  lemma {:induction false} SortDistinct<T>(s: seq<T>, above: (T, T) -> bool)
    requires Distinct(s)
    ensures Distinct(SortBy(s, above))
    decreases |s|
  {
    if s != [] {
      var init, x := s[..|s| - 1], s[|s| - 1];
      SortDistinct(init, above);
      SortPermutes(init, above);
      assert x !in SortBy(init, above) by {
        assert x !in multiset(init);
      }
      InsertDistinct(x, SortBy(init, above), above);
    }
  }
}
