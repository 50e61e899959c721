/**
 * The "seen set" loop used throughout the pipeline: walk a list and keep an
 * element only if no earlier element had the same key.
 */
module Uniq {
  /** The keys of the elements of `s`. */
  function KeysOf<T, K(==)>(s: seq<T>, key: T -> K): set<K>
  {
    set i | 0 <= i < |s| :: key(s[i])
  }

  lemma KeysOfAppend<T, K>(s: seq<T>, x: T, key: T -> K)
    ensures KeysOf(s + [x], key) == KeysOf(s, key) + {key(x)}
  {
    var t := s + [x];
    assert forall i :: 0 <= i < |s| ==> t[i] == s[i];
    assert key(t[|s|]) == key(x);
  }

  lemma KeysOfConcat<T, K>(a: seq<T>, b: seq<T>, key: T -> K)
    ensures KeysOf(a + b, key) == KeysOf(a, key) + KeysOf(b, key)
  {
    var t := a + b;
    forall x | x in KeysOf(t, key) ensures x in KeysOf(a, key) + KeysOf(b, key) {
      var i :| 0 <= i < |t| && key(t[i]) == x;
      if i >= |a| {
        assert t[i] == b[i - |a|];
      }
    }
    forall x | x in KeysOf(a, key) + KeysOf(b, key) ensures x in KeysOf(t, key) {
      if x in KeysOf(a, key) {
        var i :| 0 <= i < |a| && key(a[i]) == x;
        assert t[i] == a[i];
      } else {
        var i :| 0 <= i < |b| && key(b[i]) == x;
        assert t[|a| + i] == b[i];
      }
    }
  }

  /** Keep-first deduplication by `key`, in input order. */
  function KeepFirst<T, K(==)>(s: seq<T>, key: T -> K): (r: seq<T>)
    ensures |r| <= |s|
    decreases |s|
  {
    if s == [] then []
    else
      var r := KeepFirst(s[..|s| - 1], key);
      if key(s[|s| - 1]) in KeysOf(r, key) then r else r + [s[|s| - 1]]
  }

  /** One more element: it is kept iff its key is new. */
  lemma KeepFirstSnoc<T, K>(s: seq<T>, x: T, key: T -> K)
    ensures KeepFirst(s + [x], key) ==
      if key(x) in KeysOf(KeepFirst(s, key), key) then KeepFirst(s, key) else KeepFirst(s, key) + [x]
  {
    assert (s + [x])[..|s|] == s;
  }

  /** Position `j` holds the first element of `s` with its key. */
  predicate IsFirstOccurrence<T, K(==)>(s: seq<T>, key: T -> K, j: int)
  {
    0 <= j < |s| && forall k :: 0 <= k < j ==> key(s[k]) != key(s[j])
  }

  /** The positions of first occurrences, in increasing order. */
  function FirstIndices<T, K(==)>(s: seq<T>, key: T -> K): seq<nat>
    decreases |s|
  {
    if s == [] then []
    else FirstIndices(s[..|s| - 1], key) + (if IsFirstOccurrence(s, key, |s| - 1) then [|s| - 1] else [])
  }

  /** The kept keys are all the input's keys, each kept once. */
  lemma {:induction false} KeepFirstKeys<T, K>(s: seq<T>, key: T -> K)
    ensures KeysOf(KeepFirst(s, key), key) == KeysOf(s, key)
    ensures var r := KeepFirst(s, key); forall i, j :: 0 <= i < j < |r| ==> key(r[i]) != key(r[j])
    decreases |s|
  {
    if s != [] {
      var n := |s| - 1;
      var p := s[..n];
      KeepFirstKeys(p, key);
      KeysOfAppend(p, s[n], key);
      assert p + [s[n]] == s;
      if key(s[n]) !in KeysOf(p, key) {
        KeysOfAppend(KeepFirst(p, key), s[n], key);
      }
    }
  }

  /** FirstIndices lists, in increasing order, exactly the positions of first occurrences. */
  lemma {:induction false} FirstIndicesShape<T, K>(s: seq<T>, key: T -> K)
    ensures forall i :: 0 <= i < |FirstIndices(s, key)| ==> IsFirstOccurrence(s, key, FirstIndices(s, key)[i])
    ensures forall i, j :: 0 <= i < j < |FirstIndices(s, key)| ==> FirstIndices(s, key)[i] < FirstIndices(s, key)[j]
    ensures forall j :: IsFirstOccurrence(s, key, j) ==> j in FirstIndices(s, key)
    decreases |s|
  {
    if s != [] {
      var n := |s| - 1;
      var p := s[..n];
      FirstIndicesShape(p, key);
      forall j | 0 <= j < n ensures IsFirstOccurrence(s, key, j) <==> IsFirstOccurrence(p, key, j) {
        assert forall k :: 0 <= k <= j ==> s[k] == p[k];
      }
      var idx0 := FirstIndices(p, key);
      var idx := FirstIndices(s, key);
      assert idx == idx0 + (if IsFirstOccurrence(s, key, n) then [n] else []);
      forall i | 0 <= i < |idx| ensures idx[i] <= n && IsFirstOccurrence(s, key, idx[i]) {
        if i < |idx0| {
          assert idx[i] == idx0[i] && IsFirstOccurrence(p, key, idx0[i]);
        }
      }
      forall i, j | 0 <= i < j < |idx| ensures idx[i] < idx[j] {
        if j < |idx0| {
          assert idx[i] == idx0[i] && idx[j] == idx0[j];
        } else {
          assert IsFirstOccurrence(p, key, idx0[i]);
        }
      }
      forall j | IsFirstOccurrence(s, key, j) ensures j in idx {
        if j < n {
          assert j in idx0;
        }
      }
    }
  }

  /**
   * KeepFirst is exactly the first occurrences of each key, in input order: its
   * i-th element is the input element at the i-th first-occurrence position.
   */
  lemma {:induction false} KeepFirstSpec<T, K>(s: seq<T>, key: T -> K)
    ensures var r, idx := KeepFirst(s, key), FirstIndices(s, key);
      && |r| == |idx|
      && (forall i :: 0 <= i < |idx| ==> idx[i] < |s| && r[i] == s[idx[i]])
    decreases |s|
  {
    if s != [] {
      var n := |s| - 1;
      var p := s[..n];
      KeepFirstSpec(p, key);
      KeepFirstKeys(p, key);
      FirstIndicesShape(p, key);
      var first := IsFirstOccurrence(s, key, n);
      assert first <==> key(s[n]) !in KeysOf(KeepFirst(p, key), key) by {
        if key(s[n]) in KeysOf(p, key) {
          var k :| 0 <= k < |p| && key(p[k]) == key(s[n]);
          assert s[k] == p[k];
        }
      }
      var r0, idx0 := KeepFirst(p, key), FirstIndices(p, key);
      var r, idx := KeepFirst(s, key), FirstIndices(s, key);
      assert r == r0 + (if first then [s[n]] else []);
      assert idx == idx0 + (if first then [n] else []);
      forall i | 0 <= i < |idx| ensures idx[i] < |s| && r[i] == s[idx[i]] {
        if i < |idx0| {
          assert r[i] == r0[i] && idx[i] == idx0[i];
          assert p[idx0[i]] == s[idx0[i]];
        }
      }
    }
  }

  /** Every kept element comes from the input. */
  lemma KeepFirstElements<T, K>(s: seq<T>, key: T -> K)
    ensures forall x :: x in KeepFirst(s, key) ==> x in s
  {
    KeepFirstSpec(s, key);
    var r := KeepFirst(s, key);
    forall x | x in r ensures x in s {
      var i :| 0 <= i < |r| && r[i] == x;
      assert FirstIndices(s, key)[i] < |s|;
    }
  }
}
