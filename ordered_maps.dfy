/**
 * Python dicts, which remember insertion order, as sequences of key/value pairs.
 * Assigning to a present key replaces its value in place; a new key goes last.
 */
module OrderedMaps {
  import opened Wrappers

  function Keys<K, V>(m: seq<(K, V)>): (ks: seq<K>)
    ensures |ks| == |m| && forall i :: 0 <= i < |m| ==> ks[i] == m[i].0
  {
    seq(|m|, i requires 0 <= i < |m| => m[i].0)
  }

  /** The keys of a non-empty dict are its first key, then the keys of the rest. */
  lemma KeysCons<K, V>(m: seq<(K, V)>)
    requires m != []
    ensures Keys(m) == [m[0].0] + Keys(m[1..])
  {
  }

  /** `d.get(k)`. */
  function Get<K(==), V>(m: seq<(K, V)>, k: K): (r: Option<V>)
    ensures r.Some? <==> k in Keys(m)
    decreases |m|
  {
    if m == [] then None
    else if m[0].0 == k then Some(m[0].1)
    else
      KeysCons(m);
      Get(m[1..], k)
  }

  /** `d[k] = v`. */
  function Put<K(==), V>(m: seq<(K, V)>, k: K, v: V): (r: seq<(K, V)>)
    decreases |m|
  {
    if m == [] then [(k, v)]
    else if m[0].0 == k then [(k, v)] + m[1..]
    else
      KeysCons(m);
      [m[0]] + Put(m[1..], k, v)
  }

  /** `d[k] = v` keeps the keys in place and puts a new key last. */
  lemma {:induction false} PutKeys<K, V>(m: seq<(K, V)>, k: K, v: V)
    ensures Keys(Put(m, k, v)) == if k in Keys(m) then Keys(m) else Keys(m) + [k]
    decreases |m|
  {
    if m != [] {
      KeysCons(m);
      KeysCons(Put(m, k, v));
      if m[0].0 != k {
        PutKeys(m[1..], k, v);
      }
    }
  }

  predicate DistinctKeys<K(==), V>(m: seq<(K, V)>)
  {
    forall i, j :: 0 <= i < j < |m| ==> m[i].0 != m[j].0
  }

  /** After `d[k] = v`, `k` maps to `v` and every other key keeps its value. */
  lemma {:induction false} GetPut<K, V>(m: seq<(K, V)>, k: K, v: V, k': K)
    ensures Get(Put(m, k, v), k') == if k' == k then Some(v) else Get(m, k')
    decreases |m|
  {
    if m != [] && m[0].0 != k {
      GetPut(m[1..], k, v, k');
    }
  }

  lemma PutDistinct<K, V>(m: seq<(K, V)>, k: K, v: V)
    requires DistinctKeys(m)
    ensures DistinctKeys(Put(m, k, v))
  {
    var r := Put(m, k, v);
    PutKeys(m, k, v);
    forall i, j | 0 <= i < j < |r| ensures r[i].0 != r[j].0 {
      assert r[i].0 == Keys(r)[i] && r[j].0 == Keys(r)[j];
    }
  }

  /** Values of the pairs, in order (`d.values()`). */
  function Values<K, V>(m: seq<(K, V)>): (vs: seq<V>)
    ensures |vs| == |m| && forall i :: 0 <= i < |m| ==> vs[i] == m[i].1
  {
    seq(|m|, i requires 0 <= i < |m| => m[i].1)
  }
  /** `d.update(new)`: the pairs of `new` assigned one after another. */
  function UpdateAll<K(==), V>(m: seq<(K, V)>, upd: seq<(K, V)>): seq<(K, V)>
    decreases |upd|
  {
    if upd == [] then m
    else
      var n := |upd| - 1;
      Put(UpdateAll(m, upd[..n]), upd[n].0, upd[n].1)
  }

  /** A dict's lookup after appending a fresh key. */
  lemma {:induction false} GetSnoc<K, V>(m: seq<(K, V)>, k: K, v: V, k': K)
    requires k !in Keys(m)
    ensures Get(m + [(k, v)], k') == if k' in Keys(m) then Get(m, k') else if k' == k then Some(v) else None
    decreases |m|
  {
    if m != [] {
      assert (m + [(k, v)])[1..] == m[1..] + [(k, v)];
      KeysCons(m);
      if m[0].0 != k' {
        GetSnoc(m[1..], k, v, k');
      }
    }
  }

  /** After `d.update(upd)` a key of `upd` maps to its value there and every other key keeps its value. */
  lemma {:induction false} GetUpdateAll<K, V>(m: seq<(K, V)>, upd: seq<(K, V)>, k: K)
    requires DistinctKeys(upd)
    ensures Get(UpdateAll(m, upd), k) == if k in Keys(upd) then Get(upd, k) else Get(m, k)
    decreases |upd|
  {
    if upd != [] {
      var n := |upd| - 1;
      var init := upd[..n];
      var last := upd[n];
      assert DistinctKeys(init);
      assert upd == init + [(last.0, last.1)];
      assert last.0 !in Keys(init) by {
        forall i | 0 <= i < n ensures Keys(init)[i] != last.0 {
          assert upd[i].0 != upd[n].0;
        }
      }
      GetUpdateAll(m, init, k);
      GetPut(UpdateAll(m, init), last.0, last.1, k);
      GetSnoc(init, last.0, last.1, k);
      assert k in Keys(upd) <==> k in Keys(init) || k == last.0 by {
        assert Keys(upd) == Keys(init) + [last.0];
      }
    }
  }

  /** Assigning to an absent key appends the pair. */
  lemma {:induction false} PutAbsent<K, V>(m: seq<(K, V)>, k: K, v: V)
    requires k !in Keys(m)
    ensures Put(m, k, v) == m + [(k, v)]
    decreases |m|
  {
    if m != [] {
      KeysCons(m);
      PutAbsent(m[1..], k, v);
      assert m == [m[0]] + m[1..];
    }
  }

  /** In a dict, each stored pair is what its key looks up. */
  lemma {:induction false} GetAt<K, V>(m: seq<(K, V)>, i: nat)
    requires DistinctKeys(m) && i < |m|
    ensures Get(m, m[i].0) == Some(m[i].1)
    decreases i
  {
    if i > 0 {
      assert m[0].0 != m[i].0;
      assert m[1..][i - 1] == m[i];
      GetAt(m[1..], i - 1);
    }
  }

  /** A present key's value is the value of some entry with that key. */
  lemma {:induction false} GetFirst<K, V>(m: seq<(K, V)>, key: K)
    requires key in Keys(m)
    ensures exists k :: 0 <= k < |m| && m[k].0 == key && Get(m, key) == Some(m[k].1)
    decreases |m|
  {
    if m[0].0 != key {
      GetFirst(m[1..], key);
      var k :| 0 <= k < |m[1..]| && m[1..][k].0 == key && Get(m[1..], key) == Some(m[1..][k].1);
      assert m[k + 1] == m[1..][k];
    }
  }
}
