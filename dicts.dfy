/**
 * Python dicts, which list their keys in insertion order, as sequences of
 * (key, value) pairs. Lookups use the first pair with the key, so every
 * dict built by `Put` and `Remove` from an empty one has distinct keys.
 */
module Dicts {
  import opened Common

  type Dict<K, V> = seq<(K, V)>

  function Keys<K, V>(d: Dict<K, V>): (ks: seq<K>)
    ensures |ks| == |d|
    ensures forall i :: 0 <= i < |d| ==> ks[i] == d[i].0
  {
    seq(|d|, i requires 0 <= i < |d| => d[i].0)
  }

  /** `d.get(k)`: the value stored under `k`, if any. */
  function Get<K(==), V>(d: Dict<K, V>, k: K): (r: Option<V>)
    ensures r.None? <==> k !in Keys(d)
    ensures r.Some? ==> (k, r.value) in d
  {
    if k in Keys(d) then Some(d[FirstIndex(Keys(d), k)].1) else None
  }

  /** `d.get(k, default)`. */
  function GetOr<K(==), V>(d: Dict<K, V>, k: K, default: V): V
  {
    if k in Keys(d) then Get(d, k).value else default
  }

  /** `d[k] = v`: an existing key keeps its place, a new one goes last. */
  function Put<K(==), V>(d: Dict<K, V>, k: K, v: V): (r: Dict<K, V>)
    ensures Keys(r) == if k in Keys(d) then Keys(d) else Keys(d) + [k]
  {
    if k in Keys(d) then d[FirstIndex(Keys(d), k) := (k, v)] else d + [(k, v)]
  }

  /** `d.pop(k, None)` for its effect on `d`. */
  function Remove<K(==), V>(d: Dict<K, V>, k: K): (r: Dict<K, V>)
    ensures k in Keys(d) ==> |r| == |d| - 1
    ensures k !in Keys(d) ==> r == d
  {
    if k in Keys(d) then
      var i := FirstIndex(Keys(d), k);
      d[..i] + d[i + 1..]
    else d
  }

  lemma GetPut<K, V>(d: Dict<K, V>, k: K, v: V, k': K)
    ensures Get(Put(d, k, v), k') == if k' == k then Some(v) else Get(d, k')
  {
    var r := Put(d, k, v);
    if k in Keys(d) {
      var i := FirstIndex(Keys(d), k);
      assert Keys(r) == Keys(d);
      if k' in Keys(d) {
        var j := FirstIndex(Keys(d), k');
        assert FirstIndex(Keys(r), k') == j;
      }
    } else {
      assert Keys(r) == Keys(d) + [k];
      if k' == k {
        assert FirstIndex(Keys(r), k) == |d|;
      } else if k' in Keys(d) {
        FirstIndexSnoc(Keys(d), k, k');
      }
    }
  }

  /** Storing the value a key already has changes nothing. */
  lemma PutExisting<K, V>(d: Dict<K, V>, k: K, v: V)
    requires Get(d, k) == Some(v)
    ensures Put(d, k, v) == d
  {
    var i := FirstIndex(Keys(d), k);
    assert d[i] == (k, v);
  }

  lemma KeysRemove<K, V>(d: Dict<K, V>, k: K)
    requires k in Keys(d)
    ensures var i := FirstIndex(Keys(d), k); Keys(Remove(d, k)) == Keys(d)[..i] + Keys(d)[i + 1..]
  {
  }

  lemma RemoveAt<K, V>(d: Dict<K, V>, k: K, p: nat)
    requires k in Keys(d) && p < |Remove(d, k)|
    ensures var i := FirstIndex(Keys(d), k);
      Remove(d, k)[p] == if p < i then d[p] else d[p + 1]
  {
  }

  lemma RemoveDistinct<K, V>(d: Dict<K, V>, k: K)
    requires Distinct(Keys(d))
    ensures Distinct(Keys(Remove(d, k)))
    ensures k !in Keys(Remove(d, k))
  {
    if k in Keys(d) {
      var i := FirstIndex(Keys(d), k);
      var r := Remove(d, k);
      forall p, q | 0 <= p < q < |r| ensures r[p].0 != r[q].0 {
        RemoveAt(d, k, p);
        RemoveAt(d, k, q);
      }
      forall p | 0 <= p < |r| ensures r[p].0 != k {
        RemoveAt(d, k, p);
      }
    }
  }

  /** The first occurrence is the one no earlier element matches. */
  lemma FirstIndexIs<T>(xs: seq<T>, x: T, i: nat)
    requires i < |xs| && xs[i] == x
    requires forall j :: 0 <= j < i ==> xs[j] != x
    ensures FirstIndex(xs, x) == i
  {
  }

  /** Deleting position `i` moves the first occurrence of another value down by one if it came later. */
  lemma DeleteFirstIndex<T>(xs: seq<T>, i: nat, y: T)
    requires i < |xs| && y in xs && y != xs[i]
    ensures var j := FirstIndex(xs, y);
      y in xs[..i] + xs[i + 1..] && FirstIndex(xs[..i] + xs[i + 1..], y) == if j < i then j else j - 1
  {
    var j := FirstIndex(xs, y);
    var ys := xs[..i] + xs[i + 1..];
    var jr := if j < i then j else j - 1;
    DeleteAt(xs, i, jr);
    forall p | 0 <= p < jr ensures ys[p] != y {
      DeleteAt(xs, i, p);
    }
    FirstIndexIs(ys, y, jr);
  }

  lemma DeleteAt<T>(xs: seq<T>, i: nat, p: nat)
    requires i < |xs| && p < |xs| - 1
    ensures |xs[..i] + xs[i + 1..]| == |xs| - 1
    ensures (xs[..i] + xs[i + 1..])[p] == if p < i then xs[p] else xs[p + 1]
  {
  }

  lemma RemoveFirstIndex<K, V>(d: Dict<K, V>, k: K, k': K)
    requires k' != k && k in Keys(d) && k' in Keys(d)
    ensures k' in Keys(Remove(d, k))
    ensures var i, j := FirstIndex(Keys(d), k), FirstIndex(Keys(d), k');
      var jr := if j < i then j else j - 1;
      jr < |Remove(d, k)| && FirstIndex(Keys(Remove(d, k)), k') == jr && Remove(d, k)[jr] == d[j]
  {
    var i, j := FirstIndex(Keys(d), k), FirstIndex(Keys(d), k');
    var ks := Keys(d)[..i] + Keys(d)[i + 1..];
    KeysRemove(d, k);
    assert Keys(Remove(d, k)) == ks;
    DeleteFirstIndex(Keys(d), i, k');
    var jr := if j < i then j else j - 1;
    assert k' in ks && FirstIndex(ks, k') == jr;
    RemoveAt(d, k, jr);
    assert Remove(d, k)[jr] == d[j];
  }

  lemma RemoveAbsent<K, V>(d: Dict<K, V>, k: K, k': K)
    requires k in Keys(d) && k' !in Keys(d)
    ensures k' !in Keys(Remove(d, k))
  {
    var r := Remove(d, k);
    forall p | 0 <= p < |r| ensures Keys(r)[p] != k' {
      RemoveAt(d, k, p);
    }
  }

  lemma GetRemoveOther<K, V>(d: Dict<K, V>, k: K, k': K)
    requires k' != k
    ensures Get(Remove(d, k), k') == Get(d, k')
  {
    if k in Keys(d) {
      if k' in Keys(d) {
        RemoveFirstIndex(d, k, k');
      } else {
        RemoveAbsent(d, k, k');
      }
    }
  }

  lemma GetRemove<K, V>(d: Dict<K, V>, k: K, k': K)
    requires Distinct(Keys(d))
    ensures Distinct(Keys(Remove(d, k)))
    ensures Get(Remove(d, k), k') == if k' == k then None else Get(d, k')
  {
    RemoveDistinct(d, k);
    if k' != k {
      GetRemoveOther(d, k, k');
    }
  }

  /** Assigning a new key appends the pair. */
  lemma PutNew<K, V>(d: Dict<K, V>, k: K, v: V)
    requires k !in Keys(d)
    ensures Put(d, k, v) == d + [(k, v)] && Keys(d + [(k, v)]) == Keys(d) + [k]
  {
  }

  lemma PutDistinct<K, V>(d: Dict<K, V>, k: K, v: V)
    requires Distinct(Keys(d))
    ensures Distinct(Keys(Put(d, k, v)))
  {
  }

  /** Assigning a key twice leaves only the second value. */
  lemma PutPut<K, V>(d: Dict<K, V>, k: K, v: V, w: V)
    ensures Put(Put(d, k, v), k, w) == Put(d, k, w)
  {
    if k !in Keys(d) {
      PutNew(d, k, v);
      assert FirstIndex(Keys(d) + [k], k) == |d|;
    }
  }

  lemma GetOrPut<K, V>(d: Dict<K, V>, k: K, v: V, k': K, default: V)
    ensures GetOr(Put(d, k, v), k', default) == if k' == k then v else GetOr(d, k', default)
  {
    GetPut(d, k, v, k');
  }

  /** In a dict with distinct keys, looking up the key of a pair finds that pair's value. */
  lemma GetAt<K, V>(d: Dict<K, V>, i: nat, default: V)
    requires Distinct(Keys(d)) && i < |d|
    ensures Get(d, d[i].0) == Some(d[i].1) && GetOr(d, d[i].0, default) == d[i].1
  {
    var j := FirstIndex(Keys(d), d[i].0);
    assert Keys(d)[i] == d[i].0;
    assert j == i;
  }
}
