/**
 * A JavaScript `Map` as the insertion-ordered list of its entries.
 * `set` on a key that is already present replaces the value in place and
 * keeps the key's position; a new key goes to the end. `forEach` visits
 * the entries in this order.
 */
module OrderedMap {
  import opened Text

  /** No key occurs twice. */
  predicate DistinctKeys<K(==), V>(m: seq<(K, V)>) {
    forall i, j :: 0 <= i < j < |m| ==> m[i].0 != m[j].0
  }

  predicate Has<K(==), V>(m: seq<(K, V)>, k: K) {
    exists i :: 0 <= i < |m| && m[i].0 == k
  }

  function Keys<K(==), V>(m: seq<(K, V)>): (ks: seq<K>)
    ensures |ks| == |m|
    ensures forall i :: 0 <= i < |m| ==> ks[i] == m[i].0
  {
    if m == [] then [] else [m[0].0] + Keys(m[1..])
  }

  /** Position of `k`, if present. */
  function Find<K(==), V>(m: seq<(K, V)>, k: K): (r: Option<nat>)
    ensures r.None? <==> !Has(m, k)
    ensures r.Some? ==> r.value < |m| && m[r.value].0 == k && forall j :: 0 <= j < r.value ==> m[j].0 != k
  {
    if m == [] then None
    else if m[0].0 == k then Some(0)
    else match Find(m[1..], k)
      case None => (assert forall i :: 1 <= i < |m| ==> m[i] == m[1..][i - 1]; None)
      case Some(i) => Some(i + 1)
  }

  /** `m.get(k)`. */
  function Get<K(==), V>(m: seq<(K, V)>, k: K): (r: Option<V>)
    ensures r.None? <==> !Has(m, k)
  {
    match Find(m, k)
      case None => None
      case Some(i) => Some(m[i].1)
  }

  /** With distinct keys, the value stored under `k` anywhere is the one `get` returns. */
  lemma GetAt<K, V>(m: seq<(K, V)>, k: K, i: nat)
    requires DistinctKeys(m) && i < |m| && m[i].0 == k
    ensures Get(m, k) == Some(m[i].1)
  {
  }

  /** `m.get(k) ?? d`. */
  function GetOr<K(==), V>(m: seq<(K, V)>, k: K, d: V): V {
    match Get(m, k)
      case None => d
      case Some(v) => v
  }

  /** `m.set(k, v)`. */
  function Set<K(==,!new), V>(m: seq<(K, V)>, k: K, v: V): (r: seq<(K, V)>)
    ensures Has(m, k) ==> |r| == |m|
    ensures !Has(m, k) ==> r == m + [(k, v)]
  {
    match Find(m, k)
      case None => SetNew(m, k, v); m + [(k, v)]
      case Some(i) => SetExisting(m, i, k, v); m[i := (k, v)]
  }

  /** The key set reads back the value. */
  lemma SetGet<K(!new), V>(m: seq<(K, V)>, k: K, v: V)
    ensures Get(Set(m, k, v), k) == Some(v)
  {
    if Find(m, k).None? {
      SetNew(m, k, v);
    } else {
      SetExisting(m, Find(m, k).value, k, v);
    }
  }

  /** Setting a present key keeps the keys and their order. */
  lemma SetKeys<K(!new), V>(m: seq<(K, V)>, k: K, v: V)
    requires Has(m, k)
    ensures Keys(Set(m, k, v)) == Keys(m)
  {
    SetExisting(m, Find(m, k).value, k, v);
  }

  /** Setting keeps the keys distinct. */
  lemma SetDistinct<K(!new), V>(m: seq<(K, V)>, k: K, v: V)
    requires DistinctKeys(m)
    ensures DistinctKeys(Set(m, k, v))
  {
    if Find(m, k).None? {
      SetNew(m, k, v);
    } else {
      SetExisting(m, Find(m, k).value, k, v);
    }
  }

  /** Other keys keep their values. */
  lemma SetOther<K(!new), V>(m: seq<(K, V)>, k: K, v: V, k': K)
    requires k' != k
    ensures Get(Set(m, k, v), k') == Get(m, k')
  {
    if Find(m, k).None? {
      SetNew(m, k, v);
    } else {
      SetExisting(m, Find(m, k).value, k, v);
    }
  }

  /** The keys after a set are the keys before and the key set. */
  lemma SetHas<K(!new), V>(m: seq<(K, V)>, k: K, v: V, k': K)
    ensures Has(Set(m, k, v), k') <==> Has(m, k') || k' == k
  {
    if Find(m, k).None? {
      SetNew(m, k, v);
    } else {
      SetExisting(m, Find(m, k).value, k, v);
    }
  }

  lemma SetNew<K(!new), V>(m: seq<(K, V)>, k: K, v: V)
    requires !Has(m, k)
    ensures Get(m + [(k, v)], k) == Some(v)
    ensures forall k' :: k' != k ==> Get(m + [(k, v)], k') == Get(m, k')
    ensures DistinctKeys(m) ==> DistinctKeys(m + [(k, v)])
    ensures forall k' :: Has(m + [(k, v)], k') <==> Has(m, k') || k' == k
  {
    FindAppend(m, k, v);
    forall k' | k' != k ensures Get(m + [(k, v)], k') == Get(m, k') { FindAppendOther(m, k, v, k'); }
    forall k' ensures Has(m + [(k, v)], k') <==> Has(m, k') || k' == k {
      if k' != k {
        assert Get(m + [(k, v)], k') == Get(m, k');
      }
    }
  }

  lemma SetExisting<K(!new), V>(m: seq<(K, V)>, i: nat, k: K, v: V)
    requires Find(m, k) == Some(i)
    ensures Get(m[i := (k, v)], k) == Some(v)
    ensures forall k' :: k' != k ==> Get(m[i := (k, v)], k') == Get(m, k')
    ensures Keys(m[i := (k, v)]) == Keys(m)
    ensures DistinctKeys(m) ==> DistinctKeys(m[i := (k, v)])
    ensures forall k' :: Has(m[i := (k, v)], k') <==> Has(m, k') || k' == k
  {
    FindUpdate(m, i, v, k);
    forall k' ensures Find(m[i := (k, v)], k') == Find(m, k') { FindUpdate(m, i, v, k'); }
  }

  lemma {:induction false} FindAppend<K, V>(m: seq<(K, V)>, k: K, v: V)
    requires !Has(m, k)
    ensures Find(m + [(k, v)], k) == Some(|m|)
  {
    if m != [] {
      assert (m + [(k, v)])[1..] == m[1..] + [(k, v)];
      assert !Has(m[1..], k) by {
        forall i | 0 <= i < |m[1..]| ensures m[1..][i].0 != k { assert m[1..][i] == m[i + 1]; }
      }
      FindAppend(m[1..], k, v);
    }
  }

  lemma {:induction false} FindAppendOther<K, V>(m: seq<(K, V)>, k: K, v: V, k': K)
    requires k' != k
    ensures Find(m + [(k, v)], k') == Find(m, k')
  {
    if m == [] {
      assert ([(k, v)])[1..] == [];
    } else {
      assert (m + [(k, v)])[1..] == m[1..] + [(k, v)];
      FindAppendOther(m[1..], k, v, k');
    }
  }

  lemma {:induction false} FindUpdate<K, V>(m: seq<(K, V)>, i: nat, v: V, k': K)
    requires i < |m|
    ensures Find(m[i := (m[i].0, v)], k') == Find(m, k')
  {
    if i > 0 {
      assert m[i := (m[i].0, v)][1..] == m[1..][i - 1 := (m[i].0, v)];
      FindUpdate(m[1..], i - 1, v, k');
    }
  }

  /** Replacing the value of the first entry for `m[i].0` keeps the keys and changes only that key's value. */
  lemma UpdateValue<K, V>(m: seq<(K, V)>, i: nat, v: V)
    requires i < |m| && Find(m, m[i].0) == Some(i)
    ensures Keys(m[i := (m[i].0, v)]) == Keys(m)
    ensures Get(m[i := (m[i].0, v)], m[i].0) == Some(v)
    ensures forall k :: k != m[i].0 ==> Get(m[i := (m[i].0, v)], k) == Get(m, k)
  {
    var n := m[i := (m[i].0, v)];
    forall k ensures Find(n, k) == Find(m, k) {
      FindUpdate(m, i, v, k);
    }
    assert Keys(n) == Keys(m);
  }

  /** Maps with the same keys in the same order find a key at the same place. */
  lemma {:induction false} FindSameKeys<K, V, W>(m: seq<(K, V)>, n: seq<(K, W)>, k: K)
    requires |m| == |n| && forall i :: 0 <= i < |m| ==> m[i].0 == n[i].0
    ensures Find(m, k) == Find(n, k)
  {
    if m != [] {
      FindSameKeys(m[1..], n[1..], k);
    }
  }

  /** The values, in entry order (what `forEach` visits). */
  function Values<K(==), V>(m: seq<(K, V)>): (vs: seq<V>)
    ensures |vs| == |m|
    ensures forall i :: 0 <= i < |m| ==> vs[i] == m[i].1
  {
    if m == [] then [] else [m[0].1] + Values(m[1..])
  }
}
