/** Python's dict as the model sees it: the entries in insertion order, each key
    at most once. Assigning to a present key keeps its position. */
module OrderedMaps {
  import opened Wrappers

  type OMap<K, V> = seq<(K, V)>

  predicate DistinctKeys<K(==), V>(m: OMap<K, V>) {
    forall i, j :: 0 <= i < j < |m| ==> m[i].0 != m[j].0
  }

  predicate HasKey<K(==), V>(m: OMap<K, V>, k: K) {
    exists i :: 0 <= i < |m| && m[i].0 == k
  }

  function Keys<K, V>(m: OMap<K, V>): (ks: seq<K>)
    ensures |ks| == |m| && forall i :: 0 <= i < |m| ==> ks[i] == m[i].0
  {
    seq(|m|, i requires 0 <= i < |m| => m[i].0)
  }

  /** The position of key k, if present. */
  function Find<K(==), V>(m: OMap<K, V>, k: K): (r: Option<nat>)
    ensures r.Some? ==> r.value < |m| && m[r.value].0 == k && forall j :: 0 <= j < r.value ==> m[j].0 != k
    ensures r.None? <==> !HasKey(m, k)
    decreases |m|
  {
    if |m| == 0 then None
    else if m[0].0 == k then Some(0)
    else match Find(m[1..], k)
      case None => (assert forall i :: 1 <= i < |m| ==> m[i] == m[1..][i - 1]; None)
      case Some(i) => Some(i + 1)
  }

  /** d.get(k): the value stored under k. */
  function Get<K(==), V>(m: OMap<K, V>, k: K): (r: Option<V>)
    ensures r.Some? <==> HasKey(m, k)
    ensures DistinctKeys(m) ==> forall i :: 0 <= i < |m| && m[i].0 == k ==> r == Some(m[i].1)
  {
    match Find(m, k)
    case None => None
    case Some(i) => Some(m[i].1)
  }

  /** d[k] = v. */
  function Put<K(==, !new), V>(m: OMap<K, V>, k: K, v: V): (r: OMap<K, V>)
    requires DistinctKeys(m)
    ensures DistinctKeys(r)
    ensures Get(r, k) == Some(v)
    ensures forall k' :: k' != k ==> Get(r, k') == Get(m, k')
    ensures Keys(r) == if HasKey(m, k) then Keys(m) else Keys(m) + [k]
  {
    match Find(m, k)
    case None => AppendNew(m, k, v); m + [(k, v)]
    case Some(i) => ReplaceAt(m, i, v); m[i := (k, v)]
  }

  lemma ReplaceAt<K(!new), V>(m: OMap<K, V>, i: nat, v: V)
    requires DistinctKeys(m) && i < |m|
    ensures var r := m[i := (m[i].0, v)];
      && DistinctKeys(r) && Get(r, m[i].0) == Some(v)
      && forall k' :: k' != m[i].0 ==> Get(r, k') == Get(m, k')
  {
    var r := m[i := (m[i].0, v)];
    assert r[i].0 == m[i].0;
    forall k' | k' != m[i].0 ensures Get(r, k') == Get(m, k') {
      if HasKey(m, k') {
        var j :| 0 <= j < |m| && m[j].0 == k';
        assert r[j] == m[j];
      }
    }
  }

  lemma AppendNew<K(!new), V>(m: OMap<K, V>, k: K, v: V)
    requires DistinctKeys(m) && !HasKey(m, k)
    ensures var r := m + [(k, v)];
      && DistinctKeys(r) && Get(r, k) == Some(v)
      && forall k' :: k' != k ==> Get(r, k') == Get(m, k')
  {
    var r := m + [(k, v)];
    assert r[|m|].0 == k;
    forall k' | k' != k ensures Get(r, k') == Get(m, k') {
      if HasKey(m, k') {
        var j :| 0 <= j < |m| && m[j].0 == k';
        assert r[j] == m[j];
      }
    }
  }
}
