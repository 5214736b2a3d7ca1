/**
 * Python's insertion-ordered `dict`, as an association list whose keys are
 * pairwise distinct. The order matters here because `json.dumps` writes the
 * items in insertion order, so it is part of a key's identity.
 */
module PyDict {
  function Keys<K, V>(d: seq<(K, V)>): (ks: seq<K>)
    ensures |ks| == |d|
    ensures forall i :: 0 <= i < |d| ==> ks[i] == d[i].0
  {
    seq(|d|, i requires 0 <= i < |d| => d[i].0)
  }

  ghost predicate DistinctKeys<K, V>(d: seq<(K, V)>)
  {
    forall i, j :: 0 <= i < j < |d| ==> d[i].0 != d[j].0
  }

  type Dict<K, V> = d: seq<(K, V)> | DistinctKeys(d) witness []
}
