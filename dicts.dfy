/** Python dictionaries with string keys, as association lists. A Python
    dict remembers insertion order, and the report walks datasets and core
    counts in that order, so the model keeps it: a new key goes to the end, an
    existing key keeps its place when its value is overwritten. */
module Dicts {
  import opened Wrappers

  type Dict<V> = seq<(string, V)>

  /** The keys, in insertion order (`list(d.keys())`). */
  function Keys<V>(d: Dict<V>): (ks: seq<string>)
    ensures |ks| == |d|
    decreases |d|
  {
    if |d| == 0 then [] else [d[0].0] + Keys(d[1..])
  }

  lemma {:induction false} KeysAt<V>(d: Dict<V>, i: nat)
    requires i < |d|
    ensures Keys(d)[i] == d[i].0
    decreases i
  {
    if i > 0 {
      KeysAt(d[1..], i - 1);
    }
  }

  /** No key occurs twice; every dict the model builds has this shape. */
  predicate DistinctKeys<V>(d: Dict<V>) {
    forall i, j :: 0 <= i < j < |d| ==> d[i].0 != d[j].0
  }

  /** `d.get(k)`: present exactly when `k` is one of the keys. */
  function Lookup<V>(d: Dict<V>, k: string): (r: Option<V>)
    ensures r.Some? <==> k in Keys(d)
    decreases |d|
  {
    if |d| == 0 then None
    else if d[0].0 == k then Some(d[0].1)
    else Lookup(d[1..], k)
  }

  /** `d[k]` when `k` is known to be present, and `deflt` otherwise (the
      model only uses the default where the key is always present). */
  function GetOr<V>(d: Dict<V>, k: string, deflt: V): V {
    match Lookup(d, k)
    case Some(v) => v
    case None => deflt
  }

  /** Iterating over a dict and indexing it with the key seen gives the value
      stored beside that key. */
  lemma {:induction false} LookupEntry<V>(d: Dict<V>, i: nat)
    requires DistinctKeys(d) && i < |d|
    ensures Lookup(d, d[i].0) == Some(d[i].1)
    decreases i
  {
    if i > 0 {
      assert d[0].0 != d[i].0;
      assert d[1..][i - 1] == d[i];
      LookupEntry(d[1..], i - 1);
    }
  }

  /** `d[k] = v`: the key list grows only by a new key, at the end; `k` now
      maps to `v`; every other key keeps its value. */
  function Put<V>(d: Dict<V>, k: string, v: V): (r: Dict<V>)
    ensures Keys(r) == if k in Keys(d) then Keys(d) else Keys(d) + [k]
    ensures Lookup(r, k) == Some(v)
    ensures forall k' :: k' != k ==> Lookup(r, k') == Lookup(d, k')
    decreases |d|
  {
    if |d| == 0 then [(k, v)]
    else if d[0].0 == k then [(k, v)] + d[1..]
    else [d[0]] + Put(d[1..], k, v)
  }

  /** A dict with distinct keys keeps them distinct under `Put`. */
  lemma PutDistinct<V>(d: Dict<V>, k: string, v: V)
    requires DistinctKeys(d)
    ensures DistinctKeys(Put(d, k, v))
  {
    var r := Put(d, k, v);
    forall i, j | 0 <= i < j < |r| ensures r[i].0 != r[j].0 {
      KeysAt(r, i);
      KeysAt(r, j);
      if j < |d| {
        KeysAt(d, i);
        KeysAt(d, j);
      } else {
        assert k !in Keys(d) && Keys(r)[j] == k;
        KeysAt(d, i);
        assert Keys(d)[i] in Keys(d);
      }
    }
  }
}
