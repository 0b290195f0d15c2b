/**
 Insertion-ordered dictionaries: a sequence of key/value entries in the
 order they were written, looked up by the first entry whose key matches.
 Such a sequence stands for a Python `dict` only when no key is written
 twice (`DistinctKeys`); a Python dict literal that repeats a key keeps the
 last value instead. The order matters to the converter because the first
 unit of a category is the fallback selection.
 */
module Dict {

  datatype Option<+T> = None | Some(value: T)

  /** The keys of `d` in insertion order (Python's `list(d.keys())`). */
  function Keys<K, V>(d: seq<(K, V)>): (ks: seq<K>)
    ensures |ks| == |d|
    ensures forall i :: 0 <= i < |d| ==> ks[i] == d[i].0
  {
    seq(|d|, i requires 0 <= i < |d| => d[i].0)
  }

  /** No key is written twice, as in a dict literal whose keys are all different. */
  predicate DistinctKeys<K(==), V>(d: seq<(K, V)>)
  {
    forall i, j :: 0 <= i < j < |d| ==> d[i].0 != d[j].0
  }

  /**
   The value of the first entry with key `k`, or None when there is none. With
   distinct keys this is Python's `d[k]`, and None is where it raises KeyError.
   */
  function Lookup<K(==), V>(d: seq<(K, V)>, k: K): (r: Option<V>)
    ensures r.Some? <==> k in Keys(d)
    ensures r.Some? ==> (k, r.value) in d
    decreases |d|
  {
    if |d| == 0 then None
    else if d[0].0 == k then Some(d[0].1)
    else
      var r := Lookup(d[1..], k);
      assert Keys(d) == [d[0].0] + Keys(d[1..]);
      r
  }

  /** With distinct keys, every entry is what a lookup of its key returns. */
  lemma {:induction false} LookupEntry<K, V>(d: seq<(K, V)>, k: K, v: V)
    requires DistinctKeys(d)
    requires (k, v) in d
    ensures Lookup(d, k) == Some(v)
    decreases |d|
  {
    if d[0].0 == k {
      var i :| 0 <= i < |d| && d[i] == (k, v);
      assert i == 0;
    } else {
      assert (k, v) in d[1..];
      LookupEntry(d[1..], k, v);
    }
  }
}
