/** A Python dict keyed by strings: insertion-ordered, and a repeated key keeps its first place
    but takes the last value. */
module PyDict {
  import opened Wrappers

  type Dict<V> = seq<(string, V)>

  function Get<V>(d: Dict<V>, key: string): Option<V> {
    if d == [] then None
    else if d[0].0 == key then Some(d[0].1)
    else Get(d[1..], key)
  }

  function Put<V>(d: Dict<V>, key: string, value: V): (r: Dict<V>) {
    if d == [] then [(key, value)]
    else if d[0].0 == key then [(key, value)] + d[1..]
    else [d[0]] + Put(d[1..], key, value)
  }

  function FromPairs<V>(pairs: seq<(string, V)>): Dict<V> {
    if pairs == [] then []
    else
      var last := |pairs| - 1;
      Put(FromPairs(pairs[..last]), pairs[last].0, pairs[last].1)
  }

  ghost predicate DistinctKeys<V>(d: seq<(string, V)>) {
    forall i, j :: 0 <= i < j < |d| ==> d[i].0 != d[j].0
  }

  lemma {:induction false} PutFresh<V>(d: Dict<V>, key: string, value: V)
    requires forall e :: e in d ==> e.0 != key
    ensures Put(d, key, value) == d + [(key, value)]
  {
    if d != [] {
      assert d[0] in d;
      PutFresh(d[1..], key, value);
    }
  }

  /** Without repeated keys, building the dict keeps every pair in order. */
  lemma {:induction false} FromDistinct<V>(pairs: seq<(string, V)>)
    requires DistinctKeys(pairs)
    ensures FromPairs(pairs) == pairs
  {
    if pairs != [] {
      var last := |pairs| - 1;
      FromDistinct(pairs[..last]);
      PutFresh(pairs[..last], pairs[last].0, pairs[last].1);
      assert pairs == pairs[..last] + [pairs[last]];
    }
  }

  lemma {:induction false} GetDistinct<V>(d: Dict<V>, k: nat)
    requires DistinctKeys(d) && k < |d|
    ensures Get(d, d[k].0) == Some(d[k].1)
  {
    if k > 0 {
      GetDistinct(d[1..], k - 1);
      assert d[0].0 != d[k].0;
    }
  }

  lemma {:induction false} GetSome<V>(d: Dict<V>, key: string)
    requires Get(d, key).Some?
    ensures (key, Get(d, key).value) in d
  {
    if d[0].0 != key {
      GetSome(d[1..], key);
    }
  }
}
