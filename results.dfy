/**
 * The `OrderedDict` that holds the scraped versions, as the sequence of its
 * (name, value) entries in insertion order.
 */
module OrderedDicts {
  import opened Options

  type Dict = seq<(string, string)>

  /** The keys in iteration order. */
  function Keys(m: Dict): (ks: seq<string>)
    ensures |ks| == |m| && forall i :: 0 <= i < |m| ==> ks[i] == m[i].0
  {
    seq(|m|, i requires 0 <= i < |m| => m[i].0)
  }

  /** A dict never holds a key twice. */
  predicate DistinctKeys(m: Dict) {
    forall i, j :: 0 <= i < j < |m| ==> m[i].0 != m[j].0
  }

  /** Where `k` sits in `m`, or `|m|` when it is absent. */
  function KeyIndex(m: Dict, k: string): (i: nat)
    ensures i <= |m|
    ensures i < |m| ==> m[i].0 == k
    ensures forall j :: 0 <= j < i ==> m[j].0 != k
    decreases |m|
  {
    if m == [] then 0
    else if m[0].0 == k then 0
    else 1 + KeyIndex(m[1..], k)
  }

  /** `m[k]`, or None where Python raises KeyError. */
  function Get(m: Dict, k: string): (r: Option<string>)
    ensures r.None? <==> k !in Keys(m)
    ensures r.Some? ==> (k, r.value) in m
  {
    var i := KeyIndex(m, k);
    if i < |m| then Some(m[i].1) else None
  }

  /** In a dict with distinct keys, looking up the key at `i` gives the value at `i`. */
  lemma GetAt(m: Dict, i: nat)
    requires DistinctKeys(m) && i < |m|
    ensures Get(m, m[i].0) == Some(m[i].1)
  {
  }

  /** A key absent from `m` is found at the end of `m` extended by it. */
  lemma KeyIndexAppended(m: Dict, k: string, v: string)
    requires KeyIndex(m, k) == |m|
    ensures KeyIndex(m + [(k, v)], k) == |m|
  {
    var r := m + [(k, v)];
    assert r[|m|].0 == k;
    assert forall j :: 0 <= j < |m| ==> r[j] == m[j];
  }

  /**
   * `m[k] = v`: an existing key keeps its position and takes the new value;
   * a new key is appended at the end.
   */
  function Assign(m: Dict, k: string, v: string): (r: Dict)
    ensures Keys(r) == if k in Keys(m) then Keys(m) else Keys(m) + [k]
    ensures forall j :: 0 <= j < |m| && m[j].0 != k ==> r[j] == m[j]
    ensures Get(r, k) == Some(v)
    ensures k !in Keys(m) ==> r == m + [(k, v)]
    ensures DistinctKeys(m) ==> DistinctKeys(r)
  {
    var i := KeyIndex(m, k);
    if i < |m| then
      var r := m[i := (k, v)];
      assert Keys(r) == Keys(m);
      r
    else
      var r := m + [(k, v)];
      assert Keys(r) == Keys(m) + [k];
      KeyIndexAppended(m, k, v);
      r
  }
}
