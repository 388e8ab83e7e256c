/**
 * The own string-keyed properties of a JavaScript object, in the order that `Object.keys`,
 * `_.forEach` and `_.filter` visit them: assigning to an existing property keeps its place
 * and replaces its value, assigning to a new property appends it.
 */
module OrderedDict {
  import opened Wrappers

  datatype Entry<V> = Entry(key: string, value: V)

  type Dict<V> = seq<Entry<V>>

  predicate DistinctKeys<V>(d: Dict<V>)
  {
    forall i, j :: 0 <= i < j < |d| ==> d[i].key != d[j].key
  }

  function Keys<V>(d: Dict<V>): (ks: seq<string>)
    ensures |ks| == |d|
    ensures forall i :: 0 <= i < |d| ==> ks[i] == d[i].key
  {
    if |d| == 0 then [] else Keys(d[..|d| - 1]) + [d[|d| - 1].key]
  }

  function Values<V>(d: Dict<V>): (vs: seq<V>)
    ensures |vs| == |d|
    ensures forall i :: 0 <= i < |d| ==> vs[i] == d[i].value
  {
    if |d| == 0 then [] else Values(d[..|d| - 1]) + [d[|d| - 1].value]
  }

  /** The position of property `k`, or -1 when the object has no such property. */
  function IndexOf<V>(d: Dict<V>, k: string): (r: int)
    ensures -1 <= r < |d|
    ensures r >= 0 ==> d[r].key == k
    ensures forall j :: 0 <= j < |d| && (r < 0 || j < r) ==> d[j].key != k
  {
    if |d| == 0 then -1
    else if d[0].key == k then 0
    else
      var r := IndexOf(d[1..], k);
      if r < 0 then -1 else r + 1
  }

  /** `obj[k]`, with `undefined` read as `None`. */
  function Get<V>(d: Dict<V>, k: string): Option<V>
  {
    var i := IndexOf(d, k);
    if i < 0 then None else Some(d[i].value)
  }

  /** `obj[k] = v`. */
  function Put<V>(d: Dict<V>, k: string, v: V): (r: Dict<V>)
    ensures Get(r, k) == Some(v)
    ensures forall k' :: k' != k ==> Get(r, k') == Get(d, k')
    ensures DistinctKeys(d) ==> DistinctKeys(r)
  {
    var i := IndexOf(d, k);
    if i < 0 then
      AppendFacts(d, k, v);
      d + [Entry(k, v)]
    else
      ReplaceFacts(d, k, v, i);
      d[i := Entry(k, v)]
  }

  /** Appending a new key: it reads its value, and the other keys are found where they were. */
  lemma AppendFacts<V>(d: Dict<V>, k: string, v: V)
    requires IndexOf(d, k) < 0
    ensures Get(d + [Entry(k, v)], k) == Some(v)
    ensures forall k' :: k' != k ==> Get(d + [Entry(k, v)], k') == Get(d, k')
    ensures DistinctKeys(d) ==> DistinctKeys(d + [Entry(k, v)])
  {
    var r := d + [Entry(k, v)];
    assert forall j :: 0 <= j < |d| ==> r[j] == d[j];
    assert r[|d|].key == k;
    assert IndexOf(r, k) == |d|;
    forall k' | k' != k ensures Get(r, k') == Get(d, k') {
      IndexOfSameKeys(d, r, k', |d|);
    }
  }

  /** Replacing the value of the key at `i`: the other keys are found where they were. */
  lemma ReplaceFacts<V>(d: Dict<V>, k: string, v: V, i: int)
    requires i == IndexOf(d, k) && i >= 0
    ensures Get(d[i := Entry(k, v)], k) == Some(v)
    ensures forall k' :: k' != k ==> Get(d[i := Entry(k, v)], k') == Get(d, k')
    ensures DistinctKeys(d) ==> DistinctKeys(d[i := Entry(k, v)])
  {
    var r := d[i := Entry(k, v)];
    IndexOfSameKeys(d, r, k, |d|);
    forall k' | k' != k ensures Get(r, k') == Get(d, k') {
      IndexOfSameKeys(d, r, k', |d|);
    }
  }

  /** An existing property keeps its place; a new one is appended. */
  lemma PutKeys<V>(d: Dict<V>, k: string, v: V)
    ensures Keys(Put(d, k, v)) == if Get(d, k).Some? then Keys(d) else Keys(d) + [k]
    ensures Get(d, k).None? ==> Put(d, k, v) == d + [Entry(k, v)]
  {
  }

  /**
   * Two dictionaries whose first `n` keys agree, and whose other keys (if any) are never `k`,
   * find `k` at the same position.
   */
  lemma IndexOfSameKeys<V>(d: Dict<V>, e: Dict<V>, k: string, n: nat)
    requires n <= |d| && n <= |e|
    requires forall j :: 0 <= j < n ==> d[j].key == e[j].key
    requires forall j :: n <= j < |d| ==> d[j].key != k
    requires forall j :: n <= j < |e| ==> e[j].key != k
    ensures IndexOf(d, k) == IndexOf(e, k)
  {
    var a, b := IndexOf(d, k), IndexOf(e, k);
    assert a >= 0 ==> a < n;
    assert b >= 0 ==> b < n;
  }

  /** A key is found exactly when it is one of the keys. */
  lemma GetSomeIffKey<V>(d: Dict<V>, k: string)
    ensures Get(d, k).Some? <==> k in Keys(d)
  {
    if k in Keys(d) {
      var i :| 0 <= i < |d| && Keys(d)[i] == k;
      assert d[i].key == k;
    }
  }

  /** With distinct keys, the entry at position `i` is what its key looks up. */
  lemma GetAt<V>(d: Dict<V>, i: nat)
    requires DistinctKeys(d) && i < |d|
    ensures Get(d, d[i].key) == Some(d[i].value)
  {
    assert IndexOf(d, d[i].key) == i;
  }

  /** Every stored value is found under some key. */
  lemma KeyOfValue<V>(d: Dict<V>, v: V) returns (k: string)
    requires DistinctKeys(d) && v in Values(d)
    ensures Get(d, k) == Some(v)
  {
    var a :| 0 <= a < |d| && Values(d)[a] == v;
    k := d[a].key;
    GetAt(d, a);
  }
}
