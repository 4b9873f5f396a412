/** A Python `dict` with string keys: its entries in insertion order, each key
    once. Iteration order matters in the source (the last matching rule sets a
    transaction's alias; the overview lists groups in first-seen order), so the
    model keeps the order that a Dafny `map` would forget. */
module OrderedDict {
  import opened Common

  predicate UniqueKeys<V>(d: seq<(string, V)>) {
    forall i, j :: 0 <= i < j < |d| ==> d[i].0 != d[j].0
  }

  type Dict<V> = d: seq<(string, V)> | UniqueKeys(d) witness []

  /** `list(d)`: the keys in iteration order. */
  function Keys<V>(d: seq<(string, V)>): (r: seq<string>)
    ensures |r| == |d|
    ensures forall i :: 0 <= i < |d| ==> r[i] == d[i].0
  {
    seq(|d|, i requires 0 <= i < |d| => d[i].0)
  }

  /** `d.get(k)`. */
  function Get<V>(d: Dict<V>, k: string): (r: Option<V>)
    ensures r.Some? <==> k in Keys(d)
    ensures forall i :: 0 <= i < |d| && d[i].0 == k ==> r == Some(d[i].1)
  {
    if |d| == 0 then None
    else if d[0].0 == k then Some(d[0].1)
    else
      var r := Get(d[1..], k);
      assert forall i :: 1 <= i < |d| ==> d[1..][i - 1] == d[i];
      r
  }

  /** Where `k` sits in `d`. */
  function IndexOf<V>(d: Dict<V>, k: string): (i: nat)
    requires k in Keys(d)
    ensures i < |d| && d[i].0 == k
  {
    if d[0].0 == k then 0
    else
      assert k in Keys(d[1..]) by { assert forall j :: 1 <= j < |d| ==> Keys(d[1..])[j - 1] == d[j].0; }
      1 + IndexOf(d[1..], k)
  }

  /** `d[k] = v`: replaces the value in place if `k` is present, else appends. */
  function Put<V>(d: Dict<V>, k: string, v: V): (r: Dict<V>)
    ensures Keys(r) == if k in Keys(d) then Keys(d) else Keys(d) + [k]
    ensures Get(r, k) == Some(v)
    ensures forall j :: j != k ==> Get(r, j) == Get(d, j)
    ensures forall e :: e in r ==> e == (k, v) || e in d
  {
    if k in Keys(d) then
      var i := IndexOf(d, k);
      var r := d[i := (k, v)];
      assert forall m :: 0 <= m < |r| ==> r[m] == (k, v) || r[m] == d[m];
      assert Keys(r) == Keys(d);
      r
    else
      var r := d + [(k, v)];
      assert Keys(r) == Keys(d) + [k];
      r
  }

  lemma DeleteAt<V>(d: Dict<V>, i: nat)
    requires i < |d|
    ensures UniqueKeys(d[..i] + d[i + 1..])
    ensures Keys(d[..i] + d[i + 1..]) == Keys(d)[..i] + Keys(d)[i + 1..]
    ensures forall j :: j in Keys(d[..i] + d[i + 1..]) <==> j in Keys(d) && j != d[i].0
  {
    var r := d[..i] + d[i + 1..];
    assert forall j :: 0 <= j < |r| ==> r[j] == if j < i then d[j] else d[j + 1];
    assert Keys(r) == Keys(d)[..i] + Keys(d)[i + 1..];
    forall j | j in Keys(d) && j != d[i].0 ensures j in Keys(r) {
      var m :| 0 <= m < |d| && Keys(d)[m] == j;
      assert r[if m < i then m else m - 1].0 == j;
    }
  }

  /** The keys of `d` in order, `k` taken out. */
  function KeysLess<V>(d: Dict<V>, k: string): seq<string> {
    if k in Keys(d) then Keys(d)[..IndexOf(d, k)] + Keys(d)[IndexOf(d, k) + 1..] else Keys(d)
  }

  /** `d.pop(k)` for a present key (the value popped is `Get(d, k)`), and
      `del d[k]`: the entry is removed, the others keep their order. */
  function Remove<V>(d: Dict<V>, k: string): (r: Dict<V>)
    ensures Get(r, k) == None
    ensures forall j :: j != k ==> Get(r, j) == Get(d, j)
    ensures forall j :: j in Keys(r) <==> j in Keys(d) && j != k
    ensures |r| == if k in Keys(d) then |d| - 1 else |d|
    ensures forall e :: e in r ==> e in d
    ensures Keys(r) == KeysLess(d, k)
    ensures k !in Keys(d) ==> r == d
  {
    if k in Keys(d) then
      var i := IndexOf(d, k);
      DeleteAt(d, i);
      var r: Dict<V> := d[..i] + d[i + 1..];
      assert forall j :: 0 <= j < |r| ==> r[j] == if j < i then d[j] else d[j + 1];
      r
    else d
  }
}
