/** An ordered PHP array with string keys, as a sequence of (key, value)
    entries.  Assigning to a key overwrites an existing key in its place and
    appends a new key at the end. */
module PhpArray {
  import opened Wrappers

  /** PHP keys are unique within one array. */
  ghost predicate DistinctKeys<V>(a: seq<(string, V)>)
  {
    forall i, j :: 0 <= i < j < |a| ==> a[i].0 != a[j].0
  }

  /** Position of the first entry with key `k`, or -1. */
  function IndexOf<V>(a: seq<(string, V)>, k: string): (i: int)
    ensures -1 <= i < |a|
    ensures 0 <= i ==> a[i].0 == k
    ensures forall j :: 0 <= j < |a| && (i < 0 || j < i) ==> a[j].0 != k
  {
    if a == [] then -1
    else if a[0].0 == k then 0
    else
      var i := IndexOf(a[1..], k);
      if i < 0 then -1 else i + 1
  }

  predicate HasKey<V>(a: seq<(string, V)>, k: string)
  {
    0 <= IndexOf(a, k)
  }

  /** The value stored under `k`, or None when `k` is not a key. */
  function Get<V>(a: seq<(string, V)>, k: string): Option<V>
  {
    var i := IndexOf(a, k);
    if i < 0 then None else Some(a[i].1)
  }

  /** Two arrays with the same key at every position find every key at the
      same position. */
  lemma SameKeysSameIndex<V>(a: seq<(string, V)>, b: seq<(string, V)>, k: string)
    requires |a| == |b|
    requires forall i :: 0 <= i < |a| ==> a[i].0 == b[i].0
    ensures IndexOf(a, k) == IndexOf(b, k)
  {
  }

  /** Assignment of `v` to key `k`. */
  function Put<V>(a: seq<(string, V)>, k: string, v: V): (r: seq<(string, V)>)
    ensures Get(r, k) == Some(v)
    ensures forall k' :: k' != k ==> Get(r, k') == Get(a, k')
    ensures HasKey(a, k) ==> |r| == |a| && forall i :: 0 <= i < |a| ==> r[i].0 == a[i].0
    ensures HasKey(a, k) ==> forall i :: 0 <= i < |a| && a[i].0 != k ==> r[i] == a[i]
    ensures !HasKey(a, k) ==> r == a + [(k, v)]
    ensures DistinctKeys(a) ==> DistinctKeys(r)
  {
    var i := IndexOf(a, k);
    if i < 0 then
      var r := a + [(k, v)];
      assert IndexOf(r, k) == |a| by {
        assert r[|a|].0 == k;
        assert forall j :: 0 <= j < |a| ==> r[j] == a[j];
      }
      assert forall k' :: k' != k ==> Get(r, k') == Get(a, k') by {
        forall k' | k' != k ensures Get(r, k') == Get(a, k') {
          SameKeysSameIndex(a, r[..|a|], k');
          assert r[..|a|] == a;
          IndexPrefix(r, |a|, k');
        }
      }
      r
    else
      var r := a[i := (k, v)];
      assert forall k' :: Get(r, k') == if k' == k then Some(v) else Get(a, k') by {
        forall k' ensures Get(r, k') == if k' == k then Some(v) else Get(a, k') {
          SameKeysSameIndex(a, r, k');
        }
      }
      r
  }

  /** When `k` is absent from a prefix, the index in the whole is the one in
      the rest; when it is found in the prefix, it is the same. */
  lemma IndexPrefix<V>(a: seq<(string, V)>, n: nat, k: string)
    requires n <= |a|
    ensures 0 <= IndexOf(a[..n], k) ==> IndexOf(a, k) == IndexOf(a[..n], k)
    ensures IndexOf(a[..n], k) < 0 && n + 1 == |a| && a[n].0 != k ==> IndexOf(a, k) < 0
  {
  }

  /** Assigning a key twice leaves the array as if only the second
      assignment had happened. */
  lemma PutTwice<V>(a: seq<(string, V)>, k: string, v1: V, v2: V)
    ensures Put(Put(a, k, v1), k, v2) == Put(a, k, v2)
  {
  }
}
