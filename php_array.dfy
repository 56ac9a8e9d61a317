/**
 * PHP arrays with string keys, as the request variables and the list-table
 * columns are: entries kept in insertion order, each key at most once.
 */
module PhpArray {
  import opened Wrappers

  type Entries<V> = seq<(string, V)>

  /** `$a[k]` when `isset`, None otherwise. */
  function Get<V>(a: Entries<V>, k: string): Option<V> {
    if a == [] then None
    else if a[0].0 == k then Some(a[0].1)
    else Get(a[1..], k)
  }

  predicate HasKey<V>(a: Entries<V>, k: string) {
    Get(a, k).Some?
  }

  /** Every PHP array has this shape: no key occurs twice. */
  predicate DistinctKeys<V>(a: Entries<V>) {
    a == [] || (!HasKey(a[1..], a[0].0) && DistinctKeys(a[1..]))
  }

  /** The keys of `a`, in order. */
  function Keys<V>(a: Entries<V>): (ks: seq<string>)
    ensures |ks| == |a| && forall i :: 0 <= i < |a| ==> ks[i] == a[i].0
  {
    if a == [] then [] else [a[0].0] + Keys(a[1..])
  }

  /**
   * `$a[k] = v`: an existing entry is overwritten where it stands, a new key
   * goes to the end; no other key is touched.
   */
  function Set<V>(a: Entries<V>, k: string, v: V): (r: Entries<V>)
    requires DistinctKeys(a)
    ensures DistinctKeys(r)
    ensures Get(r, k) == Some(v)
    ensures forall j :: j != k ==> Get(r, j) == Get(a, j)
    ensures HasKey(a, k) ==> Keys(r) == Keys(a)
    ensures !HasKey(a, k) ==> r == a + [(k, v)]
  {
    if a == [] then [(k, v)]
    else if a[0].0 == k then [(k, v)] + a[1..]
    else [a[0]] + Set(a[1..], k, v)
  }

  /**
   * `array_merge(a, b)` for string keys: the entries of `b` are set into `a`
   * one after the other.
   */
  function Merge<V>(a: Entries<V>, b: Entries<V>): (r: Entries<V>)
    requires DistinctKeys(a) && DistinctKeys(b)
    ensures DistinctKeys(r)
    ensures forall k :: Get(r, k) == if HasKey(b, k) then Get(b, k) else Get(a, k)
    ensures |a| <= |r| && Keys(r)[..|a|] == Keys(a)
    decreases |b|
  {
    if b == [] then a
    else
      var a' := Set(a, b[0].0, b[0].1);
      assert Keys(a')[..|a|] == Keys(a);
      Merge(a', b[1..])
  }
}
