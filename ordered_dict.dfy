/**
  A Python dictionary as an insertion-ordered sequence of (key, value) entries.
  Lookup finds a key's entry; assignment replaces the value in place when the
  key is present and appends a new last entry otherwise, so `.items()` walks
  the entries in the order their keys were first inserted.
 */
module OrderedDict {
  import opened Wrappers

  type Dict<K, V> = seq<(K, V)>

  /** Position of the entry for `k`, or `|d|` when `k` has none. */
  function IndexOf<K(==, !new), V>(d: Dict<K, V>, k: K): (i: nat)
    ensures i <= |d|
    ensures i < |d| ==> d[i].0 == k
    ensures forall j :: 0 <= j < i ==> d[j].0 != k
  {
    if d == [] then 0 else if d[0].0 == k then 0 else 1 + IndexOf(d[1..], k)
  }

  /** The three facts IndexOf ensures pin the position down. */
  lemma IndexOfUnique<K(!new), V>(d: Dict<K, V>, k: K, i: nat)
    requires i <= |d|
    requires i < |d| ==> d[i].0 == k
    requires forall j :: 0 <= j < i ==> d[j].0 != k
    ensures IndexOf(d, k) == i
  {
  }

  predicate HasKey<K(==, !new), V>(d: Dict<K, V>, k: K) {
    IndexOf(d, k) < |d|
  }

  /** `d.get(k)`. */
  function Get<K(==, !new), V>(d: Dict<K, V>, k: K): (r: Option<V>)
    ensures r.Some? <==> exists j :: 0 <= j < |d| && d[j].0 == k
    ensures r.Some? ==> exists j :: 0 <= j < |d| && d[j] == (k, r.value) && forall i :: 0 <= i < j ==> d[i].0 != k
  {
    var i := IndexOf(d, k);
    if i < |d| then Some(d[i].1) else None
  }

  /** `d[k] = v`. */
  function Put<K(==, !new), V>(d: Dict<K, V>, k: K, v: V): (r: Dict<K, V>)
    ensures Get(r, k) == Some(v)
    ensures forall k' :: k' != k ==> Get(r, k') == Get(d, k')
    ensures |r| == if HasKey(d, k) then |d| else |d| + 1
    ensures forall j :: 0 <= j < |d| ==> r[j].0 == d[j].0
    ensures HasKey(d, k) ==> r[IndexOf(d, k)] == (k, v)
    ensures forall j :: 0 <= j < |d| && j != IndexOf(d, k) ==> r[j] == d[j]
    ensures !HasKey(d, k) ==> r[|d|] == (k, v)
  {
    var i := IndexOf(d, k);
    var r := if i < |d| then d[i := (k, v)] else d + [(k, v)];
    IndexOfUnique(r, k, i);
    assert forall k' :: k' != k ==> Get(r, k') == Get(d, k') by {
      forall k' | k' != k ensures Get(r, k') == Get(d, k') {
        if HasKey(d, k') { IndexOfUnique(r, k', IndexOf(d, k')); } else { IndexOfUnique(r, k', |r|); }
      }
    }
    r
  }

  /** Assigning a key the dictionary lacks appends it as the last entry. */
  lemma PutAbsent<K(!new), V>(d: Dict<K, V>, k: K, v: V)
    requires !HasKey(d, k)
    ensures Put(d, k, v) == d + [(k, v)]
  {
  }

  /** Assigning a key the dictionary has replaces its entry where it stands. */
  lemma PutPresent<K(!new), V>(d: Dict<K, V>, k: K, v: V)
    requires HasKey(d, k)
    ensures Put(d, k, v) == d[IndexOf(d, k) := (k, v)]
  {
  }
}
