/**
 * A Python `dict` as the cogs use it: a finite map that remembers the order in
 * which its keys were first inserted. Re-assigning an existing key keeps its
 * place; `del` removes the key; iteration (and `list(d.keys())`) follows the
 * insertion order.
 */
module OrderedDict {
  import opened Wrappers

  datatype Dict<K(==, !new), V> = Dict(keys: seq<K>, values: map<K, V>)

  ghost predicate Distinct<K>(s: seq<K>) {
    forall i, j :: 0 <= i < j < |s| ==> s[i] != s[j]
  }

  /** The key list lists every key of the map exactly once. */
  ghost predicate Valid<K(!new), V>(d: Dict<K, V>) {
    && Distinct(d.keys)
    && (forall k :: k in d.values <==> k in d.keys)
  }

  function Empty<K(==, !new), V>(): (d: Dict<K, V>)
    ensures Valid(d) && d.keys == [] && d.values == map[]
  {
    Dict([], map[])
  }

  /** `d.get(k)`: the value stored under `k`, or None. */
  function Get<K(==, !new), V>(d: Dict<K, V>, k: K): (r: Option<V>)
    ensures r.Some? <==> k in d.values
    ensures r.Some? ==> r.value == d.values[k]
  {
    if k in d.values then Some(d.values[k]) else None
  }

  /** `d[k] = v`: a new key goes to the end of the order, an existing one keeps its place. */
  function Put<K(==, !new), V>(d: Dict<K, V>, k: K, v: V): (r: Dict<K, V>)
    ensures r.values == d.values[k := v]
    ensures k in d.values ==> r.keys == d.keys
    ensures k !in d.values ==> r.keys == d.keys + [k]
  {
    if k in d.values then Dict(d.keys, d.values[k := v])
    else Dict(d.keys + [k], d.values[k := v])
  }

  /** The sequence `s` with every occurrence of `k` left out, the rest in order. */
  function Without<K(==, !new)>(s: seq<K>, k: K): (r: seq<K>)
    ensures |r| <= |s|
  {
    if s == [] then []
    else if s[0] == k then Without(s[1..], k)
    else [s[0]] + Without(s[1..], k)
  }

  /** `del d[k]`, for a key that is present (a missing key raises KeyError in the caller's model). */
  function Remove<K(==, !new), V>(d: Dict<K, V>, k: K): (r: Dict<K, V>)
    requires k in d.values
    ensures r.values == d.values - {k}
    ensures r.keys == Without(d.keys, k)
  {
    Dict(Without(d.keys, k), d.values - {k})
  }

  /** Leaving out `k` keeps exactly the other elements, and keeps them distinct. */
  lemma {:induction false} WithoutKeepsOthers<K(!new)>(s: seq<K>, k: K)
    ensures forall x :: x in Without(s, k) <==> x in s && x != k
    ensures Distinct(s) ==> Distinct(Without(s, k))
  {
    if s != [] {
      WithoutKeepsOthers(s[1..], k);
      assert s == [s[0]] + s[1..];
      if Distinct(s) {
        assert Distinct(s[1..]);
        assert s[0] !in s[1..];
      }
    }
  }

  /** `d[k] = v` keeps the key list and the map in step. */
  lemma PutKeepsValid<K(!new), V>(d: Dict<K, V>, k: K, v: V)
    requires Valid(d)
    ensures Valid(Put(d, k, v))
  {
  }

  /** `del d[k]` keeps the key list and the map in step. */
  lemma RemoveKeepsValid<K(!new), V>(d: Dict<K, V>, k: K)
    requires Valid(d) && k in d.values
    ensures Valid(Remove(d, k))
  {
    WithoutKeepsOthers(d.keys, k);
  }

  /** Every entry of `small` is in `big` with the same value: entries were only dropped. */
  ghost predicate SubDict<K(!new), V>(small: Dict<K, V>, big: Dict<K, V>) {
    forall k :: k in small.values ==> k in big.values && small.values[k] == big.values[k]
  }
}
