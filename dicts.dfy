/** Insertion-ordered dictionaries with the semantics of Python's `dict`:
    assigning to a present key keeps its position, assigning to a new key
    appends it, deleting removes it, `update` assigns every key of the other
    dictionary in that dictionary's order. */
module Dicts {

  datatype Dict<K(!new), V> = Dict(keys: seq<K>, vals: map<K, V>) {

    /** Keys are listed once each, and exactly the keys that have a value are listed. */
    ghost predicate Valid() {
      && Distinct(keys)
      && (forall k :: k in vals <==> k in keys)
    }

    /** `d[k] = v` */
    function Put(k: K, v: V): (r: Dict<K, V>)
      ensures r.vals == vals[k := v]
      ensures k in vals ==> r.keys == keys
      ensures k !in vals ==> r.keys == keys + [k]
      ensures Valid() ==> r.Valid()
    {
      if k in vals then Dict(keys, vals[k := v]) else Dict(keys + [k], vals[k := v])
    }

    /** `del d[k]` for a present key (an absent key leaves the dictionary as it is). */
    function Remove(k: K): (r: Dict<K, V>)
      ensures r.vals == vals - {k}
      ensures forall x :: x in r.keys <==> x in keys && x != k
      ensures Valid() ==> r.Valid()
    {
      Dict(Without(keys, k), vals - {k})
    }

    /** `d.update(other)`: the values of `other` win on common keys. */
    function Update(other: Dict<K, V>): (r: Dict<K, V>)
      ensures other.Valid() ==> r.vals == vals + other.vals
      ensures Valid() ==> r.Valid()
    {
      PutAll(other.keys, other.vals)
    }

    /** Assigns `src[k]` for every `k` of `ks` that `src` holds, in order. */
    function PutAll(ks: seq<K>, src: map<K, V>): (r: Dict<K, V>)
      ensures forall k :: k in r.vals <==> k in vals || (k in ks && k in src)
      ensures forall k | k in r.vals :: r.vals[k] == if k in ks && k in src then src[k] else vals[k]
      ensures Valid() ==> r.Valid()
      decreases |ks|
    {
      if ks == [] then this
      else (if ks[0] in src then Put(ks[0], src[ks[0]]) else this).PutAll(ks[1..], src)
    }
  }

  /** `d.items()`, in key order. */
  function ItemsOf<K(!new), V>(ks: seq<K>, m: map<K, V>): (r: seq<(K, V)>)
    ensures (forall k | k in ks :: k in m) ==> |r| == |ks| && forall i | 0 <= i < |r| :: r[i] == (ks[i], m[ks[i]])
    decreases |ks|
  {
    if ks == [] then []
    else
      var init := ItemsOf(ks[..|ks| - 1], m);
      var k := ks[|ks| - 1];
      init + (if k in m then [(k, m[k])] else [])
  }

  function Empty<K(!new), V>(): (r: Dict<K, V>)
    ensures r.Valid() && r.keys == [] && r.vals == map[]
  {
    Dict([], map[])
  }

  /** The keys of `s` other than `k`, in order. */
  function Without<K(==,!new)>(s: seq<K>, k: K): (r: seq<K>)
    ensures forall x :: x in r <==> x in s && x != k
    ensures Distinct(s) ==> Distinct(r)
  {
    if s == [] then []
    else if s[0] == k then Without(s[1..], k)
    else
      var rest := Without(s[1..], k);
      assert forall x :: x in [s[0]] + rest <==> x == s[0] || x in rest;
      assert Distinct(s) ==> s[0] !in s[1..];
      [s[0]] + rest
  }

  /** Each element is listed once. */
  ghost predicate Distinct<K>(s: seq<K>) {
    forall i, j | 0 <= i < j < |s| :: s[i] != s[j]
  }

  /** A well-formed dictionary lists no keys exactly when it holds no values. */
  lemma EmptyKeys<K(!new), V>(d: Dict<K, V>)
    requires d.Valid()
    ensures d.keys == [] <==> d.vals == map[]
  {
    assert |d.keys| > 0 ==> d.keys[0] in d.vals;
  }

  /** The value written by `d[k] = v` just before `del d[k]` is gone again, and so
      is `k`: the pair has the effect of the deletion alone. */
  lemma RemoveAfterPut<K(!new), V>(d: Dict<K, V>, k: K, v: V)
    requires d.Valid() && k in d.vals
    ensures d.Put(k, v).Remove(k) == d.Remove(k)
  {
  }

  /** Updating with `b` and then with `c` is updating with `c` alone when every
      key of `b` is a key of `c` (the values of `c` override those of `b`). */
  lemma UpdateAbsorbed<K(!new), V>(a: Dict<K, V>, b: Dict<K, V>, c: Dict<K, V>)
    requires b.Valid() && c.Valid()
    requires b.vals.Keys <= c.vals.Keys
    ensures a.Update(b).Update(c).vals == a.Update(c).vals
  {
    var ab := a.Update(b);
    assert ab.vals == a.vals + b.vals;
    MergeAbsorbed(a.vals, b.vals, c.vals);
  }

  /** Merging `b` and then `c` is merging `c` alone when every key of `b` is a key of `c`. */
  lemma MergeAbsorbed<K, V>(a: map<K, V>, b: map<K, V>, c: map<K, V>)
    requires b.Keys <= c.Keys
    ensures (a + b) + c == a + c
  {
  }
}
