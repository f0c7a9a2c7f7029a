/** The JavaScript `Map` with numeric keys: a finite map that iterates its keys in the order
    they were first inserted. Re-setting a present key keeps its position;
    deleting a key drops it from the order. */
module OrderedMaps {
  import opened Js

  datatype Rep<V> = Rep(keys: seq<int>, entries: map<int, V>)

  /** The keys in iteration order are exactly the keys of the map, once each. */
  ghost predicate WellFormed<V>(m: Rep<V>) {
    && Distinct(m.keys)
    && (forall k :: k in m.entries <==> k in m.keys)
    && (forall i :: 0 <= i < |m.keys| ==> m.keys[i] in m.entries)
  }

  type OMap<V> = m: Rep<V> | WellFormed(m) witness Rep([], map[])

  function Empty<V>(): (r: OMap<V>)
    ensures r.keys == [] && r.entries == map[]
  {
    Rep([], map[])
  }

  /** `m.set(k, v)`. */
  function Set<V>(m: OMap<V>, k: int, v: V): (r: OMap<V>)
    ensures r.entries == m.entries[k := v]
    ensures k in m.entries ==> r.keys == m.keys
    ensures k !in m.entries ==> r.keys == m.keys + [k]
  {
    if k in m.entries then Rep(m.keys, m.entries[k := v])
    else Rep(m.keys + [k], m.entries[k := v])
  }

  /** `s` without the occurrences of `k`, in the same order. */
  function RemoveKey(s: seq<int>, k: int): (r: seq<int>)
    ensures forall x :: x in r <==> x in s && x != k
    ensures Distinct(s) ==> Distinct(r)
    ensures |r| <= |s|
  {
    if s == [] then []
    else if s[0] == k then RemoveKey(s[1..], k)
    else
      var rest := RemoveKey(s[1..], k);
      assert Distinct(s) ==> s[0] !in s[1..];
      [s[0]] + rest
  }

  /** `m.delete(k)`. */
  function Delete<V>(m: OMap<V>, k: int): (r: OMap<V>)
    ensures r.entries == m.entries - {k}
    ensures r.keys == RemoveKey(m.keys, k)
  {
    var keys := RemoveKey(m.keys, k);
    assert forall i :: 0 <= i < |keys| ==> keys[i] in keys;
    Rep(keys, m.entries - {k})
  }

  /** `[...m.values()]`: the values in key order. */
  function Values<V>(m: OMap<V>): (r: seq<V>)
    ensures |r| == |m.keys|
    ensures forall i :: 0 <= i < |r| ==> r[i] == m.entries[m.keys[i]]
  {
    seq(|m.keys|, i requires 0 <= i < |m.keys| => m.entries[m.keys[i]])
  }

  /** Every value of the map occurs among its iterated values. */
  lemma ValuesCover<V>(m: OMap<V>, k: int)
    requires k in m.entries
    ensures m.entries[k] in Values(m)
  {
    var i :| 0 <= i < |m.keys| && m.keys[i] == k;
    assert Values(m)[i] == m.entries[k];
  }

  /** A second update of the same key overrides the first. */
  lemma UpdateTwice<V>(m: map<int, V>, k: int, a: V, b: V)
    ensures m[k := a][k := b] == m[k := b]
  {
  }
}
