/**
 * A JavaScript object used as a dictionary with string keys that are not
 * array indices (Sleeper user ids are 18-digit numbers, beyond the index
 * range): `Object.keys` and `Object.values` list the keys in the order they
 * were first assigned, and assigning an existing key replaces its value in
 * place.
 */
module JsObject {

  datatype Dict<V> = Dict(keys: seq<string>, entries: map<string, V>)

  /** The key list holds every key once. */
  ghost predicate Valid<V>(d: Dict<V>) {
    (forall i :: 0 <= i < |d.keys| ==> d.keys[i] in d.entries) &&
    (forall k :: k in d.entries ==> k in d.keys) &&
    (forall i, j :: 0 <= i < j < |d.keys| ==> d.keys[i] != d.keys[j])
  }

  /** `{}`. */
  function Empty<V>(): (d: Dict<V>)
    ensures Valid(d) && d.entries == map[]
  {
    Dict([], map[])
  }

  /** `d[k] = v`: a new key goes last, an existing key keeps its place. */
  function Put<V>(d: Dict<V>, k: string, v: V): (r: Dict<V>)
    requires Valid(d)
    ensures Valid(r)
    ensures r.entries == d.entries[k := v]
    ensures k in d.entries ==> r.keys == d.keys
    ensures k !in d.entries ==> r.keys == d.keys + [k]
  {
    if k in d.entries then Dict(d.keys, d.entries[k := v]) else Dict(d.keys + [k], d.entries[k := v])
  }

  /** `Object.values(d)`. */
  function Values<V>(d: Dict<V>): (r: seq<V>)
    requires Valid(d)
    ensures |r| == |d.keys|
    ensures forall i :: 0 <= i < |r| ==> r[i] == d.entries[d.keys[i]]
  {
    seq(|d.keys|, i requires 0 <= i < |d.keys| => d.entries[d.keys[i]])
  }
}
