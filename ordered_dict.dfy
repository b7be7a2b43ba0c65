/** A plain JavaScript object used as a string-keyed dictionary: its own
    keys in insertion order (the order `Object.entries` lists them in) and
    the value stored under each. */
module OrderedDict {

  datatype Dict<V> = Dict(keys: seq<string>, values: map<string, V>) {

    /** Each key is listed once, and exactly the stored keys are listed. */
    ghost predicate Valid() {
      && (forall i, j :: 0 <= i < j < |keys| ==> keys[i] != keys[j])
      && (forall k :: k in values <==> k in keys)
    }
  }

  /** The object literal `{}`. */
  function Empty<V>(): (d: Dict<V>)
    ensures d.Valid() && d.keys == [] && d.values == map[]
  {
    Dict([], map[])
  }

  /** The assignment `d[k] = v`: a new key goes to the end of the key order,
      an existing key keeps its place and has its value overwritten. */
  function Put<V>(d: Dict<V>, k: string, v: V): (r: Dict<V>)
    ensures r.values.Keys == d.values.Keys + {k}
    ensures r.values[k] == v
    ensures forall j :: j in d.values && j != k ==> r.values[j] == d.values[j]
    ensures |r.keys| == |d.keys| + (if k in d.values then 0 else 1)
    ensures r.keys[..|d.keys|] == d.keys
    ensures k !in d.values ==> r.keys[|d.keys|] == k
  {
    Dict(if k in d.values then d.keys else d.keys + [k], d.values[k := v])
  }

  /** An assignment keeps each key listed once and exactly the stored keys
      listed. */
  lemma PutValid<V>(d: Dict<V>, k: string, v: V)
    requires d.Valid()
    ensures Put(d, k, v).Valid()
  {
  }

  /** Assigning twice to one key keeps only the second value: the
      dictionary holds one entry per key. */
  lemma PutOverwrites<V>(d: Dict<V>, k: string, v1: V, v2: V)
    ensures Put(Put(d, k, v1), k, v2) == Put(d, k, v2)
  {
  }
}
