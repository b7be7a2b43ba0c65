/** A dictionary of lists with a "default to an empty list" push
    (src/awaken.ts). */
module Awaken {

  /** The caller's dictionary object `{ [key: string]: V[] }`, updated in place. */
  class ListDict<V> {
    var lists: map<string, seq<V>>

    constructor ()
      ensures lists == map[]
    {
      lists := map[];
    }
  }

  /** The dictionary after pushing `value` at `key`: the list at `key` gains
      `value` at its end, or is created holding only `value`; every other
      key keeps its list. */
  function Pushed<V>(m: map<string, seq<V>>, key: string, value: V): (r: map<string, seq<V>>)
    ensures r.Keys == m.Keys + {key}
    ensures key !in m ==> r[key] == [value]
    ensures key in m ==> |r[key]| == |m[key]| + 1 && r[key][..|m[key]|] == m[key]
    ensures r[key][|r[key]| - 1] == value
    ensures forall k :: k in m && k != key ==> r[k] == m[k]
  {
    if key in m then m[key := m[key] + [value]] else m[key := [value]]
  }

  /** Push `value` onto the list at `key`, creating the list on first use.
      A present list is pushed onto even when it is empty (an array is
      truthy), so only an absent key takes the creating branch. */
  method DefaultDictPush<V>(dict: ListDict<V>, key: string, value: V)
    modifies dict
    ensures dict.lists == Pushed(old(dict.lists), key, value)
    ensures key in old(dict.lists) ==> dict.lists[key] == old(dict.lists[key]) + [value]
  {
    if key in dict.lists {
      var existing := dict.lists[key];
      dict.lists := dict.lists[key := existing + [value]];
    } else {
      dict.lists := dict.lists[key := [value]];
    }
  }

  /** The lists after pushing each `(key, value)` pair of `pushes` in order. */
  function PushAll<V>(m: map<string, seq<V>>, pushes: seq<(string, V)>): map<string, seq<V>>
  {
    if pushes == [] then m
    else
      var last := pushes[|pushes| - 1];
      Pushed(PushAll(m, pushes[..|pushes| - 1]), last.0, last.1)
  }

  /** The values pushed at `key`, in the order they were pushed. */
  function ValuesAt<V>(pushes: seq<(string, V)>, key: string): seq<V>
  {
    if pushes == [] then []
    else
      var last := pushes[|pushes| - 1];
      ValuesAt(pushes[..|pushes| - 1], key) + (if last.0 == key then [last.1] else [])
  }

  /** The list at a key before any push: what is stored, or none. */
  function ListAt<V>(m: map<string, seq<V>>, key: string): seq<V>
  {
    if key in m then m[key] else []
  }

  /** Repeated pushes behave like Python's `defaultdict(list)`: the list at a
      key is what it held before followed by every value pushed at that key,
      in push order; a key is present afterwards exactly when it was present
      before or something was pushed at it. */
  lemma {:induction false} PushAllCollects<V>(m: map<string, seq<V>>, pushes: seq<(string, V)>, key: string)
    ensures key in PushAll(m, pushes) <==> key in m || exists i :: 0 <= i < |pushes| && pushes[i].0 == key
    ensures ListAt(PushAll(m, pushes), key) == ListAt(m, key) + ValuesAt(pushes, key)
  {
    if pushes != [] {
      var init := pushes[..|pushes| - 1];
      var last := pushes[|pushes| - 1];
      PushAllCollects(m, init, key);
      if key in m || exists i :: 0 <= i < |pushes| && pushes[i].0 == key {
        if key !in m && last.0 != key {
          var i :| 0 <= i < |pushes| && pushes[i].0 == key;
          assert init[i].0 == key;
        }
      } else {
        forall i | 0 <= i < |init| ensures init[i].0 != key {
          assert pushes[i] == init[i];
        }
      }
    }
  }
}
