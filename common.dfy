/** Small shared vocabulary: an optional value and ordered string-keyed tables. */
module Wrappers {

  /** A value that may be absent (JavaScript's `undefined` / `null`). */
  datatype Option<+T> = None | Some(value: T)
}

/**
 * A JavaScript object literal used as a dictionary keeps its keys in insertion
 * order (`Object.keys`), so it is modelled as a sequence of key/value pairs in
 * source order.
 */
module Tables {
  import opened Wrappers

  /** True when `key` occurs as a key of `t`. */
  predicate HasKey<V>(t: seq<(string, V)>, key: string) {
    exists i :: 0 <= i < |t| && t[i].0 == key
  }

  /** No key occurs twice, as in an object literal. */
  predicate DistinctKeys<V>(t: seq<(string, V)>) {
    forall i, j :: 0 <= i < j < |t| ==> t[i].0 != t[j].0
  }

  /**
   * A number fixed by a key's first two characters (and, for shorter keys, its
   * length): keys with different codes are different keys.
   */
  function KeyCode(k: string): int {
    if |k| == 0 then 0 else if |k| == 1 then k[0] as int else 65536 * (k[0] as int + 1) + k[1] as int
  }

  /** `t[key]`: the value stored under `key`, if any (the first entry with that key). */
  function Lookup<V>(t: seq<(string, V)>, key: string): (r: Option<V>)
    ensures r.None? <==> !HasKey(t, key)
    ensures r.Some? ==> exists i :: 0 <= i < |t| && t[i].0 == key && t[i].1 == r.value
  {
    LookupFrom(t, key, 0)
  }

  /** The first entry at or after position `from` whose key is `key`. */
  function LookupFrom<V>(t: seq<(string, V)>, key: string, from: nat): (r: Option<V>)
    requires from <= |t|
    ensures r.None? <==> forall i :: from <= i < |t| ==> t[i].0 != key
    ensures r.Some? ==> exists i :: (from <= i < |t| && t[i].0 == key && t[i].1 == r.value
      && forall j :: from <= j < i ==> t[j].0 != key)
    decreases |t| - from
  {
    if from == |t| then None
    else if t[from].0 == key then Some(t[from].1)
    else LookupFrom(t, key, from + 1)
  }

  /** With distinct keys, the value found under a key is the one stored at its entry. */
  lemma LookupDistinct<V>(t: seq<(string, V)>, i: nat)
    requires DistinctKeys(t) && i < |t|
    ensures Lookup(t, t[i].0) == Some(t[i].1)
  {
  }
}
