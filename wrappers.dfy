/**
 * Helpers shared by every module of the model: an Option type, map lookup,
 * JavaScript truthiness of an optional string, and `startsWith`.
 */
module Wrappers {

  /** An optional value: `null`/`undefined` in the source become None. */
  datatype Option<+T> = None | Some(value: T) {
    function GetOr(default: T): T {
      match this
      case Some(v) => v
      case None => default
    }
  }

  /** The entry stored under `k`, if any (a `getItem`/`cookies.get` that may miss). */
  function Lookup<K, V>(m: map<K, V>, k: K): (r: Option<V>)
    ensures r.Some? <==> k in m
    ensures r.Some? ==> r.value == m[k]
  {
    if k in m then Some(m[k]) else None
  }

  /** JavaScript truthiness of an optional string: `undefined`, `null` and `''` are falsy. */
  predicate Truthy(v: Option<string>) {
    v.Some? && v.value != ""
  }

  /** `s.startsWith(prefix)`. */
  predicate StartsWith(s: string, prefix: string) {
    |prefix| <= |s| && s[..|prefix|] == prefix
  }
}
