/** What may be missing, and what collections hold. */
module Wrappers {
  datatype Option<+T> = None | Some(value: T)

  function Lookup<K, V>(m: map<K, V>, k: K): Option<V> {
    if k in m then Some(m[k]) else None
  }

  function Elements<T>(list: seq<T>): set<T> {
    set x | x in list
  }
}
