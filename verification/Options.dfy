/** The value or its absence, and looking a value up. */
module Options {
  datatype Option<+T> = None | Some(value: T)

  function Lookup<K, V>(m: map<K, V>, k: K): Option<V> {
    if k in m then Some(m[k]) else None
  }

  function LookupOr<K, V>(m: map<K, V>, k: K, absent: V): V {
    if k in m then m[k] else absent
  }
}
