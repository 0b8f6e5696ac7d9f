/** The Some/None type used where the program returns null, undefined or a value. */
module Options {
  datatype Option<+T> = None | Some(value: T)

  /** The value of a key, if the map has the key. */
  function Lookup<K, V>(m: map<K, V>, k: K): Option<V> {
    if k in m then Some(m[k]) else None
  }
}
