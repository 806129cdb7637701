/** The optional value used wherever the program has a pointer, a comma-ok pair or a zero value meaning "none". */
module Optional {
  datatype Option<+T> = None | Some(value: T)

  /** The comma-ok read of a map. */
  function Lookup<K, V>(m: map<K, V>, k: K): Option<V> {
    if k in m then Some(m[k]) else None
  }

  /** The map with one entry set or taken out. */
  function Put<K, V>(m: map<K, V>, k: K, v: Option<V>): map<K, V> {
    match v
    case Some(x) => m[k := x]
    case None => m - {k}
  }
}
