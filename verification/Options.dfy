module Options {
  datatype Option<+T> = None | Some(value: T)

  function GetOr<K, V>(m: map<K, V>, k: K, default: V): V {
    if k in m then m[k] else default
  }
}
