/** An optional value: stands for a JavaScript property lookup that may yield undefined. */
module Optional {

  datatype Option<+T> = None | Some(value: T)

  /** The value stored under k, or None when k is not a key of m. */
  function Get<K, V>(m: map<K, V>, k: K): (r: Option<V>)
    ensures r.Some? <==> k in m
    ensures r.Some? ==> r.value == m[k]
  {
    if k in m then Some(m[k]) else None
  }
}
