/** The optional-value datatype the rest of the model uses for absent
    JavaScript properties and missing map entries. */
module Wrappers {

  datatype Option<+T> = None | Some(value: T)

  /** Looks `k` up in `m`, as `Map.prototype.get` does: absent keys give None. */
  function Get<K, V>(m: map<K, V>, k: K): (r: Option<V>)
    ensures r.Some? <==> k in m
    ensures r.Some? ==> r.value == m[k]
  {
    if k in m then Some(m[k]) else None
  }
}
