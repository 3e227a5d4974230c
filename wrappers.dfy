/** Python's `None`-or-value, used for keys, items and the reported eviction. */
module Wrappers {

  datatype Option<+T> = None | Some(value: T)

  /** `dict.get(key, None)` on a key that may itself be `None`. */
  function Lookup<K, V>(m: map<K, V>, key: Option<K>): (r: Option<V>)
    ensures r.Some? <==> key.Some? && key.value in m
    ensures r.Some? ==> r.value == m[key.value]
  {
    if key.Some? && key.value in m then Some(m[key.value]) else None
  }

  function Min(a: int, b: int): (r: int)
    ensures r <= a && r <= b && (r == a || r == b)
  {
    if a <= b then a else b
  }
}
