/** Small shared vocabulary: optional values, results and map lookups. */
module Common {

  datatype Option<+T> = None | Some(value: T)

  datatype Result<+T, +E> = Ok(value: T) | Err(error: E)

  /** The value stored under `k`, the way `dict.get(k)` reads it. */
  function Get<K, V>(m: map<K, V>, k: K): Option<V> {
    if k in m then Some(m[k]) else None
  }

  /** `m` with `k` bound to `v`, or without `k` when `v` is `None`. */
  function Put<K(!new), V>(m: map<K, V>, k: K, v: Option<V>): (r: map<K, V>)
    ensures Get(r, k) == v
    ensures forall x :: x != k ==> Get(r, x) == Get(m, x)
  {
    match v
    case Some(x) => m[k := x]
    case None => m - {k}
  }

  /** Two maps that answer every lookup alike are the same map. */
  lemma SameLookups<K(!new), V>(a: map<K, V>, b: map<K, V>)
    requires forall k :: Get(a, k) == Get(b, k)
    ensures a == b
  {
    forall k | k in a
      ensures k in b && a[k] == b[k]
    {
      assert Get(a, k) == Get(b, k);
    }
    forall k | k in b
      ensures k in a
    {
      assert Get(a, k) == Get(b, k);
    }
    assert a.Keys == b.Keys;
  }
}
