// Maps and sequences as several parts of the model use them.
module Collections {
  import opened Options

  function At<K, V>(m: map<K, V>, k: K): Option<V> { if k in m then Some(m[k]) else None }

  // `s` without its first `x`.
  function Without<T(==)>(s: seq<T>, x: T): seq<T> {
    if s == [] then []
    else if s[0] == x then s[1..]
    else [s[0]] + Without(s[1..], x)
  }

  // Nothing but the entry of `k` differs.
  ghost predicate Only<K(!new), V(!new)>(k: K, before: map<K, V>, after: map<K, V>) {
    forall u: K :: u != k ==> At(after, u) == At(before, u)
  }
}
