/** Values shared by the three store managers and the pipeline. */
module Common {

  /** Python's `None`-or-value. */
  datatype Option<+T> = None | Some(value: T)

  /** A value, or the error a call raised instead of returning it. */
  datatype Result<+T, +E> = Success(value: T) | Failure(error: E)

  function Min(a: nat, b: nat): (m: nat)
    ensures m <= a && m <= b && (m == a || m == b)
  {
    if a <= b then a else b
  }

  /** The map `m'` agrees with `m` on every key other than `key`. */
  ghost predicate OnlyChangedAt<K(!new), V>(m: map<K, V>, m': map<K, V>, key: K)
  {
    forall k :: k != key ==> (k in m <==> k in m') && (k in m ==> m'[k] == m[k])
  }
}
