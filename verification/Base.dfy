/** Small shared types: optional and failing results, and the numbers a gauge can carry. */
module Base {

  datatype Option<+T> = None | Some(value: T)

  datatype Result<+R, +E> = Success(value: R) | Failure(error: E)

  /** A gauge value. The feeds are not range-checked, so NaN and the infinities are included;
      two gauge values are equal when they are the same value, NaN included. */
  datatype Float = Finite(number: real) | Infinite(negative: bool) | NaN

  const ZERO: Float := Finite(0.0)
  const ONE: Float := Finite(1.0)

  /** The value bound to a key, if any: a Go map read with its ok flag. */
  function Lookup<K, V>(m: map<K, V>, k: K): Option<V> {
    if k in m then Some(m[k]) else None
  }
}
