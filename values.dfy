/** Small value types and arithmetic helpers shared by the model. */
module Values {
  import opened Config
  /** A JavaScript number that may be missing: `null` or `NaN` is `None`. */
  datatype Option<T> = None | Some(value: T)

  /** An answer or an error, for operations that reject their input. */
  datatype Result<T, E> = Success(value: T) | Failure(error: E)

  /** JavaScript truthiness of a number-or-null: `null`, `NaN` and `0` are falsy. */
  predicate Truthy(q: Option<real>) {
    q.Some? && q.value != 0.0
  }

  /** `Math.min` on two numbers. */
  function Min(a: real, b: real): (m: real)
    ensures m <= a && m <= b && (m == a || m == b)
  {
    if a <= b then a else b
  }

  /** `Math.max` on two numbers. */
  function Max(a: real, b: real): (m: real)
    ensures m >= a && m >= b && (m == a || m == b)
  {
    if a >= b then a else b
  }

  /** One exponential smoothing step: PRICE_SMOOTHING of the way from `current` to `target`. */
  function Smooth(current: real, target: real): real {
    current * (1.0 - PRICE_SMOOTHING) + target * PRICE_SMOOTHING
  }

  /** `Math.pow` with a natural exponent. */
  function Pow(g: real, n: nat): real {
    if n == 0 then 1.0 else g * Pow(g, n - 1)
  }

  lemma MulNonNegative(a: real, b: real)
    requires a >= 0.0 && b >= 0.0
    ensures a * b >= 0.0
  {
  }

  /** A mean `a` of `n` values summing to `sum` lies between their bounds. */
  lemma MeanBetween(a: real, n: real, sum: real, lo: real, hi: real)
    requires n > 0.0 && a * n == sum
    requires n * lo <= sum <= n * hi
    ensures lo <= a <= hi
  {
    assert (a - lo) * n >= 0.0;
    assert (hi - a) * n >= 0.0;
  }

  /** A growth factor above one raised to any power is at least one. */
  lemma {:induction false} PowAtLeastOne(g: real, n: nat)
    requires g > 1.0
    ensures Pow(g, n) >= 1.0
  {
    if n > 0 {
      PowAtLeastOne(g, n - 1);
    }
  }
}
