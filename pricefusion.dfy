/**
 * The fused reference price (server.js lines 261-268): once both external
 * quotes are set, their product is the raw mid price, and the mid price
 * follows it by exponential smoothing, starting at the raw value.
 */
module PriceFusion {
  import opened Config
  import opened Values

  /** The mid price after one recomputation with quotes `ext` (base/USDT) and `rate` (USDT/IDR). */
  function NextMid(mid: real, ext: Option<real>, rate: Option<real>): real {
    if Truthy(ext) && Truthy(rate) then
      var raw := ext.value * rate.value;
      Smooth(if mid == 0.0 then raw else mid, raw)
    else mid
  }

  /** Nothing changes until both quotes are set (and non-zero). */
  lemma MidWaitsForQuotes(mid: real, ext: Option<real>, rate: Option<real>)
    requires !(Truthy(ext) && Truthy(rate))
    ensures NextMid(mid, ext, rate) == mid
  {
  }

  /** The first recomputation sets the mid price to the product of the two quotes. */
  lemma MidStartsAtProduct(ext: Option<real>, rate: Option<real>)
    requires Truthy(ext) && Truthy(rate)
    ensures NextMid(0.0, ext, rate) == ext.value * rate.value
  {
  }

  /**
   * Afterwards the new mid price is a convex combination of the old one and
   * the product: it lies between them and closes PRICE_SMOOTHING of the gap.
   */
  lemma MidSmooths(mid: real, ext: Option<real>, rate: Option<real>)
    requires Truthy(ext) && Truthy(rate) && mid != 0.0
    ensures var raw := ext.value * rate.value;
            var m := NextMid(mid, ext, rate);
            && Min(mid, raw) <= m <= Max(mid, raw)
            && m - raw == (1.0 - PRICE_SMOOTHING) * (mid - raw)
  {
  }

  /** The mid price after `n` recomputations with unchanged quotes. */
  function Iterate(mid: real, ext: Option<real>, rate: Option<real>, n: nat): real {
    if n == 0 then mid else NextMid(Iterate(mid, ext, rate, n - 1), ext, rate)
  }

  /** One recomputation from a positive mid price with positive quotes whose product is `raw`. */
  lemma MidStep(prev: real, ext: Option<real>, rate: Option<real>, raw: real)
    requires ext.Some? && rate.Some? && ext.value > 0.0 && rate.value > 0.0 && prev > 0.0
    requires raw == ext.value * rate.value
    ensures NextMid(prev, ext, rate) > 0.0
    ensures NextMid(prev, ext, rate) - raw == (1.0 - PRICE_SMOOTHING) * (prev - raw)
  {
    assert raw > 0.0;
    assert Truthy(ext) && Truthy(rate);
    assert NextMid(prev, ext, rate) == Smooth(prev, raw);
  }

  /**
   * With positive quotes that stop moving, a positive mid price converges
   * geometrically on their product `raw`: after n recomputations the gap is
   * (1 - PRICE_SMOOTHING)^n of what it was, and the mid price stays positive.
   */
  lemma {:induction false} MidConverges(mid: real, ext: Option<real>, rate: Option<real>, raw: real, n: nat)
    requires ext.Some? && rate.Some? && ext.value > 0.0 && rate.value > 0.0 && mid > 0.0
    requires raw == ext.value * rate.value
    ensures Iterate(mid, ext, rate, n) > 0.0
    ensures Iterate(mid, ext, rate, n) - raw == Pow(1.0 - PRICE_SMOOTHING, n) * (mid - raw)
  {
    if n > 0 {
      MidConverges(mid, ext, rate, raw, n - 1);
      IterateStep(mid, ext, rate, raw, n);
      GapStep(Iterate(mid, ext, rate, n), Iterate(mid, ext, rate, n - 1), raw, mid, n);
    }
  }

  /** One more recomputation from a positive mid price closes PRICE_SMOOTHING of the gap and keeps it positive. */
  lemma IterateStep(mid: real, ext: Option<real>, rate: Option<real>, raw: real, n: nat)
    requires ext.Some? && rate.Some? && ext.value > 0.0 && rate.value > 0.0
    requires raw == ext.value * rate.value
    requires n > 0 && Iterate(mid, ext, rate, n - 1) > 0.0
    ensures Iterate(mid, ext, rate, n) > 0.0
    ensures Iterate(mid, ext, rate, n) - raw == (1.0 - PRICE_SMOOTHING) * (Iterate(mid, ext, rate, n - 1) - raw)
  {
    MidStep(Iterate(mid, ext, rate, n - 1), ext, rate, raw);
  }

  /**
   * The inductive step of the convergence: if the previous gap is
   * (1 - PRICE_SMOOTHING)^(n-1) times the first and the smoothing closes
   * PRICE_SMOOTHING of it, the next gap is (1 - PRICE_SMOOTHING)^n times the first.
   */
  lemma GapStep(next: real, prev: real, raw: real, mid: real, n: nat)
    requires n > 0
    requires next - raw == (1.0 - PRICE_SMOOTHING) * (prev - raw)
    requires prev - raw == Pow(1.0 - PRICE_SMOOTHING, n - 1) * (mid - raw)
    ensures next - raw == Pow(1.0 - PRICE_SMOOTHING, n) * (mid - raw)
  {
    var p := Pow(1.0 - PRICE_SMOOTHING, n - 1);
    assert Pow(1.0 - PRICE_SMOOTHING, n) == (1.0 - PRICE_SMOOTHING) * p;
    assert next - raw == (1.0 - PRICE_SMOOTHING) * (p * (mid - raw));
  }
}
