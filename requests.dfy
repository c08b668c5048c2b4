/** Validation of a market-order request (server.js lines 196-199). */
module Requests {
  import opened Values
  import opened Book

  /** A validated taker order. */
  datatype Order = Order(side: Side, size: real)

  /**
   * The request check: the side must be "buy" or "sell" and the parsed
   * quantity a number that is truthy and positive; anything else is rejected
   * with the error "invalid".
   */
  function Validate(side: string, qty: Option<real>): (r: Result<Order, string>)
    ensures r.Success? <==> (side == "buy" || side == "sell") && qty.Some? && qty.value > 0.0
    ensures r.Success? ==> r.value.size == qty.value && r.value.size > 0.0
    ensures r.Success? ==> (r.value.side == Buy <==> side == "buy")
    ensures r.Failure? ==> r.error == "invalid"
  {
    if side !in ["buy", "sell"] || !Truthy(qty) || qty.value <= 0.0 then Failure("invalid")
    else Success(Order(if side == "buy" then Buy else Sell, qty.value))
  }
}
