/**
 * The matching engine's sweep of one side of the book (server.js lines 96-121):
 * a market order eats the best level first, each fill takes the smaller of what
 * is left of the order and the level's quantity, and a level left with dust or
 * less is removed. `Sweep` states the whole loop as a function; the class
 * method that runs the loop on the live book is proved against it.
 */
module Matching {
  import opened Config
  import opened Values
  import opened Book

  /** One fill of a taker order at one level's price. */
  datatype Trade = Trade(price: real, qty: real, side: Side)

  /** What a sweep leaves behind: its fills in order, the side's remaining levels, and the unfilled quantity. */
  datatype SweepOutcome = SweepOutcome(fills: seq<Trade>, rest: seq<Level>, remain: real)

  /**
   * The matching loop over one side: while more than dust is left to fill and
   * the side is not empty, fill at the head level and drop it once it holds
   * dust or less.
   */
  function Sweep(levels: seq<Level>, remain: real, side: Side): (r: SweepOutcome)
    decreases |levels|, if remain > DUST then 1 else 0
  {
    if remain <= DUST || levels == [] then SweepOutcome([], levels, remain)
    else
      var take := Min(remain, levels[0].qty);
      var r := Sweep(AfterFill(levels, take), remain - take, side);
      SweepOutcome([Trade(levels[0].price, take, side)] + r.fills, r.rest, r.remain)
  }

  /** The side after `take` is filled at its head level: the head shrinks, and goes once it holds dust or less. */
  function AfterFill(levels: seq<Level>, take: real): (next: seq<Level>)
    requires levels != []
    ensures |next| <= |levels|
  {
    var left := levels[0].qty - take;
    if left <= DUST then levels[1..] else [levels[0].(qty := left)] + levels[1..]
  }

  /** One turn of the matching loop: a fill at the head level, then the sweep of what is left. */
  lemma SweepStep(levels: seq<Level>, remain: real, side: Side)
    requires !(remain <= DUST || levels == [])
    ensures var take := Min(remain, levels[0].qty);
            var r := Sweep(AfterFill(levels, take), remain - take, side);
            Sweep(levels, remain, side) == SweepOutcome([Trade(levels[0].price, take, side)] + r.fills, r.rest, r.remain)
  {
  }

  /**
   * The matching loop's invariant: the fills made so far followed by what a
   * sweep of the remaining side would fill are the fills of the whole sweep
   * `sw`, and that remaining sweep ends where `sw` ends.
   */
  ghost predicate SweptSoFar(fills: seq<Trade>, rest: seq<Level>, remain: real, side: Side, sw: SweepOutcome) {
    var r := Sweep(rest, remain, side);
    fills + r.fills == sw.fills && r.rest == sw.rest && r.remain == sw.remain
  }

  /** Before the first turn the invariant holds of the whole side. */
  lemma SweptNothing(levels: seq<Level>, size: real, side: Side)
    ensures SweptSoFar([], levels, size, side, Sweep(levels, size, side))
  {
    assert [] + Sweep(levels, size, side).fills == Sweep(levels, size, side).fills;
  }

  /** When the loop stops, what it filled and left is the outcome of the whole sweep. */
  lemma SweptAll(fills: seq<Trade>, rest: seq<Level>, remain: real, side: Side, sw: SweepOutcome)
    requires remain <= DUST || rest == []
    requires SweptSoFar(fills, rest, remain, side, sw)
    ensures fills == sw.fills && rest == sw.rest && remain == sw.remain
  {
    assert fills + [] == fills;
  }

  /** One turn of the matching loop keeps its invariant. */
  lemma SweepTurn(fills: seq<Trade>, rest: seq<Level>, remain: real, side: Side, sw: SweepOutcome)
    requires remain > DUST && rest != []
    requires SweptSoFar(fills, rest, remain, side, sw)
    ensures var take := Min(remain, rest[0].qty);
            SweptSoFar(fills + [Trade(rest[0].price, take, side)], AfterFill(rest, take), remain - take, side, sw)
  {
    var take := Min(remain, rest[0].qty);
    var r := Sweep(AfterFill(rest, take), remain - take, side);
    SweepStep(rest, remain, side);
    assert fills + ([Trade(rest[0].price, take, side)] + r.fills) == (fills + [Trade(rest[0].price, take, side)]) + r.fills;
  }

  /** Total quantity of a list of fills. */
  function QtySum(ts: seq<Trade>): real {
    if ts == [] then 0.0 else ts[0].qty + QtySum(ts[1..])
  }

  /** Total traded value, quantity times price, of a list of fills. */
  function Notional(ts: seq<Trade>): real {
    if ts == [] then 0.0 else ts[0].qty * ts[0].price + Notional(ts[1..])
  }

  /** The loop always stops with the order done (within dust) or the side empty. */
  lemma {:induction false} SweepStops(levels: seq<Level>, remain: real, side: Side)
    ensures var r := Sweep(levels, remain, side);
            r.remain <= DUST || r.rest == []
    decreases |levels|, if remain > DUST then 1 else 0
  {
    if !(remain <= DUST || levels == []) {
      var top := levels[0];
      var take := Min(remain, top.qty);
      var next := AfterFill(levels, take);
      SweepStops(next, remain - take, side);
    }
  }

  /** The fills add up to the quantity the order filled: `filled = size - remain`. */
  lemma {:induction false} SweepFilled(levels: seq<Level>, remain: real, side: Side)
    ensures var r := Sweep(levels, remain, side);
            QtySum(r.fills) == remain - r.remain
    decreases |levels|, if remain > DUST then 1 else 0
  {
    if !(remain <= DUST || levels == []) {
      var top := levels[0];
      var take := Min(remain, top.qty);
      var next := AfterFill(levels, take);
      SweepFilled(next, remain - take, side);
      var r := Sweep(next, remain - take, side);
      assert ([Trade(top.price, take, side)] + r.fills)[1..] == r.fills;
    }
  }

  /**
   * Against a live side, a sweep of a non-negative order never fills more than
   * was asked and never fills a negative quantity: every fill is positive.
   */
  lemma {:induction false} SweepBounded(levels: seq<Level>, remain: real, side: Side)
    requires Live(levels) && remain >= 0.0
    ensures var r := Sweep(levels, remain, side);
            && 0.0 <= r.remain <= remain
            && (forall i :: 0 <= i < |r.fills| ==> r.fills[i].qty > 0.0)
    decreases |levels|, if remain > DUST then 1 else 0
  {
    if !(remain <= DUST || levels == []) {
      var top := levels[0];
      var take := Min(remain, top.qty);
      var next := AfterFill(levels, take);
      assert Live(next);
      SweepBounded(next, remain - take, side);
    }
  }

  /**
   * The levels a sweep leaves behind, with k the number it removed: either
   * the untouched tail `levels[k..]`, or that tail with its head level reduced
   * to more than dust, same id and price.
   */
  lemma {:induction false} SweepRest(levels: seq<Level>, remain: real, side: Side)
    ensures RestOf(levels, Sweep(levels, remain, side).rest)
    decreases |levels|, if remain > DUST then 1 else 0
  {
    if !(remain <= DUST || levels == []) {
      var take := Min(remain, levels[0].qty);
      var next := AfterFill(levels, take);
      SweepRest(next, remain - take, side);
      var r' := Sweep(next, remain - take, side);
      assert Sweep(levels, remain, side).rest == r'.rest;
      if levels[0].qty - take <= DUST {
        RestShift(levels, next, r'.rest);
      } else {
        assert r' == SweepOutcome([], next, 0.0);
        RestPartial(levels, next, take);
      }
    }
  }

  /**
   * `rest` is what a sweep may leave of `levels`: with k = |levels| - |rest|
   * levels removed, the tail `levels[k..]` as it was, or with its head
   * reduced to more than dust.
   */
  ghost predicate RestOf(levels: seq<Level>, rest: seq<Level>) {
    |rest| <= |levels| &&
    (rest == levels[|levels| - |rest|..] || RestTouched(levels, rest, |levels| - |rest|))
  }

  /** A first fill that leaves more than dust at the head level leaves the side with its head reduced. */
  lemma RestPartial(levels: seq<Level>, next: seq<Level>, take: real)
    requires levels != [] && levels[0].qty - take > DUST
    requires next == [levels[0].(qty := levels[0].qty - take)] + levels[1..]
    ensures RestOf(levels, next)
  {
    assert next[1..] == levels[1..];
  }

  /** What a sweep leaves of the side without its head is what it leaves of the whole side, one level further on. */
  lemma RestShift(levels: seq<Level>, next: seq<Level>, rest: seq<Level>)
    requires levels != [] && next == levels[1..]
    requires RestOf(next, rest)
    ensures RestOf(levels, rest)
  {
    var k := |next| - |rest|;
    assert levels[1..][k..] == levels[k + 1..];
    if rest != levels[k + 1..] {
      assert levels[1..][k] == levels[k + 1];
      assert levels[1..][k + 1..] == levels[k + 1 + 1..];
    }
  }

  /** The remaining side is the tail `levels[k..]` with its head reduced to more than dust. */
  ghost predicate RestTouched(levels: seq<Level>, rest: seq<Level>, k: int) {
    && 0 <= k < |levels| && rest != []
    && rest[0] == levels[k].(qty := rest[0].qty)
    && rest[0].qty > DUST
    && rest[1..] == levels[k + 1..]
  }

  /**
   * The fills of a sweep are taken at the first levels' prices in book order,
   * each on the order's side, and every fill but the last takes its level's
   * whole quantity.
   */
  lemma {:induction false} SweepFillPrices(levels: seq<Level>, remain: real, side: Side)
    ensures FillsAlong(levels, Sweep(levels, remain, side).fills, side)
    decreases |levels|, if remain > DUST then 1 else 0
  {
    if !(remain <= DUST || levels == []) {
      var take := Min(remain, levels[0].qty);
      var next := AfterFill(levels, take);
      SweepFillPrices(next, remain - take, side);
      SweepStep(levels, remain, side);
      var fills' := Sweep(next, remain - take, side).fills;
      if levels[0].qty - take <= DUST {
        if fills' != [] {
          assert remain - take > DUST;
        }
        FillsAlongShift(levels, next, Trade(levels[0].price, take, side), fills', side);
      } else {
        assert fills' == [];
        assert [Trade(levels[0].price, take, side)] + fills' == [Trade(levels[0].price, take, side)];
      }
    }
  }

  /**
   * `fills` were taken along `levels`: fill i at level i's price on `side`,
   * and every fill but the last took its level's whole quantity.
   */
  ghost predicate FillsAlong(levels: seq<Level>, fills: seq<Trade>, side: Side) {
    && |fills| <= |levels|
    && (forall i :: 0 <= i < |fills| ==> fills[i].price == levels[i].price && fills[i].side == side)
    && (forall i :: 0 <= i < |fills| - 1 ==> fills[i].qty == levels[i].qty)
  }

  /** A fill that drains the head level, followed by fills along the rest of the side, runs along the whole side. */
  lemma FillsAlongShift(levels: seq<Level>, next: seq<Level>, f: Trade, fills: seq<Trade>, side: Side)
    requires levels != [] && next == levels[1..]
    requires f.price == levels[0].price && f.side == side
    requires fills != [] ==> f.qty == levels[0].qty
    requires FillsAlong(next, fills, side)
    ensures FillsAlong(levels, [f] + fills, side)
  {
    var all := [f] + fills;
    forall i | 0 < i < |all| ensures all[i].price == levels[i].price && all[i].side == side {
      assert all[i] == fills[i - 1] && next[i - 1] == levels[i];
    }
    forall i | 0 < i < |all| - 1 ensures all[i].qty == levels[i].qty {
      assert all[i] == fills[i - 1] && next[i - 1] == levels[i];
    }
  }

  /**
   * A level is removed exactly when a fill drains it to dust or less: with k
   * the number of levels removed, the sweep made k or k + 1 fills; with k + 1
   * the last fill left its level holding more than dust, and with k the last
   * fill drained the last removed level to dust or less.
   */
  lemma {:induction false} SweepRemoves(levels: seq<Level>, remain: real, side: Side)
    ensures RemovedCount(levels, Sweep(levels, remain, side).fills, Sweep(levels, remain, side).rest)
    decreases |levels|, if remain > DUST then 1 else 0
  {
    if !(remain <= DUST || levels == []) {
      var top := levels[0];
      var take := Min(remain, top.qty);
      var next := AfterFill(levels, take);
      SweepRemoves(next, remain - take, side);
      var r' := Sweep(next, remain - take, side);
      assert Sweep(levels, remain, side) == SweepOutcome([Trade(top.price, take, side)] + r'.fills, r'.rest, r'.remain);
      if top.qty - take <= DUST {
        RemovedShift(levels, next, Trade(top.price, take, side), r'.fills, r'.rest);
      } else {
        assert r' == SweepOutcome([], next, 0.0);
        RemovedPartial(levels, next, Trade(top.price, take, side));
      }
    }
  }

  /** A first fill that leaves more than dust at the head level makes one fill and removes nothing. */
  lemma RemovedPartial(levels: seq<Level>, next: seq<Level>, f: Trade)
    requires levels != [] && levels[0].qty - f.qty > DUST
    requires next == [levels[0].(qty := levels[0].qty - f.qty)] + levels[1..]
    ensures RemovedCount(levels, [f], next)
  {
  }

  /**
   * How the fills taken from a side relate to what is left of it, with k the
   * number of levels removed: k or k + 1 fills were made; with k (and k > 0)
   * the last fill drained the last removed level to dust or less; with k + 1
   * the last fill left its level, now the head of the rest, holding more than
   * dust.
   */
  ghost predicate RemovedCount(levels: seq<Level>, fills: seq<Trade>, rest: seq<Level>) {
    var k := |levels| - |rest|;
    && |rest| <= |levels|
    && (|fills| == k || |fills| == k + 1)
    && (|fills| == k && k > 0 ==> levels[k - 1].qty - fills[k - 1].qty <= DUST)
    && (|fills| == k + 1 ==> k < |levels| && rest != [] && rest[0].qty == levels[k].qty - fills[k].qty > DUST)
  }

  /** A first fill that drains the head level extends the relation from the rest of the side to the whole side. */
  lemma RemovedShift(levels: seq<Level>, next: seq<Level>, f: Trade, fills: seq<Trade>, rest: seq<Level>)
    requires levels != [] && next == levels[1..] && levels[0].qty - f.qty <= DUST
    requires RemovedCount(next, fills, rest)
    ensures RemovedCount(levels, [f] + fills, rest)
  {
    var k := |next| - |rest|;
    var fs := [f] + fills;
    if |fills| == k && k > 0 {
      assert fs[k] == fills[k - 1] && levels[k] == levels[1..][k - 1];
    }
    if |fills| == k + 1 {
      assert fs[k + 1] == fills[k] && levels[k + 1] == levels[1..][k];
    }
  }

  /**
   * A sweep keeps a side in shape: still strictly sorted, live and positively
   * priced, no longer than before, and its best price no better than before,
   * so consuming asks never lowers the best ask and consuming bids never
   * raises the best bid.
   */
  lemma SweepKeepsSide(levels: seq<Level>, remain: real, side: Side, desc: bool)
    requires StrictlySorted(levels, desc) && Live(levels) && Priced(levels)
    ensures var r := Sweep(levels, remain, side);
            && StrictlySorted(r.rest, desc) && Live(r.rest) && Priced(r.rest)
            && |r.rest| <= |levels|
            && (r.rest != [] ==> levels != [] && Ranked(levels[0], r.rest[0], desc))
  {
    SweepRest(levels, remain, side);
    RestKeepsSide(levels, Sweep(levels, remain, side).rest, desc);
  }

  /** What a sweep may leave of a side keeps the side's shape, and its head is no better than the old head. */
  lemma RestKeepsSide(levels: seq<Level>, rest: seq<Level>, desc: bool)
    requires StrictlySorted(levels, desc) && Live(levels) && Priced(levels)
    requires RestOf(levels, rest)
    ensures StrictlySorted(rest, desc) && Live(rest) && Priced(rest)
    ensures |rest| <= |levels|
    ensures rest != [] ==> levels != [] && Ranked(levels[0], rest[0], desc)
  {
    var k := |levels| - |rest|;
    forall i | 0 <= i < |rest| ensures rest[i].price == levels[k + i].price && rest[i].qty > DUST {
      if rest != levels[k..] && i > 0 {
        assert rest[i] == rest[1..][i - 1];
      }
    }
    forall i, j | 0 <= i < j < |rest| ensures Ahead(rest[i], rest[j], desc) {
      assert Ahead(levels[k + i], levels[k + j], desc);
    }
    if rest != [] && k > 0 {
      assert Ahead(levels[0], levels[k], desc);
    }
  }

  /**
   * Enough liquidity means a full fill: when the side holds at least the
   * order's quantity, the sweep leaves no more than dust unfilled.
   */
  lemma {:induction false} SweepFillsWhenLiquid(levels: seq<Level>, remain: real, side: Side)
    requires remain <= Total(levels)
    ensures Sweep(levels, remain, side).remain <= DUST
    decreases |levels|, if remain > DUST then 1 else 0
  {
    if !(remain <= DUST || levels == []) {
      var top := levels[0];
      var take := Min(remain, top.qty);
      var left := top.qty - take;
      var next := AfterFill(levels, take);
      if take == remain {
        assert Sweep(next, remain - take, side).remain == 0.0;
      } else {
        assert next == levels[1..];
        SweepFillsWhenLiquid(next, remain - take, side);
      }
    }
  }

  /**
   * Exhausted liquidity: an order at least as large as a live side's total
   * fills exactly that total, reports the shortfall as unfilled, and empties
   * the side.
   */
  lemma {:induction false} SweepExhausts(levels: seq<Level>, remain: real, side: Side)
    requires Live(levels) && Total(levels) <= remain
    ensures var r := Sweep(levels, remain, side);
            && r.rest == []
            && QtySum(r.fills) == Total(levels)
            && r.remain == remain - Total(levels)
    decreases |levels|, if remain > DUST then 1 else 0
  {
    if levels != [] {
      TotalOfLive(levels);
      TotalOfLive(levels[1..]);
      var top := levels[0];
      var take := Min(remain, top.qty);
      assert take == top.qty;
      var next := levels[1..];
      assert Live(next);
      SweepExhausts(next, remain - take, side);
      var r := Sweep(next, remain - take, side);
      assert ([Trade(top.price, take, side)] + r.fills)[1..] == r.fills;
    }
  }

  /**
   * Quantity is conserved: what the side held is what was filled plus what
   * is left, up to the dust of at most one removed level.
   */
  lemma {:induction false} SweepConserves(levels: seq<Level>, remain: real, side: Side)
    requires Live(levels) && remain >= 0.0
    ensures var r := Sweep(levels, remain, side);
            0.0 <= Total(levels) - QtySum(r.fills) - Total(r.rest) <= DUST
    decreases |levels|, if remain > DUST then 1 else 0
  {
    if !(remain <= DUST || levels == []) {
      var top := levels[0];
      var take := Min(remain, top.qty);
      var left := top.qty - take;
      var next := AfterFill(levels, take);
      var r' := Sweep(next, remain - take, side);
      var r := Sweep(levels, remain, side);
      assert ([Trade(top.price, take, side)] + r'.fills)[1..] == r'.fills;
      assert QtySum(r.fills) == take + QtySum(r'.fills);
      if take == remain {
        assert r' == SweepOutcome([], next, 0.0);
        if left > DUST {
          assert next[1..] == levels[1..];
        }
      } else {
        assert left == 0.0 && next == levels[1..];
        assert Live(next);
        SweepConserves(next, remain - take, side);
      }
    }
  }

  /** Fills from a sweep of a sorted side come best price first. */
  lemma FillsInPriceOrder(levels: seq<Level>, remain: real, side: Side, desc: bool)
    requires StrictlySorted(levels, desc)
    ensures var fills := Sweep(levels, remain, side).fills;
            forall i, j :: 0 <= i < j < |fills| ==>
              if desc then fills[i].price > fills[j].price else fills[i].price < fills[j].price
  {
    SweepFillPrices(levels, remain, side);
    var fills := Sweep(levels, remain, side).fills;
    forall i, j | 0 <= i < j < |fills|
      ensures if desc then fills[i].price > fills[j].price else fills[i].price < fills[j].price
    {
      assert Ahead(levels[i], levels[j], desc);
    }
  }

  /**
   * A market order keeps the book well-formed: the swept side stays strictly
   * sorted, live and priced, and its best price moves only away from the
   * other side, so the book stays uncrossed.
   */
  lemma SweepKeepsBook(bids: seq<Level>, asks: seq<Level>, size: real, side: Side)
    requires WellFormed(bids, asks)
    ensures side == Buy ==> WellFormed(bids, Sweep(asks, size, side).rest)
    ensures side == Sell ==> WellFormed(Sweep(bids, size, side).rest, asks)
  {
    if side == Buy {
      SweepKeepsSide(asks, size, side, false);
    } else {
      SweepKeepsSide(bids, size, side, true);
    }
  }
}
