/**
 * The server's in-memory state and the handlers that change it
 * (server.js lines 30-49, 63-180, 195-204, 209-219, 222-290). Every global
 * the server keeps is a field of `Market`; every handler is a method whose
 * postcondition ties the new state to the specification functions of the
 * other modules, and which keeps the book invariant `Valid`.
 */
module Server {
  import opened Config
  import opened Values
  import opened Book
  import opened Ladder
  import opened Drift
  import opened Matching
  import opened Settlement
  import opened PriceFusion
  import opened Requests

  /** What a market order returns: its fills, the quantity filled, and the totals after it. */
  datatype MatchResult = MatchResult(trades: seq<Trade>, filled: real, totalBase: real, totalIDR: real)

  /** The state payload the server broadcasts to its observers. */
  datatype StateView = StateView(
    baseBalance: real, idrBalance: real,
    bids: seq<Level>, asks: seq<Level>,
    midPrice: real, recentTrades: seq<TxEntry>,
    totalUnrealizedPnL: real, totalBase: real, avgPrice: real)

  class Market {
    var baseBalance: real
    var idrBalance: real
    var midPrice: real
    var externalPrice: Option<real>
    var usdtIdr: Option<real>
    var totalUnrealizedPnL: real
    var totalBase: real
    var avgPrice: real
    var bids: seq<Level>
    var asks: seq<Level>
    var txLog: seq<TxEntry>
    var clientIdCounter: nat
    /** The start-up poll that builds the first book is still running. */
    var awaitingReference: bool

    /** The book keeps its shape and the trade log stays within capacity. */
    ghost predicate Valid()
      reads this
    {
      WellFormed(bids, asks) && |txLog| <= LOG_CAPACITY
    }

    /** The market maker's accounts as one value. */
    function Accounts(): Ledger
      reads this
    {
      Ledger(baseBalance, idrBalance, totalBase, totalUnrealizedPnL, txLog)
    }

    /** The state at start-up: starting balances, no quotes, an empty book and log. */
    constructor ()
      ensures Valid()
      ensures baseBalance == START_BASE && idrBalance == START_IDR
      ensures midPrice == 0.0 && externalPrice == None && usdtIdr == None
      ensures totalUnrealizedPnL == 0.0 && totalBase == 0.0 && avgPrice == 0.0
      ensures bids == [] && asks == [] && txLog == []
      ensures clientIdCounter == 1 && awaitingReference
    {
      baseBalance, idrBalance := START_BASE, START_IDR;
      midPrice, externalPrice, usdtIdr := 0.0, None, None;
      totalUnrealizedPnL, totalBase, avgPrice := 0.0, 0.0, 0.0;
      bids, asks, txLog := [], [], [];
      clientIdCounter := 1;
      awaitingReference := true;
    }

    /** Recomputes the mid price from the two quotes. */
    method RecomputeMid()
      modifies this`midPrice
      ensures midPrice == NextMid(old(midPrice), externalPrice, usdtIdr)
    {
      if Truthy(externalPrice) && Truthy(usdtIdr) {
        var newMid := externalPrice.value * usdtIdr.value;
        if midPrice == 0.0 {
          midPrice := newMid;
        }
        midPrice := midPrice * (1.0 - PRICE_SMOOTHING) + newMid * PRICE_SMOOTHING;
      }
    }

    /** A trade message from the base/USDT feed: store its parsed price and recompute. */
    method OnExternalTrade(price: Option<real>)
      modifies this`externalPrice, this`midPrice
      ensures externalPrice == price
      ensures midPrice == NextMid(old(midPrice), price, usdtIdr)
    {
      externalPrice := price;
      RecomputeMid();
    }

    /** A trade message from the USDT/IDR feed: store its parsed price and recompute. */
    method OnUsdtIdrTrade(price: Option<real>)
      modifies this`usdtIdr, this`midPrice
      ensures usdtIdr == price
      ensures midPrice == NextMid(old(midPrice), externalPrice, price)
    {
      usdtIdr := price;
      RecomputeMid();
    }

    /**
     * The push loop of the ladder synthesis: level `i` of each side takes the
     * `i`-th draw, the `i`-th price step and the next id, a bid first.
     */
    method BuildLadder(mid: real, qtyBids: seq<real>, qtyAsks: seq<real>)
      returns (bids: seq<Level>, asks: seq<Level>)
      requires |qtyBids| == LEVELS && |qtyAsks| == LEVELS
      modifies this`clientIdCounter
      ensures clientIdCounter == old(clientIdCounter) + 2 * LEVELS
      ensures bids == LadderSide(mid, old(clientIdCounter), qtyBids, true)
      ensures asks == LadderSide(mid, old(clientIdCounter) + 1, qtyAsks, false)
    {
      bids, asks := [], [];
      ghost var first := clientIdCounter;
      for i := 0 to LEVELS
        invariant clientIdCounter == first + 2 * i
        invariant bids == LadderSide(mid, first, qtyBids[..i], true)
        invariant asks == LadderSide(mid, first + 1, qtyAsks[..i], false)
      {
        bids := bids + [Level(clientIdCounter, BidPrice(mid, i), qtyBids[i], OWNER)];
        clientIdCounter := clientIdCounter + 1;
        asks := asks + [Level(clientIdCounter, AskPrice(mid, i), qtyAsks[i], OWNER)];
        clientIdCounter := clientIdCounter + 1;
        LadderSidePrefix(mid, first, qtyBids, i, true);
        LadderSidePrefix(mid, first + 1, qtyAsks, i, false);
      }
      assert qtyBids[..LEVELS] == qtyBids && qtyAsks[..LEVELS] == qtyAsks;
    }

    /**
     * Synthesises a fresh ladder around `mid` from the given quantity draws,
     * handing out 2 * LEVELS ids, and sorts each side best first; around a
     * positive mid the sort leaves both sides as built.
     */
    method GenerateOrderbook(mid: real, qtyBids: seq<real>, qtyAsks: seq<real>)
      returns (newBids: seq<Level>, newAsks: seq<Level>)
      requires |qtyBids| == LEVELS && |qtyAsks| == LEVELS
      modifies this`clientIdCounter
      ensures clientIdCounter == old(clientIdCounter) + 2 * LEVELS
      ensures Sorted(newBids, true) && multiset(newBids) == multiset(LadderSide(mid, old(clientIdCounter), qtyBids, true))
      ensures Sorted(newAsks, false) && multiset(newAsks) == multiset(LadderSide(mid, old(clientIdCounter) + 1, qtyAsks, false))
      ensures mid > 0.0 ==> newBids == LadderSide(mid, old(clientIdCounter), qtyBids, true)
      ensures mid > 0.0 ==> newAsks == LadderSide(mid, old(clientIdCounter) + 1, qtyAsks, false)
    {
      var bids, asks := BuildLadder(mid, qtyBids, qtyAsks);
      newBids := SortBy(bids, true);
      newAsks := SortBy(asks, false);
      SortByPermutes(bids, true);
      SortByPermutes(asks, false);
      if mid > 0.0 {
        LadderSideSorted(mid, old(clientIdCounter), qtyBids, true);
        LadderSideSorted(mid, old(clientIdCounter) + 1, qtyAsks, false);
      }
    }

    /** Replaces the book by a fresh ladder around the current mid price. */
    method RebuildOrderbook(qtyBids: seq<real>, qtyAsks: seq<real>)
      requires Valid() && midPrice > 0.0
      requires |qtyBids| == LEVELS && |qtyAsks| == LEVELS && Draws(qtyBids) && Draws(qtyAsks)
      modifies this`bids, this`asks, this`clientIdCounter
      ensures clientIdCounter == old(clientIdCounter) + 2 * LEVELS
      ensures bids == LadderSide(midPrice, old(clientIdCounter), qtyBids, true)
      ensures asks == LadderSide(midPrice, old(clientIdCounter) + 1, qtyAsks, false)
      ensures Valid()
    {
      var newBids, newAsks := GenerateOrderbook(midPrice, qtyBids, qtyAsks);
      LadderWellFormed(midPrice, old(clientIdCounter), qtyBids, qtyAsks);
      bids, asks := newBids, newAsks;
    }

    /**
     * One turn of the matching loop: fill the smaller of what is left of the
     * order and the head level's quantity at the head's price, shrink the
     * head by it, and drop the head once it holds dust or less.
     */
    static method FillHead(levels: seq<Level>, remain: real, side: Side)
      returns (t: Trade, rest: seq<Level>, left: real)
      requires levels != []
      ensures t == Trade(levels[0].price, Min(remain, levels[0].qty), side)
      ensures rest == AfterFill(levels, Min(remain, levels[0].qty))
      ensures left == remain - Min(remain, levels[0].qty)
      ensures |rest| < |levels| || (|rest| == |levels| && left <= DUST)
    {
      var top := levels[0];
      var take := Min(remain, top.qty);
      t := Trade(top.price, take, side);
      rest := levels[0 := top.(qty := top.qty - take)];
      left := remain - take;
      if rest[0].qty <= DUST {
        rest := rest[1..];
      } else {
        assert rest == [top.(qty := top.qty - take)] + levels[1..];
      }
    }

    /**
     * The matching loop on one side of the book: while more than dust is left
     * to fill and the side is not empty, fill at the head level and drop it
     * once it holds dust or less.
     */
    static method TakeLiquidity(levels: seq<Level>, size: real, side: Side)
      returns (trades: seq<Trade>, rest: seq<Level>, remain: real)
      ensures trades == Sweep(levels, size, side).fills
      ensures rest == Sweep(levels, size, side).rest
      ensures remain == Sweep(levels, size, side).remain
    {
      ghost var sw := Sweep(levels, size, side);
      remain := size;
      trades := [];
      rest := levels;
      SweptNothing(levels, size, side);
      while remain > DUST && |rest| > 0
        invariant SweptSoFar(trades, rest, remain, side, sw)
        decreases |rest|, if remain > DUST then 1 else 0
      {
        SweepTurn(trades, rest, remain, side, sw);
        var t;
        t, rest, remain := FillHead(rest, remain, side);
        trades := trades + [t];
      }
      SweptAll(trades, rest, remain, side, sw);
    }

    /**
     * The per-fill step of the settlement: moves the balances, the cumulative
     * base and the PnL by one fill, prepends its log entry stamped `now` and
     * drops the oldest entry once the log is over capacity; returns the
     * fill's contribution to `totalIDR`.
     */
    method BookFill(t: Trade, now: int) returns (flow: real)
      modifies this`baseBalance, this`idrBalance, this`totalBase, this`totalUnrealizedPnL, this`txLog
      ensures Accounts() == Post(old(Accounts()), t, midPrice, now)
      ensures flow == Flow(t)
    {
      ghost var next := Post(Accounts(), t, midPrice, now);
      var pnlTrade: real;
      if t.side == Buy {
        baseBalance := baseBalance - t.qty;
        idrBalance := idrBalance + t.qty * t.price;
        totalBase := totalBase - t.qty;
        flow := t.qty * t.price;
        totalUnrealizedPnL := totalUnrealizedPnL + (t.price - midPrice) * t.qty;
        pnlTrade := (t.price - midPrice) * t.qty;
      } else {
        baseBalance := baseBalance + t.qty;
        idrBalance := idrBalance - t.qty * t.price;
        totalBase := totalBase + t.qty;
        flow := -(t.qty * t.price);
        totalUnrealizedPnL := totalUnrealizedPnL + (midPrice - t.price) * t.qty;
        pnlTrade := (midPrice - t.price) * t.qty;
      }
      assert TxEntry(now, t.price, t.qty, t.side, pnlTrade) == Entry(t, midPrice, now);
      txLog := [TxEntry(now, t.price, t.qty, t.side, pnlTrade)] + txLog;
      if |txLog| > LOG_CAPACITY {
        txLog := txLog[..|txLog| - 1];
      }
    }

    /**
     * Books every fill of a match into the accounts and the trade log, in
     * fill order, stamped `now`; returns the signed IDR flow and the sum of
     * the fill prices.
     */
    method BookFills(trades: seq<Trade>, now: int) returns (totalIDR: real, totalPrice: real)
      modifies this`baseBalance, this`idrBalance, this`totalBase, this`totalUnrealizedPnL, this`txLog
      ensures Accounts() == Settle(old(Accounts()), trades, midPrice, now)
      ensures totalIDR == IdrFlow(trades) && totalPrice == PriceSum(trades)
    {
      ghost var before := Accounts();
      totalIDR := 0.0;
      totalPrice := 0.0;
      for k := 0 to |trades|
        invariant Accounts() == Settle(before, trades[..k], midPrice, now)
        invariant totalIDR == IdrFlow(trades[..k]) && totalPrice == PriceSum(trades[..k])
      {
        var t := trades[k];
        var flow := BookFill(t, now);
        totalIDR := totalIDR + flow;
        totalPrice := totalPrice + t.price;
        SettleSnoc(before, trades[..k], t, midPrice, now);
        assert trades[..k + 1] == trades[..k] + [t];
      }
      assert trades[..|trades|] == trades;
    }

    /**
     * Executes a market order of `size` against the book: a buy sweeps the
     * asks, a sell sweeps the bids, the other side is untouched; then every
     * fill is booked into the accounts and the log, stamped `now`, and the
     * average-price indicator is set to the mean fill price of this order.
     */
    method MatchMarketOrder(side: Side, size: real, now: int) returns (result: MatchResult)
      requires Valid()
      modifies this`bids, this`asks, this`baseBalance, this`idrBalance, this`totalBase,
               this`totalUnrealizedPnL, this`txLog, this`avgPrice
      ensures var sw := Sweep(if side == Buy then old(asks) else old(bids), size, side);
              && result.trades == sw.fills
              && result.filled == size - sw.remain
              && (side == Buy ==> asks == sw.rest && bids == old(bids))
              && (side == Sell ==> bids == sw.rest && asks == old(asks))
              && Accounts() == Settle(old(Accounts()), sw.fills, midPrice, now)
              && result.totalBase == totalBase
              && result.totalIDR == IdrFlow(sw.fills)
              && avgPrice == AvgPrice(sw.fills)
      ensures Valid()
    {
      SweepKeepsBook(bids, asks, size, side);
      SettleLog(Accounts(), Sweep(if side == Buy then asks else bids, size, side).fills, midPrice, now);
      var trades, rest, remain;
      if side == Buy {
        trades, rest, remain := TakeLiquidity(asks, size, Buy);
        asks := rest;
      } else {
        trades, rest, remain := TakeLiquidity(bids, size, Sell);
        bids := rest;
      }
      var totalIDR, totalPrice := BookFills(trades, now);
      avgPrice := if |trades| > 0 then totalPrice / |trades| as real else 0.0;
      result := MatchResult(trades, size - remain, totalBase, totalIDR);
    }

    /**
     * The blending loop of a drift step: index by index, a level present on
     * both the live and the target side moves a PRICE_SMOOTHING share of the
     * way to the target price and has its quantity jittered.
     */
    static method BlendSides(bids: seq<Level>, asks: seq<Level>, newBids: seq<Level>, newAsks: seq<Level>,
                              bidJitter: seq<real>, askJitter: seq<real>) returns (b: seq<Level>, a: seq<Level>)
      requires |newBids| == LEVELS && |newAsks| == LEVELS && |bidJitter| == LEVELS && |askJitter| == LEVELS
      ensures b == Blend(bids, newBids, bidJitter) && a == Blend(asks, newAsks, askJitter)
    {
      b, a := bids, asks;
      for i := 0 to LEVELS
        invariant b == Blend(bids, newBids[..i], bidJitter)
        invariant a == Blend(asks, newAsks[..i], askJitter)
      {
        BlendSnoc(bids, newBids[..i], newBids[i], bidJitter);
        BlendSnoc(asks, newAsks[..i], newAsks[i], askJitter);
        assert newBids[..i + 1] == newBids[..i] + [newBids[i]];
        assert newAsks[..i + 1] == newAsks[..i] + [newAsks[i]];
        if i < |b| && i < |newBids| {
          var level := b[i].(price := b[i].price * (1.0 - PRICE_SMOOTHING) + newBids[i].price * PRICE_SMOOTHING,
                             qty := Max(QTY_FLOOR, b[i].qty * bidJitter[i]));
          assert level == Blended(bids[i], newBids[i], bidJitter[i]);
          b := b[i := level];
        }
        if i < |a| && i < |newAsks| {
          var level := a[i].(price := a[i].price * (1.0 - PRICE_SMOOTHING) + newAsks[i].price * PRICE_SMOOTHING,
                             qty := Max(QTY_FLOOR, a[i].qty * askJitter[i]));
          assert level == Blended(asks[i], newAsks[i], askJitter[i]);
          a := a[i := level];
        }
      }
      assert newBids[..LEVELS] == newBids && newAsks[..LEVELS] == newAsks;
    }

    /**
     * The smoothing and re-sort of a drift step toward the target ladder
     * `newBids`/`newAsks`; the re-sort leaves both sides as blended.
     */
    method DriftTowards(newBids: seq<Level>, newAsks: seq<Level>, bidJitter: seq<real>, askJitter: seq<real>)
      requires Valid() && WellFormed(newBids, newAsks)
      requires |newBids| == LEVELS && |newAsks| == LEVELS && |bidJitter| == LEVELS && |askJitter| == LEVELS
      modifies this`bids, this`asks
      ensures bids == SortBy(Blend(old(bids), newBids, bidJitter), true)
      ensures asks == SortBy(Blend(old(asks), newAsks, askJitter), false)
      ensures bids == Blend(old(bids), newBids, bidJitter)
      ensures asks == Blend(old(asks), newAsks, askJitter)
      ensures Valid()
    {
      DriftKeepsBook(bids, asks, newBids, newAsks, bidJitter, askJitter);
      var b, a := BlendSides(bids, asks, newBids, newAsks, bidJitter, askJitter);
      bids := SortBy(b, true);
      asks := SortBy(a, false);
    }

    /**
     * Moves the book toward a fresh ladder around `newMid`: each level on both
     * the live and the target side is blended, then both sides are re-sorted,
     * which leaves them as blended.
     */
    method DriftOrderbookTowards(newMid: real, qtyBids: seq<real>, qtyAsks: seq<real>,
                                 bidJitter: seq<real>, askJitter: seq<real>)
      requires Valid() && newMid > 0.0
      requires |qtyBids| == LEVELS && |qtyAsks| == LEVELS && Draws(qtyBids) && Draws(qtyAsks)
      requires |bidJitter| == LEVELS && |askJitter| == LEVELS && Jitters(bidJitter) && Jitters(askJitter)
      modifies this`bids, this`asks, this`clientIdCounter
      ensures clientIdCounter == old(clientIdCounter) + 2 * LEVELS
      ensures var targetBids := LadderSide(newMid, old(clientIdCounter), qtyBids, true);
              var targetAsks := LadderSide(newMid, old(clientIdCounter) + 1, qtyAsks, false);
              && bids == SortBy(Blend(old(bids), targetBids, bidJitter), true)
              && asks == SortBy(Blend(old(asks), targetAsks, askJitter), false)
              && bids == Blend(old(bids), targetBids, bidJitter)
              && asks == Blend(old(asks), targetAsks, askJitter)
      ensures Valid()
    {
      var newBids, newAsks := GenerateOrderbook(newMid, qtyBids, qtyAsks);
      LadderWellFormed(newMid, old(clientIdCounter), qtyBids, qtyAsks);
      DriftTowards(newBids, newAsks, bidJitter, askJitter);
    }

    /**
     * The market-order endpoint: an invalid request is rejected with
     * "invalid" and changes nothing; a valid one runs the match.
     */
    method PostMarket(side: string, qty: Option<real>, now: int) returns (r: Result<MatchResult, string>)
      requires Valid()
      modifies this`bids, this`asks, this`baseBalance, this`idrBalance, this`totalBase,
               this`totalUnrealizedPnL, this`txLog, this`avgPrice
      ensures r.Failure? <==> Validate(side, qty).Failure?
      ensures r.Failure? ==> r.error == "invalid" && unchanged(this)
      ensures r.Success? ==>
                var o := Validate(side, qty).value;
                var sw := Sweep(if o.side == Buy then old(asks) else old(bids), o.size, o.side);
                && r.value.trades == sw.fills
                && r.value.filled == o.size - sw.remain
                && (o.side == Buy ==> asks == sw.rest && bids == old(bids))
                && (o.side == Sell ==> bids == sw.rest && asks == old(asks))
                && Accounts() == Settle(old(Accounts()), sw.fills, midPrice, now)
                && r.value.totalBase == totalBase
                && r.value.totalIDR == IdrFlow(sw.fills)
                && avgPrice == AvgPrice(sw.fills)
      ensures Valid()
    {
      var v := Validate(side, qty);
      if v.Failure? {
        return Failure("invalid");
      }
      var result := MatchMarketOrder(v.value.side, v.value.size, now);
      r := Success(result);
    }

    /**
     * One firing of the start-up poll: once a positive mid price exists it
     * builds the first book and stops polling; otherwise nothing happens.
     */
    method InitTick(qtyBids: seq<real>, qtyAsks: seq<real>) returns (fired: bool)
      requires Valid()
      requires |qtyBids| == LEVELS && |qtyAsks| == LEVELS && Draws(qtyBids) && Draws(qtyAsks)
      modifies this`bids, this`asks, this`clientIdCounter, this`awaitingReference
      ensures fired <==> old(awaitingReference) && midPrice > 0.0
      ensures fired ==> && !awaitingReference
                        && clientIdCounter == old(clientIdCounter) + 2 * LEVELS
                        && bids == LadderSide(midPrice, old(clientIdCounter), qtyBids, true)
                        && asks == LadderSide(midPrice, old(clientIdCounter) + 1, qtyAsks, false)
      ensures !fired ==> unchanged(this)
      ensures Valid()
    {
      fired := awaitingReference && midPrice > 0.0;
      if fired {
        RebuildOrderbook(qtyBids, qtyAsks);
        awaitingReference := false;
      }
    }

    /**
     * One firing of the periodic drift timer: with a positive mid price and a
     * non-empty bid side the book drifts toward a ladder around the mid price;
     * otherwise nothing happens.
     */
    method DriftTick(qtyBids: seq<real>, qtyAsks: seq<real>, bidJitter: seq<real>, askJitter: seq<real>)
      returns (drifted: bool)
      requires Valid()
      requires |qtyBids| == LEVELS && |qtyAsks| == LEVELS && Draws(qtyBids) && Draws(qtyAsks)
      requires |bidJitter| == LEVELS && |askJitter| == LEVELS && Jitters(bidJitter) && Jitters(askJitter)
      modifies this`bids, this`asks, this`clientIdCounter
      ensures drifted <==> midPrice > 0.0 && |old(bids)| > 0
      ensures drifted ==>
                && clientIdCounter == old(clientIdCounter) + 2 * LEVELS
                && bids == Blend(old(bids), LadderSide(midPrice, old(clientIdCounter), qtyBids, true), bidJitter)
                && asks == Blend(old(asks), LadderSide(midPrice, old(clientIdCounter) + 1, qtyAsks, false), askJitter)
      ensures !drifted ==> unchanged(this)
      ensures Valid()
    {
      drifted := midPrice > 0.0 && |bids| > 0;
      if drifted {
        var newMid := midPrice;
        DriftOrderbookTowards(newMid, qtyBids, qtyAsks, bidJitter, askJitter);
      }
    }

    /**
     * The broadcast payload: the balances, the book, the mid price, the
     * cumulative PnL and base traded, the average price, and only the newest
     * SNAPSHOT_TRADES log entries.
     */
    function Snapshot(): (v: StateView)
      reads this
      ensures v.recentTrades <= txLog
      ensures |v.recentTrades| == if |txLog| < SNAPSHOT_TRADES then |txLog| else SNAPSHOT_TRADES
      ensures v.bids == bids && v.asks == asks && v.midPrice == midPrice
      ensures v.baseBalance == baseBalance && v.idrBalance == idrBalance
      ensures v.totalUnrealizedPnL == totalUnrealizedPnL && v.totalBase == totalBase && v.avgPrice == avgPrice
    {
      StateView(baseBalance, idrBalance, bids, asks, midPrice,
                if |txLog| < SNAPSHOT_TRADES then txLog else txLog[..SNAPSHOT_TRADES],
                totalUnrealizedPnL, totalBase, avgPrice)
    }
  }
}
