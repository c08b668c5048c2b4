/**
 * The accounting after a sweep (server.js lines 123-157): each fill moves the
 * market maker's base and IDR balances, the cumulative base traded and the
 * unrealised PnL against the mid price, and is prepended to a trade log of
 * capacity LOG_CAPACITY. `Settle` is the per-fill loop as a left fold.
 */
module Settlement {
  import opened Config
  import opened Values
  import opened Book
  import opened Matching

  /** One trade-log entry: time stamp, fill price and quantity, taker side, and the fill's PnL. */
  datatype TxEntry = TxEntry(ts: int, price: real, qty: real, side: Side, pnl: real)

  /**
   * The market maker's running accounts: base balance, IDR balance,
   * cumulative signed base traded, cumulative unrealised PnL, and the log.
   */
  datatype Ledger = Ledger(base: real, idr: real, totalBase: real, pnl: real, log: seq<TxEntry>)

  /**
   * PnL of one fill against the mid price: on a taker buy the market maker
   * sold at the fill price, on a taker sell it bought there.
   */
  function Edge(t: Trade, mid: real): real {
    if t.side == Buy then (t.price - mid) * t.qty else (mid - t.price) * t.qty
  }

  /** The log entry written for one fill. */
  function Entry(t: Trade, mid: real, now: int): TxEntry {
    TxEntry(now, t.price, t.qty, t.side, Edge(t, mid))
  }

  /** `txLog.unshift(e)`, then `txLog.pop()` once the log is over capacity. */
  function PushLog(log: seq<TxEntry>, e: TxEntry): seq<TxEntry> {
    var l := [e] + log;
    if |l| > LOG_CAPACITY then l[..|l| - 1] else l
  }

  /** The accounts after one fill. */
  function Post(l: Ledger, t: Trade, mid: real, now: int): Ledger {
    var log := PushLog(l.log, Entry(t, mid, now));
    if t.side == Buy then
      Ledger(l.base - t.qty, l.idr + t.qty * t.price, l.totalBase - t.qty, l.pnl + (t.price - mid) * t.qty, log)
    else
      Ledger(l.base + t.qty, l.idr - t.qty * t.price, l.totalBase + t.qty, l.pnl + (mid - t.price) * t.qty, log)
  }

  /** The accounts after every fill of a match, in fill order. */
  function Settle(l: Ledger, ts: seq<Trade>, mid: real, now: int): Ledger
    decreases |ts|
  {
    if ts == [] then l else Settle(Post(l, ts[0], mid, now), ts[1..], mid, now)
  }

  /** Signed IDR flow of one fill: what the market maker receives on a taker buy, pays on a taker sell. */
  function Flow(t: Trade): real {
    if t.side == Buy then t.qty * t.price else -(t.qty * t.price)
  }

  /** Signed IDR flow of a list of fills as the match reports it in `totalIDR`. */
  function IdrFlow(ts: seq<Trade>): real {
    if ts == [] then 0.0 else Flow(ts[0]) + IdrFlow(ts[1..])
  }

  /** Sum of the fill prices, for the average-price indicator. */
  function PriceSum(ts: seq<Trade>): real {
    if ts == [] then 0.0 else ts[0].price + PriceSum(ts[1..])
  }

  predicate OneSided(ts: seq<Trade>, side: Side) {
    forall i :: 0 <= i < |ts| ==> ts[i].side == side
  }

  /** Settling one more fill is one more step of the loop. */
  lemma {:induction false} SettleSnoc(l: Ledger, ts: seq<Trade>, t: Trade, mid: real, now: int)
    ensures Settle(l, ts + [t], mid, now) == Post(Settle(l, ts, mid, now), t, mid, now)
    ensures IdrFlow(ts + [t]) == IdrFlow(ts) + Flow(t)
    ensures PriceSum(ts + [t]) == PriceSum(ts) + t.price
    decreases |ts|
  {
    if ts != [] {
      assert (ts + [t])[1..] == ts[1..] + [t];
      SettleSnoc(Post(l, ts[0], mid, now), ts[1..], t, mid, now);
    } else {
      assert [] + [t] == [t];
    }
  }

  /**
   * Taker buys: the market maker's base balance and cumulative base fall by
   * the total filled quantity, its IDR balance rises by the traded value, and
   * its PnL rises by the traded value less the same quantity marked at mid.
   */
  lemma {:induction false} SettleBuys(l: Ledger, ts: seq<Trade>, mid: real, now: int)
    requires OneSided(ts, Buy)
    ensures var a := Settle(l, ts, mid, now);
            && a.base == l.base - QtySum(ts)
            && a.idr == l.idr + Notional(ts)
            && a.totalBase == l.totalBase - QtySum(ts)
            && a.pnl == l.pnl + (Notional(ts) - mid * QtySum(ts))
    decreases |ts|
  {
    if ts != [] {
      var t := ts[0];
      SettleBuys(Post(l, t, mid, now), ts[1..], mid, now);
      assert (t.price - mid) * t.qty == t.qty * t.price - mid * t.qty;
      assert mid * QtySum(ts) == mid * t.qty + mid * QtySum(ts[1..]);
    }
  }

  /**
   * Taker sells, the mirror image: base balance and cumulative base rise by the
   * filled quantity, IDR balance falls by the traded value, and PnL rises by the
   * quantity marked at mid less the traded value.
   */
  lemma {:induction false} SettleSells(l: Ledger, ts: seq<Trade>, mid: real, now: int)
    requires OneSided(ts, Sell)
    ensures var a := Settle(l, ts, mid, now);
            && a.base == l.base + QtySum(ts)
            && a.idr == l.idr - Notional(ts)
            && a.totalBase == l.totalBase + QtySum(ts)
            && a.pnl == l.pnl + (mid * QtySum(ts) - Notional(ts))
    decreases |ts|
  {
    if ts != [] {
      var t := ts[0];
      SettleSells(Post(l, t, mid, now), ts[1..], mid, now);
      assert (mid - t.price) * t.qty == mid * t.qty - t.qty * t.price;
      assert mid * QtySum(ts) == mid * t.qty + mid * QtySum(ts[1..]);
    }
  }

  /** The newest `LOG_CAPACITY` entries of a newest-first log. */
  function Recent(s: seq<TxEntry>): (r: seq<TxEntry>)
    ensures |r| <= LOG_CAPACITY && r <= s
  {
    if |s| <= LOG_CAPACITY then s else s[..LOG_CAPACITY]
  }

  /** The log entries of a list of fills, newest (last) first. */
  function NewestFirst(ts: seq<Trade>, mid: real, now: int): (r: seq<TxEntry>)
    ensures |r| == |ts|
  {
    if ts == [] then [] else NewestFirst(ts[1..], mid, now) + [Entry(ts[0], mid, now)]
  }

  /** The log entries come newest first: entry i is that of the i-th fill from the end. */
  lemma {:induction false} NewestFirstOrder(ts: seq<Trade>, mid: real, now: int)
    ensures forall i :: 0 <= i < |ts| ==> NewestFirst(ts, mid, now)[i] == Entry(ts[|ts| - 1 - i], mid, now)
  {
    if ts != [] {
      NewestFirstOrder(ts[1..], mid, now);
    }
  }

  /** Pushing onto a capped log is capping the longer log. */
  lemma PushRecent(x: seq<TxEntry>, e: TxEntry)
    ensures PushLog(Recent(x), e) == Recent([e] + x)
  {
    if |x| > LOG_CAPACITY {
      assert ([e] + x[..LOG_CAPACITY])[..LOG_CAPACITY] == ([e] + x)[..LOG_CAPACITY];
    }
  }

  /**
   * The log after a match: the new fills' entries, newest first, in front of
   * the old log, cut to the newest LOG_CAPACITY; so the log never exceeds its
   * capacity and it is always the oldest entries that are dropped.
   */
  lemma {:induction false} SettleLog(l: Ledger, ts: seq<Trade>, mid: real, now: int)
    requires |l.log| <= LOG_CAPACITY
    ensures Settle(l, ts, mid, now).log == Recent(NewestFirst(ts, mid, now) + l.log)
    ensures |Settle(l, ts, mid, now).log| <= LOG_CAPACITY
    decreases |ts|
  {
    if ts != [] {
      var e := Entry(ts[0], mid, now);
      var l' := Post(l, ts[0], mid, now);
      PushRecent(l.log, e);
      assert l'.log == Recent([e] + l.log);
      SettleLog(l', ts[1..], mid, now);
      var n := NewestFirst(ts[1..], mid, now);
      assert NewestFirst(ts, mid, now) + l.log == n + ([e] + l.log);
      RecentOfRecent(n, [e] + l.log);
    }
  }

  /** Capping the tail before prepending does not change the capped whole. */
  lemma RecentOfRecent(front: seq<TxEntry>, back: seq<TxEntry>)
    ensures Recent(front + Recent(back)) == Recent(front + back)
  {
    if |back| > LOG_CAPACITY {
      if |front + Recent(back)| > LOG_CAPACITY {
        assert (front + back[..LOG_CAPACITY])[..LOG_CAPACITY] == (front + back)[..LOG_CAPACITY];
      }
    }
  }

  /**
   * The inventory effect of a whole market order on one side: the base
   * balance moves by exactly the filled quantity `size - remain`, against the
   * order (down for a taker buy, up for a taker sell), and the IDR balance by
   * the traded value the other way.
   */
  lemma MatchMovesInventory(levels: seq<Level>, size: real, side: Side, l: Ledger, mid: real, now: int)
    ensures var r := Sweep(levels, size, side);
            var a := Settle(l, r.fills, mid, now);
            && (side == Buy ==> a.base == l.base - (size - r.remain) && a.idr == l.idr + Notional(r.fills))
            && (side == Sell ==> a.base == l.base + (size - r.remain) && a.idr == l.idr - Notional(r.fills))
  {
    var r := Sweep(levels, size, side);
    SweepFilled(levels, size, side);
    SweepFillPrices(levels, size, side);
    if side == Buy {
      SettleBuys(l, r.fills, mid, now);
    } else {
      SettleSells(l, r.fills, mid, now);
    }
  }

  /**
   * The average-price indicator as written: the guard tests the cumulative
   * `totalBase`, not the number of fills of this call. `None` stands for the
   * `NaN` that `0 / 0` gives.
   */
  function AvgPriceAsWritten(totalBase: real, ts: seq<Trade>): Option<real> {
    if totalBase != 0.0 then
      (if |ts| == 0 then None else Some(PriceSum(ts) / |ts| as real))
    else Some(0.0)
  }

  /**
   * Two inputs that show the guard is the wrong one: a call with no fill
   * after earlier trades yields `NaN`, and a call whose fills bring the
   * cumulative base back to zero reports 0 although it traded at 100.
   */
  lemma AvgPriceAsWrittenMisfires()
    ensures AvgPriceAsWritten(5.0, []) == None
    ensures AvgPriceAsWritten(0.0, [Trade(100.0, 5.0, Sell)]) == Some(0.0)
  {
  }

  /** The average-price indicator as intended: the mean fill price of this call, 0 without fills. */
  function AvgPrice(ts: seq<Trade>): (a: real)
    ensures ts == [] ==> a == 0.0
    ensures ts != [] ==> a * |ts| as real == PriceSum(ts)
  {
    if ts == [] then 0.0 else PriceSum(ts) / |ts| as real
  }

  lemma {:induction false} PriceSumBounds(ts: seq<Trade>, lo: real, hi: real)
    requires forall i :: 0 <= i < |ts| ==> lo <= ts[i].price <= hi
    ensures |ts| as real * lo <= PriceSum(ts) <= |ts| as real * hi
  {
    if ts != [] {
      PriceSumBounds(ts[1..], lo, hi);
      assert |ts| as real * lo == lo + |ts[1..]| as real * lo;
      assert |ts| as real * hi == hi + |ts[1..]| as real * hi;
    }
  }

  /** The mean fill price lies within the range of the fill prices. */
  lemma AvgPriceWithinFills(ts: seq<Trade>, lo: real, hi: real)
    requires ts != []
    requires forall i :: 0 <= i < |ts| ==> lo <= ts[i].price <= hi
    ensures lo <= AvgPrice(ts) <= hi
  {
    PriceSumBounds(ts, lo, hi);
    MeanBetween(AvgPrice(ts), |ts| as real, PriceSum(ts), lo, hi);
  }
}
