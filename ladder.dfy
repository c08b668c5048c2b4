/**
 * The deterministic price shape of a synthesised ladder (server.js lines 63-89):
 * the top of book sits half the spread away from the mid price and deeper
 * levels step away geometrically by DEPTH_FACTOR.
 */
module Ladder {
  import opened Config
  import opened Values
  import opened Book

  /** Price of the best bid around `mid`. */
  function TopBid(mid: real): real {
    mid * (1.0 - SPREAD_PCT / 2.0)
  }

  /** Price of the best ask around `mid`. */
  function TopAsk(mid: real): real {
    mid * (1.0 + SPREAD_PCT / 2.0)
  }

  /** Price of the bid `i` levels below the top. */
  function BidPrice(mid: real, i: nat): real {
    PowAtLeastOne(DEPTH_FACTOR, i);
    TopBid(mid) / Pow(DEPTH_FACTOR, i)
  }

  /** Price of the ask `i` levels above the top. */
  function AskPrice(mid: real, i: nat): real {
    TopAsk(mid) * Pow(DEPTH_FACTOR, i)
  }

  /** A quantity `randBetween(LIQUIDITY_MIN, LIQUIDITY_MAX)` can return. */
  predicate Draw(q: real) {
    LIQUIDITY_MIN <= q <= LIQUIDITY_MAX
  }

  predicate Draws(qs: seq<real>) {
    forall i :: 0 <= i < |qs| ==> Draw(qs[i])
  }

  /**
   * One side of a fresh ladder as the push loop builds it: level `i` takes the
   * `i`-th quantity draw and the id `firstId + 2 * i`, because the loop hands out
   * ids alternately to a bid and an ask.
   */
  function LadderSide(mid: real, firstId: nat, qtys: seq<real>, desc: bool): (r: seq<Level>)
    ensures |r| == |qtys|
  {
    seq(|qtys|, i requires 0 <= i < |qtys| =>
      Level(firstId + 2 * i, if desc then BidPrice(mid, i) else AskPrice(mid, i), qtys[i], OWNER))
  }

  /** Building one more level of a side appends it with the next id of that side. */
  lemma LadderSideSnoc(mid: real, firstId: nat, qtys: seq<real>, q: real, desc: bool)
    ensures LadderSide(mid, firstId, qtys + [q], desc)
            == LadderSide(mid, firstId, qtys, desc)
               + [Level(firstId + 2 * |qtys|, if desc then BidPrice(mid, |qtys|) else AskPrice(mid, |qtys|), q, OWNER)]
  {
    var l := LadderSide(mid, firstId, qtys + [q], desc);
    var r := LadderSide(mid, firstId, qtys, desc)
             + [Level(firstId + 2 * |qtys|, if desc then BidPrice(mid, |qtys|) else AskPrice(mid, |qtys|), q, OWNER)];
    forall i | 0 <= i < |l| ensures l[i] == r[i] {
      if i < |qtys| {
        assert (qtys + [q])[i] == qtys[i];
      }
    }
  }

  /** The first `i + 1` draws build the side of the first `i` draws plus level `i`. */
  lemma LadderSidePrefix(mid: real, firstId: nat, qtys: seq<real>, i: nat, desc: bool)
    requires i < |qtys|
    ensures LadderSide(mid, firstId, qtys[..i + 1], desc)
            == LadderSide(mid, firstId, qtys[..i], desc)
               + [Level(firstId + 2 * i, if desc then BidPrice(mid, i) else AskPrice(mid, i), qtys[i], OWNER)]
  {
    assert qtys[..i + 1] == qtys[..i] + [qtys[i]];
    LadderSideSnoc(mid, firstId, qtys[..i], qtys[i], desc);
  }

  /**
   * Around a positive mid price a side is already in book order, so the sort
   * that follows the push loop leaves it as built, whatever the draws.
   */
  lemma LadderSideSorted(mid: real, firstId: nat, qtys: seq<real>, desc: bool)
    requires mid > 0.0
    ensures SortBy(LadderSide(mid, firstId, qtys, desc), desc) == LadderSide(mid, firstId, qtys, desc)
  {
    var side := LadderSide(mid, firstId, qtys, desc);
    forall i, j | 0 <= i < j < |side| ensures Ranked(side[i], side[j], desc) {
      if desc {
        BidsDescend(mid, i, j);
      } else {
        AsksAscend(mid, i, j);
      }
    }
    SortedUnchanged(side, desc);
  }

  /** One level deeper, a bid is cheaper by the depth factor. */
  lemma BidStep(mid: real, i: nat)
    ensures BidPrice(mid, i + 1) * DEPTH_FACTOR == BidPrice(mid, i)
  {
    PowAtLeastOne(DEPTH_FACTOR, i);
    var p := Pow(DEPTH_FACTOR, i);
    assert Pow(DEPTH_FACTOR, i + 1) == DEPTH_FACTOR * p;
    calc {
      BidPrice(mid, i + 1) * DEPTH_FACTOR;
      (TopBid(mid) / (DEPTH_FACTOR * p)) * DEPTH_FACTOR;
      TopBid(mid) / p;
    }
  }

  /** Bids get strictly cheaper with depth. */
  lemma {:induction false} BidsDescend(mid: real, i: nat, j: nat)
    requires mid > 0.0 && i < j
    ensures 0.0 < BidPrice(mid, j) < BidPrice(mid, i)
  {
    PowAtLeastOne(DEPTH_FACTOR, j);
    BidStep(mid, j - 1);
    if i < j - 1 {
      BidsDescend(mid, i, j - 1);
    }
  }

  /** Asks get strictly dearer with depth. */
  lemma {:induction false} AsksAscend(mid: real, i: nat, j: nat)
    requires mid > 0.0 && i < j
    ensures 0.0 < AskPrice(mid, i) < AskPrice(mid, j)
  {
    PowAtLeastOne(DEPTH_FACTOR, i);
    PowAtLeastOne(DEPTH_FACTOR, j - 1);
    var p := Pow(DEPTH_FACTOR, j - 1);
    assert AskPrice(mid, j) == DEPTH_FACTOR * (TopAsk(mid) * p);
    if i < j - 1 {
      AsksAscend(mid, i, j - 1);
    }
  }

  /**
   * The ladder shape promised for a positive mid price: each side has one level
   * per draw, bids strictly descending from TopBid, asks strictly ascending from
   * TopAsk, the best bid below the best ask, every price positive, every
   * quantity a draw, and ids drawn from the counter all distinct.
   */
  lemma LadderShape(mid: real, counter: nat, qtyBids: seq<real>, qtyAsks: seq<real>)
    requires mid > 0.0
    requires |qtyBids| == LEVELS && |qtyAsks| == LEVELS
    requires Draws(qtyBids) && Draws(qtyAsks)
    ensures var bids := LadderSide(mid, counter, qtyBids, true);
            var asks := LadderSide(mid, counter + 1, qtyAsks, false);
            && |bids| == LEVELS && |asks| == LEVELS
            && bids[0].price == mid * (1.0 - SPREAD_PCT / 2.0)
            && asks[0].price == mid * (1.0 + SPREAD_PCT / 2.0)
            && WellFormed(bids, asks)
            && (forall i :: 0 <= i < LEVELS ==> Draw(bids[i].qty) && Draw(asks[i].qty))
            && (forall i, j :: 0 <= i < LEVELS && 0 <= j < LEVELS ==> bids[i].id != asks[j].id)
            && (forall i, j :: 0 <= i < j < LEVELS ==> bids[i].id != bids[j].id && asks[i].id != asks[j].id)
            && (forall i :: 0 <= i < LEVELS ==>
                  counter <= bids[i].id < counter + 2 * LEVELS && counter <= asks[i].id < counter + 2 * LEVELS)
  {
    var bids := LadderSide(mid, counter, qtyBids, true);
    var asks := LadderSide(mid, counter + 1, qtyAsks, false);
    forall i, j | 0 <= i < j < |bids| ensures Ahead(bids[i], bids[j], true) {
      BidsDescend(mid, i, j);
    }
    forall i, j | 0 <= i < j < |asks| ensures Ahead(asks[i], asks[j], false) {
      AsksAscend(mid, i, j);
    }
    forall i | 0 <= i < |bids| ensures bids[i].price > 0.0 {
      if i > 0 { BidsDescend(mid, 0, i); }
    }
    forall i | 0 <= i < |asks| ensures asks[i].price > 0.0 {
      PowAtLeastOne(DEPTH_FACTOR, i);
    }
    assert Pow(DEPTH_FACTOR, 0) == 1.0;
  }

  /**
   * The price shape is deterministic: two ladders around the same mid price
   * have the same prices whatever the quantity draws and the id counter.
   * It holds by construction, since `LadderSide` takes each price from the
   * mid price and the level index alone.
   */
  lemma PricesIgnoreDraws(mid: real, c1: nat, c2: nat, q1: seq<real>, q2: seq<real>, desc: bool)
    requires |q1| == |q2|
    ensures forall i :: 0 <= i < |q1| ==>
              LadderSide(mid, c1, q1, desc)[i].price == LadderSide(mid, c2, q2, desc)[i].price
  {
  }

  /** A ladder built around a positive mid price is a well-formed book. */
  lemma LadderWellFormed(mid: real, counter: nat, qtyBids: seq<real>, qtyAsks: seq<real>)
    requires mid > 0.0
    requires |qtyBids| == LEVELS && |qtyAsks| == LEVELS
    requires Draws(qtyBids) && Draws(qtyAsks)
    ensures WellFormed(LadderSide(mid, counter, qtyBids, true), LadderSide(mid, counter + 1, qtyAsks, false))
  {
    LadderShape(mid, counter, qtyBids, qtyAsks);
  }
}
