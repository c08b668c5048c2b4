/**
 * The periodic drift of the live book toward a freshly synthesised ladder
 * (server.js lines 161-180): index by index, each live level's price moves a
 * PRICE_SMOOTHING share of the way to the target level's price and its
 * quantity is multiplied by a random jitter, floored at QTY_FLOOR.
 */
module Drift {
  import opened Config
  import opened Values
  import opened Book

  /** A factor `0.95 + Math.random() * 0.1` can produce. */
  predicate Jitter(u: real) {
    JITTER_MIN <= u <= JITTER_MAX
  }

  predicate Jitters(us: seq<real>) {
    forall i :: 0 <= i < |us| ==> Jitter(us[i])
  }

  /** One live level after a drift step toward `target` with jitter `u`. */
  function Blended(live: Level, target: Level, u: real): Level {
    live.(price := Smooth(live.price, target.price), qty := Max(QTY_FLOOR, live.qty * u))
  }

  /**
   * The drift loop over one side: indices present on both the live side and
   * the target side are blended, the others are left as they are.
   */
  function Blend(live: seq<Level>, target: seq<Level>, jitter: seq<real>): (r: seq<Level>)
    requires |target| <= |jitter|
    ensures |r| == |live|
  {
    seq(|live|, i requires 0 <= i < |live| =>
      if i < |target| then Blended(live[i], target[i], jitter[i]) else live[i])
  }

  /** Blending toward one more target level blends one more live level, if there is one. */
  lemma BlendSnoc(live: seq<Level>, target: seq<Level>, x: Level, jitter: seq<real>)
    requires |target| < |jitter|
    ensures var k := |target|;
            Blend(live, target + [x], jitter)
            == if k < |live| then Blend(live, target, jitter)[k := Blended(live[k], x, jitter[k])]
               else Blend(live, target, jitter)
  {
    var k := |target|;
    var l := Blend(live, target + [x], jitter);
    var r := if k < |live| then Blend(live, target, jitter)[k := Blended(live[k], x, jitter[k])]
             else Blend(live, target, jitter);
    forall i | 0 <= i < |l| ensures l[i] == r[i] {
      if i < k {
        assert (target + [x])[i] == target[i];
      }
    }
  }

  /** The smoothed price lies between the old and the target price. */
  lemma SmoothBetween(current: real, target: real)
    ensures Min(current, target) <= Smooth(current, target) <= Max(current, target)
    ensures current == target ==> Smooth(current, target) == current
  {
  }

  /**
   * What one drift step does to each level: it keeps the id and owner, a
   * touched level's price lies between its old price and the target's, its
   * quantity is at least QTY_FLOOR and at most a jitter away from the old one,
   * and a level without a counterpart is unchanged.
   */
  lemma BlendLevels(live: seq<Level>, target: seq<Level>, jitter: seq<real>)
    requires |target| <= |jitter| && Jitters(jitter)
    ensures var r := Blend(live, target, jitter);
            forall i :: 0 <= i < |live| ==>
              && r[i].id == live[i].id && r[i].owner == live[i].owner
              && (i < |target| ==>
                   && Min(live[i].price, target[i].price) <= r[i].price <= Max(live[i].price, target[i].price)
                   && r[i].qty >= QTY_FLOOR
                   && r[i].qty >= live[i].qty * JITTER_MIN
                   && (live[i].qty >= 0.0 ==> r[i].qty <= Max(QTY_FLOOR, live[i].qty * JITTER_MAX)))
              && (i >= |target| ==> r[i] == live[i])
  {
    var r := Blend(live, target, jitter);
    forall i | 0 <= i < |live| && i < |target|
      ensures Min(live[i].price, target[i].price) <= r[i].price <= Max(live[i].price, target[i].price)
      ensures r[i].qty >= live[i].qty * JITTER_MIN
      ensures live[i].qty >= 0.0 ==> r[i].qty <= Max(QTY_FLOOR, live[i].qty * JITTER_MAX)
    {
      SmoothBetween(live[i].price, target[i].price);
      assert Jitter(jitter[i]);
      BlendedQty(live[i].qty, jitter[i]);
    }
  }

  /** The jittered quantity of one level stays within a jitter of the old one, and above the floor. */
  lemma BlendedQty(q: real, u: real)
    requires Jitter(u)
    ensures Max(QTY_FLOOR, q * u) >= q * JITTER_MIN
    ensures q >= 0.0 ==> Max(QTY_FLOOR, q * u) <= Max(QTY_FLOOR, q * JITTER_MAX)
  {
    if q >= 0.0 {
      MulNonNegative(q, u - JITTER_MIN);
      MulNonNegative(q, JITTER_MAX - u);
      FlooredBetween(q * JITTER_MIN, q * u, q * JITTER_MAX);
    } else {
      MulNonNegative(-q, JITTER_MIN);
      assert q * JITTER_MIN == -((-q) * JITTER_MIN);
    }
  }

  /** A value between `lo` and `hi` stays between them once floored, up to the floor. */
  lemma FlooredBetween(lo: real, x: real, hi: real)
    requires lo <= x <= hi
    ensures lo <= Max(QTY_FLOOR, x) <= Max(QTY_FLOOR, hi)
  {
  }

  /**
   * Blending a strictly sorted live side toward a strictly sorted target of at
   * least its length keeps it strictly sorted, so the re-sort that follows the
   * blend never reorders the side: the jitter touches quantities only.
   */
  lemma {:induction false} BlendKeepsOrder(live: seq<Level>, target: seq<Level>, jitter: seq<real>, desc: bool)
    requires |target| <= |jitter| && |live| <= |target|
    requires StrictlySorted(live, desc) && StrictlySorted(target, desc)
    ensures StrictlySorted(Blend(live, target, jitter), desc)
    ensures SortBy(Blend(live, target, jitter), desc) == Blend(live, target, jitter)
  {
    var r := Blend(live, target, jitter);
    forall i, j | 0 <= i < j < |r| ensures Ahead(r[i], r[j], desc) {
      assert Ahead(live[i], live[j], desc) && Ahead(target[i], target[j], desc);
    }
    StrictlySortedIsSorted(r, desc);
    SortedUnchanged(r, desc);
  }

  /** Blending keeps every level live and every price positive. */
  lemma BlendKeepsLevels(live: seq<Level>, target: seq<Level>, jitter: seq<real>)
    requires |target| <= |jitter|
    requires Live(live) && Priced(live) && Priced(target)
    ensures Live(Blend(live, target, jitter)) && Priced(Blend(live, target, jitter))
  {
  }

  /**
   * When the live book and the target are both uncrossed, so is the blended
   * book: the best bid and the best ask move by the same convex combination.
   */
  lemma BlendKeepsSpread(bids: seq<Level>, asks: seq<Level>, targetBids: seq<Level>, targetAsks: seq<Level>,
                         bidJitter: seq<real>, askJitter: seq<real>)
    requires |targetBids| <= |bidJitter| && |targetAsks| <= |askJitter|
    requires 0 < |targetBids| && 0 < |targetAsks|
    requires Uncrossed(bids, asks) && Uncrossed(targetBids, targetAsks)
    ensures Uncrossed(Blend(bids, targetBids, bidJitter), Blend(asks, targetAsks, askJitter))
  {
  }

  /**
   * A drift step keeps the book well-formed: blending a well-formed book
   * toward a well-formed target ladder with a full LEVELS levels a side
   * leaves both sides strictly sorted, live, priced and uncrossed, so the
   * re-sort that follows changes nothing.
   */
  lemma DriftKeepsBook(bids: seq<Level>, asks: seq<Level>, targetBids: seq<Level>, targetAsks: seq<Level>,
                       bidJitter: seq<real>, askJitter: seq<real>)
    requires WellFormed(bids, asks) && WellFormed(targetBids, targetAsks)
    requires |targetBids| == LEVELS && |targetAsks| == LEVELS
    requires |bidJitter| == LEVELS && |askJitter| == LEVELS
    ensures var b := Blend(bids, targetBids, bidJitter);
            var a := Blend(asks, targetAsks, askJitter);
            && WellFormed(b, a)
            && SortBy(b, true) == b && SortBy(a, false) == a
  {
    BlendKeepsOrder(bids, targetBids, bidJitter, true);
    BlendKeepsOrder(asks, targetAsks, askJitter, false);
    BlendKeepsLevels(bids, targetBids, bidJitter);
    BlendKeepsLevels(asks, targetAsks, askJitter);
    BlendKeepsSpread(bids, asks, targetBids, targetAsks, bidJitter, askJitter);
  }
}
