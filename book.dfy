/**
 * The order book: ladder levels, the order of each side, and the stable sort
 * the server applies to a side (`Array.prototype.sort` with a price comparator,
 * server.js lines 85-86 and 178-179).
 */
module Book {
  import opened Config

  /** The side of a taker order: a buy consumes asks, a sell consumes bids. */
  datatype Side = Buy | Sell

  /** One resting market-maker order. The server's string id `mm-<n>` is modelled by `n`. */
  datatype Level = Level(id: nat, price: real, qty: real, owner: string)

  /** The owner every synthesised level carries. */
  const OWNER: string := "mm"

  /** `a` may stand before `b` on a side sorted by price, descending (bids) or ascending (asks). */
  predicate Ranked(a: Level, b: Level, desc: bool) {
    if desc then a.price >= b.price else a.price <= b.price
  }

  /** `a` stands strictly before `b`: it has the better price. */
  predicate Ahead(a: Level, b: Level, desc: bool) {
    if desc then a.price > b.price else a.price < b.price
  }

  predicate Sorted(s: seq<Level>, desc: bool) {
    forall i, j :: 0 <= i < j < |s| ==> Ranked(s[i], s[j], desc)
  }

  predicate StrictlySorted(s: seq<Level>, desc: bool) {
    forall i, j :: 0 <= i < j < |s| ==> Ahead(s[i], s[j], desc)
  }

  /** Every level still holds more than dust. */
  predicate Live(s: seq<Level>) {
    forall i :: 0 <= i < |s| ==> s[i].qty > DUST
  }

  /** Every level has a positive price. */
  predicate Priced(s: seq<Level>) {
    forall i :: 0 <= i < |s| ==> s[i].price > 0.0
  }

  /** The best bid is below the best ask whenever both sides are non-empty. */
  predicate Uncrossed(bids: seq<Level>, asks: seq<Level>) {
    bids != [] && asks != [] ==> bids[0].price < asks[0].price
  }

  /** The shape the server keeps its book in between events. */
  predicate WellFormed(bids: seq<Level>, asks: seq<Level>) {
    && |bids| <= LEVELS && |asks| <= LEVELS
    && StrictlySorted(bids, true) && StrictlySorted(asks, false)
    && Live(bids) && Live(asks)
    && Priced(bids) && Priced(asks)
    && Uncrossed(bids, asks)
  }

  /** Total resting quantity of a side. */
  function Total(s: seq<Level>): real {
    if s == [] then 0.0 else s[0].qty + Total(s[1..])
  }

  lemma {:induction false} TotalOfLive(s: seq<Level>)
    requires Live(s)
    ensures Total(s) >= 0.0
    ensures s != [] ==> Total(s) >= s[0].qty
  {
    if s != [] {
      TotalOfLive(s[1..]);
    }
  }

  lemma StrictlySortedIsSorted(s: seq<Level>, desc: bool)
    requires StrictlySorted(s, desc)
    ensures Sorted(s, desc)
  {
  }

  /** Inserts `x` before the first element it may precede; equal prices keep their order. */
  function Insert(x: Level, s: seq<Level>, desc: bool): (r: seq<Level>)
    ensures multiset(r) == multiset(s) + multiset{x}
  {
    if s == [] || Ranked(x, s[0], desc) then [x] + s
    else
      assert s == [s[0]] + s[1..];
      [s[0]] + Insert(x, s[1..], desc)
  }

  /** A level ranked ahead of `x` and of all of `s` is ranked ahead of all of `Insert(x, s)`. */
  lemma {:induction false} InsertBelow(b: Level, x: Level, s: seq<Level>, desc: bool)
    requires Ranked(b, x, desc)
    requires forall k :: 0 <= k < |s| ==> Ranked(b, s[k], desc)
    ensures forall j :: 0 <= j < |Insert(x, s, desc)| ==> Ranked(b, Insert(x, s, desc)[j], desc)
  {
    var r := Insert(x, s, desc);
    if s == [] || Ranked(x, s[0], desc) {
      forall j | 0 < j < |r| ensures Ranked(b, r[j], desc) {
        assert r[j] == s[j - 1];
      }
    } else {
      InsertBelow(b, x, s[1..], desc);
      var t := Insert(x, s[1..], desc);
      forall j | 0 < j < |r| ensures Ranked(b, r[j], desc) {
        assert r[j] == t[j - 1];
      }
    }
  }

  lemma {:induction false} InsertSorted(x: Level, s: seq<Level>, desc: bool)
    requires Sorted(s, desc)
    ensures Sorted(Insert(x, s, desc), desc)
  {
    if s == [] || Ranked(x, s[0], desc) {
      var r := [x] + s;
      forall i, j | 0 <= i < j < |r| ensures Ranked(r[i], r[j], desc) {
        if i == 0 && j > 1 {
          assert Ranked(s[0], s[j - 1], desc);
        }
      }
    } else {
      var t := Insert(x, s[1..], desc);
      InsertSorted(x, s[1..], desc);
      var r := [s[0]] + t;
      InsertBelow(s[0], x, s[1..], desc);
      forall i, j | 0 <= i < j < |r| ensures Ranked(r[i], r[j], desc) {
        if i == 0 {
          assert r[j] == t[j - 1];
        } else {
          assert r[i] == t[i - 1] && r[j] == t[j - 1];
        }
      }
    }
  }

  /**
   * The stable sort of a side by price: descending when `desc` (bids),
   * ascending otherwise (asks). The result is sorted; `SortByPermutes`
   * shows it is a permutation of `s`.
   */
  function SortBy(s: seq<Level>, desc: bool): (r: seq<Level>)
    ensures |r| == |s|
    ensures Sorted(r, desc)
  {
    if s == [] then []
    else
      var rest := SortBy(s[1..], desc);
      InsertSorted(s[0], rest, desc);
      assert |multiset(Insert(s[0], rest, desc))| == |rest| + 1;
      Insert(s[0], rest, desc)
  }

  /** The sort only reorders: its result holds exactly the levels of its input. */
  lemma {:induction false} SortByPermutes(s: seq<Level>, desc: bool)
    ensures multiset(SortBy(s, desc)) == multiset(s)
  {
    if s != [] {
      SortByPermutes(s[1..], desc);
      assert s == [s[0]] + s[1..];
    }
  }

  /** Sorting a side that is already in order leaves it exactly as it was. */
  lemma {:induction false} SortedUnchanged(s: seq<Level>, desc: bool)
    requires Sorted(s, desc)
    ensures SortBy(s, desc) == s
  {
    if s != [] {
      assert Sorted(s[1..], desc);
      SortedUnchanged(s[1..], desc);
      assert s == [s[0]] + s[1..];
    }
  }
}
