# Market-maker simulation: a verified model

This project models the core of a small market-maker simulator (`server.js`).
The server fuses two external trade feeds into a reference ("mid") price:
base/USDT times USDT/IDR, smoothed exponentially. Around that price it
synthesises a ladder of resting orders, LEVELS on each side. Taker market
orders are matched against the book. Each fill moves the market maker's
inventory and IDR balance, its cumulative base traded and its unrealised PnL
against the mid price. Each fill is also prepended to a capped trade log.
A periodic timer drifts the live book toward a fresh ladder around the
current mid price.

The model is written in Dafny and has these modules:

- `Config`: the constants of the server.
- `Values`: JavaScript-number helpers (`Option` for `null`/`NaN`, truthiness, `Math.min`/`max`, `Math.pow`).
- `Book`: levels, side order and the stable sort.
- `Ladder`: the price shape of a synthesised ladder.
- `Drift`: blending the live book toward a target ladder.
- `Matching`: the sweep of one side by a market order.
- `Settlement`: accounting, the trade log and the average-price indicator.
- `PriceFusion`: mid-price recomputation.
- `Requests`: validation of the market-order endpoint.
- `Server`: a `Market` class holding every global the server mutates.

Each handler of `Market` is a method with a loop where the source has one.
Each method is proved against a specification function: `Sweep` for the
matching loop, `Settle` (a left fold of `Post`) for the per-fill booking,
`LadderSide` for the push loop, and `Blend` for the drift loop. The
properties the server relies on are proved as lemmas about those functions.

The book invariant `Market.Valid` holds on both sides:

- every side is strictly sorted best-first and holds at most LEVELS levels;
- every level holds more than dust (1e-9) and has a positive price;
- the best bid is below the best ask;
- the trade log is within its capacity of 200.

The constructor establishes `Valid`, and every handler preserves it.

Randomness and the clock are parameters:

- the quantity draws are a sequence of reals in [LIQUIDITY_MIN, LIQUIDITY_MAX];
- the drift jitter factors are reals in [0.95, 1.05];
- `Date.now()` is a `now` argument.

JavaScript numbers are modelled as exact reals.

The drift step re-sorts both sides, but the re-sort never reorders
anything: the jitter multiplies quantities only, and each blended price is a
convex combination of two strictly sorted ladders (`Drift.BlendKeepsOrder`).
The model still performs the sort, as the code does.

Apart from the abstractions listed under "## Left out", the model departs
from the code in two places. `Market` stores the mean fill price of the
order as the average-price indicator, where line 154 guards the division by
the cumulative base traded (see "## Findings"). A match stamps all its log
entries with one `now`, where line 150 reads the clock once per fill.

## Model

| member | source | states |
|---|---|---|
| `Values.Truthy` | server.js:198 | specification predicate: JavaScript truthiness of a parsed number (`null`, `NaN` and 0 are falsy); used by `Requests.Validate` and `PriceFusion.NextMid`; in the timer guards of lines 276 and 285, `midPrice && midPrice > 0` reduces on reals to `midPrice > 0.0`, which `InitTick` and `DriftTick` test directly |
| `Values.Smooth` | server.js:266 | specification function: one exponential smoothing step, weight 0.2 on the target; its properties are in `Drift.SmoothBetween` and `PriceFusion.MidSmooths` |
| `Values.Pow` | server.js:75-76 | specification function: `Math.pow` with a natural exponent; its properties are in `Ladder.BidStep` and `PriceFusion.GapStep` |
| `Ladder.TopBid` | server.js:65 | specification function: the best bid around a mid; its properties are in `Ladder.LadderShape` |
| `Ladder.TopAsk` | server.js:66 | specification function: the best ask around a mid; its properties are in `Ladder.LadderShape` |
| `Ladder.BidPrice` | server.js:75 | specification function: the bid i levels deep; its properties are in `Ladder.BidStep` and `Ladder.BidsDescend` |
| `Ladder.AskPrice` | server.js:76 | specification function: the ask i levels deep; its properties are in `Ladder.AsksAscend` |
| `Drift.Blended` | server.js:167-173 | specification function: one level after a drift step; its properties are in `Drift.BlendedQty`, `Drift.SmoothBetween` and `Drift.BlendLevels` |
| `Matching.Sweep` | server.js:102-109 | specification function: the matching loop over one side; its properties are in `Matching.SweepStops`, `SweepFilled`, `SweepBounded`, `SweepRest`, `SweepFillPrices`, `SweepRemoves`, `SweepFillsWhenLiquid`, `SweepExhausts`, `SweepConserves` and `SweepKeepsSide` |
| `Settlement.Edge` | server.js:136-145 | specification function: the PnL of one fill against the mid; its properties are in `Settlement.SettleBuys` and `SettleSells` |
| `Settlement.PushLog` | server.js:150-151 | specification function: unshift, then pop once over capacity; its properties are in `Settlement.PushRecent` and `SettleLog` |
| `Settlement.Post` | server.js:130-151 | specification function: the accounts after one fill; its properties are in `Settlement.SettleSnoc` |
| `Settlement.Settle` | server.js:130-152 | specification function: the accounts after every fill in order; its properties are in `Settlement.SettleBuys`, `SettleSells`, `SettleLog` and `MatchMovesInventory` |
| `Settlement.AvgPriceAsWritten` | server.js:154 | specification function: the average-price indicator as written, `None` for `NaN`; its misfires are in `Settlement.AvgPriceAsWrittenMisfires` |
| `Settlement.Entry` | server.js:150 | specification function: the log entry of one fill (time stamp, price, quantity, side and the fill's PnL); its properties are in `Settlement.NewestFirstOrder` and `SettleLog` |
| `Settlement.Flow` | server.js:135-143 | specification function: the signed IDR flow of one fill; its properties are in `Settlement.SettleSnoc` and `Server.Market.BookFill` |
| `Settlement.IdrFlow` | server.js:127-157 | specification function: the `totalIDR` of a match; its properties are in `Settlement.SettleSnoc` and the `result.totalIDR` conjunct of `Server.Market.MatchMarketOrder` |
| `Settlement.PriceSum` | server.js:148 | specification function: the `totalPrice` of a match; its properties are in `Settlement.SettleSnoc`, `PriceSumBounds` and `AvgPrice` |
| `Ladder.Draw` | server.js:77-78 | specification predicate: the range of a quantity draw, [LIQUIDITY_MIN, LIQUIDITY_MAX]; used by `Ladder.LadderShape` |
| `Drift.Jitter` | server.js:169 | specification predicate: the range of the jitter factor, [0.95, 1.05]; used by `Drift.BlendedQty` and `BlendLevels` |
| `PriceFusion.NextMid` | server.js:261-268 | specification function: the mid after one recomputation; its properties are in `PriceFusion.MidWaitsForQuotes`, `MidStartsAtProduct`, `MidSmooths` and `MidConverges` |
| `Values.Min` | server.js:104 | `Math.min`: the result is one of the two arguments and no larger than either |
| `Values.Max` | server.js:169 | `Math.max`: the result is one of the two arguments and no smaller than either |
| `Book.Insert` | server.js:85-86 | one insertion step of the stable sort adds exactly the inserted level to the side's multiset |
| `Book.InsertSorted` | server.js:85-86 | inserting a level into a side sorted by price keeps it sorted |
| `Book.SortBy` | server.js:85-86 | sorting a side by price yields a side of the same length, sorted best first (descending for bids, ascending for asks) |
| `Book.SortByPermutes` | server.js:85-86 | the sort is a permutation: the sorted side holds exactly the levels of the input |
| `Book.SortedUnchanged` | server.js:178-179 | re-sorting a side that is already in book order leaves it exactly as it was |
| `Ladder.LadderSide` | server.js:74-82 | a side built by the push loop has one level per quantity draw |
| `Ladder.LadderSideSnoc` | server.js:80-81 | one more turn of the push loop appends one level with the side's next id, price step and draw |
| `Ladder.LadderSidePrefix` | server.js:74-82 | after i + 1 turns a side is its first i levels followed by level i |
| `Ladder.BidStep` | server.js:75 | each deeper bid is cheaper by exactly the depth factor 1.0008 |
| `Ladder.BidsDescend` | server.js:75 | around a positive mid, bid prices are positive and strictly decrease with depth |
| `Ladder.AsksAscend` | server.js:76 | around a positive mid, ask prices are positive and strictly increase with depth |
| `Ladder.LadderSideSorted` | server.js:84-86 | around a positive mid, the sort after the push loop leaves each side exactly as built, whatever the draws |
| `Ladder.LadderShape` | server.js:63-89 | for a positive mid: LEVELS levels a side; best bid `mid*(1-SPREAD/2)`, best ask `mid*(1+SPREAD/2)`; bids strictly descending, asks strictly ascending, uncrossed; positive prices; every quantity a draw; ids all distinct, drawn from the counter's next 2*LEVELS values |
| `Ladder.PricesIgnoreDraws` | server.js:74-78 | the price shape is deterministic: two ladders around one mid have the same prices whatever the draws and the id counter |
| `Ladder.LadderWellFormed` | server.js:63-89 | a ladder around a positive mid is a well-formed book |
| `Drift.Blend` | server.js:165-175 | the drift loop keeps the length of the live side |
| `Drift.BlendSnoc` | server.js:165-175 | one more loop index blends one more live level, if the live side has one, and changes nothing else |
| `Drift.SmoothBetween` | server.js:167 | the smoothed price lies between the old and the target price, and is unchanged when they agree |
| `Drift.BlendedQty` | server.js:169 | the jittered quantity is at least the old quantity times 0.95 and, for a non-negative old quantity, at most the larger of 1e-6 and the old quantity times 1.05 |
| `Drift.BlendLevels` | server.js:165-175 | per level: id and owner kept; a blended level's price lies between the old and target prices; its quantity is at least 1e-6 and within the jitter band of the old one; an unmatched level is untouched |
| `Drift.BlendKeepsOrder` | server.js:165-179 | blending a strictly sorted side toward a strictly sorted target of at least its length keeps it strictly sorted, so the re-sort is the identity |
| `Drift.BlendKeepsLevels` | server.js:165-175 | blending keeps every level live and every price positive |
| `Drift.BlendKeepsSpread` | server.js:165-175 | blending an uncrossed book toward an uncrossed target leaves it uncrossed |
| `Drift.DriftKeepsBook` | server.js:161-180 | a drift step toward a full well-formed ladder keeps the book well-formed, and both re-sorts change nothing |
| `Matching.AfterFill` | server.js:107-109 | a fill never lengthens the side: the head shrinks, and is removed once it holds 1e-9 or less |
| `Matching.SweepStep` | server.js:102-109 | one turn of the matching loop: a fill at the head's price of `min(remain, head qty)`, then the sweep of what is left |
| `Matching.SweptNothing` | server.js:99-100 | the matching loop's invariant holds before the first turn |
| `Matching.SweepTurn` | server.js:102-109 | one turn of the matching loop keeps its invariant |
| `Matching.SweptAll` | server.js:102 | when the loop stops, its fills, remaining side and unfilled quantity are those of the whole sweep |
| `Matching.SweepStops` | server.js:102 | the loop ends with at most 1e-9 left to fill or with the side empty |
| `Matching.SweepFilled` | server.js:157 | the fills add up to `filled = size - remain` |
| `Matching.SweepBounded` | server.js:101-121 | against a live side, a non-negative order ends with 0 <= remain <= size and every fill quantity positive |
| `Matching.SweepRest` | server.js:101-121 | the side left behind is the untouched tail after the removed levels, or that tail with its head reduced to more than dust, same id and price |
| `Matching.RestShift` | server.js:109 | removing the head level extends what may be left of the rest of the side to the whole side |
| `Matching.RestPartial` | server.js:107-109 | a fill leaving more than dust at the head leaves the side with its head reduced |
| `Matching.SweepFillPrices` | server.js:103-106 | fill i is at level i's price on the order's side, and every fill but the last takes its level's whole quantity |
| `Matching.FillsAlongShift` | server.js:103-109 | a fill that drains the head, followed by fills along the rest of the side, runs along the whole side |
| `Matching.SweepRemoves` | server.js:107-109 | a level is removed exactly when a fill drains it to dust: with k levels removed there are k or k+1 fills; with k + 1 fills, the last fill's level is the new head, holding its old quantity less the fill, which is more than dust |
| `Matching.RemovedPartial` | server.js:107-109 | a first fill leaving more than dust makes one fill and removes nothing |
| `Matching.RemovedShift` | server.js:109 | a first fill draining the head extends the fill/removal relation to the whole side |
| `Matching.RestKeepsSide` | server.js:101-121 | what a sweep may leave of a side stays strictly sorted, live and priced, with a head no better than the old head |
| `Matching.SweepKeepsSide` | server.js:101-121 | a swept side stays strictly sorted, live and priced, is no longer, and its best price is no better than before |
| `Matching.SweepFillsWhenLiquid` | server.js:101-121 | an order no larger than the side's total quantity is filled to within dust |
| `Matching.SweepExhausts` | server.js:101-121 | an order at least the side's total empties the side, fills exactly the total, and reports the shortfall as unfilled |
| `Matching.SweepConserves` | server.js:101-121 | quantity is conserved: the side's total equals the fills plus the remaining side, up to at most 1e-9 of removed dust |
| `Matching.FillsInPriceOrder` | server.js:102-106 | fills come best price first: strictly rising prices against asks, strictly falling against bids |
| `Matching.SweepKeepsBook` | server.js:96-121 | a market order keeps the book well-formed; side isolation appears in `Server.Market.MatchMarketOrder` |
| `Settlement.SettleSnoc` | server.js:130-152 | booking one more fill is one more `Post` step; `totalIDR` and `totalPrice` grow by that fill's flow and price |
| `Settlement.SettleBuys` | server.js:131-137 | taker buys: base balance and cumulative base fall by the filled quantity; IDR rises by the traded value; PnL rises by the traded value less that quantity at mid |
| `Settlement.SettleSells` | server.js:139-145 | taker sells, the mirror image: base and cumulative base rise; IDR falls by the traded value; PnL rises by the quantity at mid less the traded value |
| `Settlement.Recent` | server.js:151 | the capped log is a prefix of the full log and at most 200 long |
| `Settlement.NewestFirst` | server.js:150 | one log entry per fill; their order is in `Settlement.NewestFirstOrder` |
| `Settlement.NewestFirstOrder` | server.js:150 | a match's log entries come newest first: entry i is that of the fill i places from the last, so the last fill's entry is at index 0 |
| `Settlement.PushRecent` | server.js:150-151 | unshift then pop-if-over-capacity on a capped log equals capping the longer log |
| `Settlement.RecentOfRecent` | server.js:150-151 | capping the old log before prepending newer entries does not change the capped result |
| `Settlement.SettleLog` | server.js:150-151 | after a match the log is this match's entries, newest first, ahead of the old log, cut to the newest 200; so it never exceeds 200 and only the oldest entries are dropped |
| `Settlement.MatchMovesInventory` | server.js:123-146 | a whole market order moves the base balance by exactly `size - remain` against the order, and the IDR balance by the traded value the other way |
| `Settlement.AvgPriceAsWrittenMisfires` | server.js:154 | the guard as written yields `NaN` for an order with no fill after earlier trades, and 0 for an order whose fills bring the cumulative base back to zero |
| `Settlement.AvgPrice` | server.js:154 | the corrected indicator is 0 without fills, and otherwise times the fill count gives the sum of the fill prices |
| `Settlement.PriceSumBounds` | server.js:148 | the sum of n fill prices lies between n times their lower bound and n times their upper bound |
| `Settlement.AvgPriceWithinFills` | server.js:154 | the average price of a match lies within the range of its fill prices |
| `PriceFusion.MidWaitsForQuotes` | server.js:262 | until both quotes are truthy, recomputation leaves the mid price unchanged |
| `PriceFusion.MidStartsAtProduct` | server.js:263-266 | the first recomputation, from a mid of 0, sets the mid to the product of the quotes |
| `PriceFusion.MidSmooths` | server.js:266 | later recomputations land between the old mid and the product, closing 20% of the gap |
| `PriceFusion.MidStep` | server.js:261-268 | with positive quotes and a positive mid, one recomputation keeps the mid positive and closes 20% of the gap |
| `PriceFusion.IterateStep` | server.js:261-268 | the n-th of repeated recomputations with fixed quotes closes 20% of the previous gap and stays positive |
| `PriceFusion.GapStep` | server.js:266 | a gap of 0.8^(n-1) times the first, closed by 20%, is 0.8^n times the first |
| `PriceFusion.MidConverges` | server.js:261-268 | with fixed positive quotes, after n recomputations the mid stays positive and its gap to the product is 0.8^n times the first |
| `Requests.Validate` | server.js:196-199 | a request is accepted exactly when the side is "buy" or "sell" and the quantity parses to a positive number; the order carries that side and quantity; any rejection is "invalid" |
| `Server.Market.constructor` | server.js:31-49 | the start state: balances 1,000,000 base and 10,000,000 IDR; mid 0; no quotes; zero PnL, base traded and average; empty book and log; id counter 1; the start-up poll still waiting |
| `Server.Market.RecomputeMid` | server.js:261-268 | the mid becomes `NextMid` of the old mid and the two stored quotes |
| `Server.Market.OnExternalTrade` | server.js:229-232 | a base/USDT trade stores its price and recomputes the mid with it |
| `Server.Market.OnUsdtIdrTrade` | server.js:251-254 | a USDT/IDR trade stores its price and recomputes the mid with it |
| `Server.Market.BuildLadder` | server.js:74-82 | the push loop hands out 2*LEVELS ids, alternating bid then ask; each side is `LadderSide` of its draws, starting at the old counter (bids) and the old counter plus one (asks) |
| `Server.Market.GenerateOrderbook` | server.js:63-89 | the counter advances by 2*LEVELS; each side is sorted and a permutation of the pushed side; around a positive mid it is exactly the pushed side |
| `Server.Market.RebuildOrderbook` | server.js:91-93 | the book becomes the fresh ladder around the current mid, and stays valid |
| `Server.Market.FillHead` | server.js:103-109 | one turn of the loop fills `min(remain, head qty)` at the head's price; the side becomes `AfterFill`; the order's remainder shrinks by the fill; the loop makes progress |
| `Server.Market.TakeLiquidity` | server.js:99-121 | the matching loop's fills, remaining side and unfilled quantity are those of `Sweep` |
| `Server.Market.BookFill` | server.js:131-151 | booking one fill moves the accounts and the log by `Post`, and returns the fill's signed IDR flow |
| `Server.Market.BookFills` | server.js:127-152 | booking all fills in order leaves the accounts at `Settle` of the old accounts; returns `totalIDR` and the price sum |
| `Server.Market.MatchMarketOrder` | server.js:96-158 | a buy sweeps only the asks and a sell only the bids, the other side unchanged; the result carries the sweep's fills, `filled = size - remain`, the new `totalBase` and the IDR flow; the accounts are `Settle`d; the average is the mean fill price; the book stays valid |
| `Server.Market.BlendSides` | server.js:165-175 | the drift loop's result is `Blend` of each live side toward its target |
| `Server.Market.DriftTowards` | server.js:165-179 | the book becomes the re-sorted blend, which equals the blend itself, and stays valid |
| `Server.Market.DriftOrderbookTowards` | server.js:161-180 | a drift step blends the book toward the fresh ladder around `newMid`; the counter advances by 2*LEVELS; the re-sort changes nothing; the book stays valid |
| `Server.Market.PostMarket` | server.js:195-204 | an invalid request is rejected with "invalid" and changes nothing; a valid one runs the match with the validated side and size: the swept side, the fills, `filled`, the result's `totalBase` and `totalIDR`, the settled accounts and the average price are those of `MatchMarketOrder` |
| `Server.Market.InitTick` | server.js:275-281 | the start-up poll fires exactly when it is still waiting and the mid is positive; it then builds the first ladder around the mid, advances the id counter by 2*LEVELS and stops; otherwise nothing changes |
| `Server.Market.DriftTick` | server.js:284-290 | the drift timer fires exactly when the mid is positive and the bid side is non-empty; it then blends the book toward a ladder around the mid and advances the id counter by 2*LEVELS; otherwise nothing changes |
| `Server.Market.Snapshot` | server.js:209-210 | the broadcast payload carries the balances, book, mid price, PnL, base traded and average price, with the log cut to its newest 50 entries |

## Left out

- HTTP (Express), static files, CORS, the WebSocket server and its clients are not modelled. `Snapshot` models the payload of `broadcastState`; `/api/state` (lines 190-192) sends the same fields minus the PnL, base-traded and average-price indicators.
- The external feeds are not modelled: connecting, JSON parsing of messages, the `d.p` / `d.e === 'trade'` filters, logging and reconnect timers. `OnExternalTrade` and `OnUsdtIdrTrade` take the parsed price as an `Option` (`None` for `NaN`).
- Configuration from the environment (port, symbols, coin names) is left out, and so are `formatNum` and the server start-up.
- Timers are left out. `InitTick` and `DriftTick` each model one firing. `clearInterval` of the start-up poll is the `awaitingReference` flag.
- JavaScript numbers are modelled as exact reals: rounding, `Infinity` and the six-decimal rounding of the quantity draws are not captured. A quantity `Infinity` would pass validation in the source.
- `Math.random` is left out. The quantity draws and jitter factors are parameters constrained to closed ranges. The jitter factor never reaches 1.05 in the source, while a quantity draw can round up to exactly 400000.
- Level ids `mm-<n>` are modelled by the number `n`.
- The in-place mutation of level objects is modelled as value updates of sequences held in fields. Nothing outside the book aliases a level, so no sharing is lost.
- Server.Market.MatchMarketOrder: stores the corrected average price `AvgPrice` (the mean fill price of this order, 0 without fills) instead of the value line 154 computes, whose guard on the cumulative `totalBase` gives `NaN` or a spurious 0 (see "## Findings", `Settlement.AvgPriceAsWritten`); `PostMarket` and `Snapshot` carry the same corrected value.
- Server.Market.BookFills: stamps every fill of one match with the same `now`, whereas the source reads the clock once per fill.
- Server.Market.GenerateOrderbook: for a non-positive mid it states the sorted permutation of the pushed sides rather than the exact output of the engine's stable sort.
- Server.Market.RebuildOrderbook: requires a positive mid price and quantity draws in range, which its only caller, the start-up poll guarded at line 276, guarantees.
- Server.Market.DriftOrderbookTowards: requires a positive `newMid` and in-range draws and jitters, which its only caller, the drift timer guarded at line 285, guarantees.
- Server.Market.MatchMarketOrder: requires the book invariant `Valid`, which the constructor establishes and every handler keeps. Its functional postcondition does not depend on it.

## Findings

| source | as written | input that shows it | evidently intended | confidence | as-written member | corrected member |
|---|---|---|---|---|---|---|
| server.js:154 | the average price is guarded by the cumulative `totalBase !== 0`, not by this call's fill count | an order that finds an empty side after earlier trades gives `0/0 = NaN`; an order whose fills bring `totalBase` back to 0 reports 0 although it traded at 100 | the mean fill price of this call's fills, 0 when there are none | not executed | `Settlement.AvgPriceAsWrittenMisfires` | `Settlement.AvgPriceWithinFills` |
