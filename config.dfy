/** The fixed configuration of the market-maker simulation (server.js, lines 11-18 and 72). */
module Config {
  /** Starting balance of the base coin. */
  const START_BASE: real := 1000000.0
  /** Starting balance of the local currency (IDR). */
  const START_IDR: real := 10000000.0
  /** Number of ladder levels on each side of the book. */
  const LEVELS: nat := 10
  /** Total spread between the best bid and the best ask, as a fraction of the mid price. */
  const SPREAD_PCT: real := 0.001
  /** Bounds of the random quantity of a freshly synthesised level. */
  const LIQUIDITY_MIN: real := 20000.0
  const LIQUIDITY_MAX: real := 400000.0
  /** Weight of the new value in every exponential smoothing step. */
  const PRICE_SMOOTHING: real := 0.2
  /** Geometric growth of the price gap from one ladder level to the next. */
  const DEPTH_FACTOR: real := 1.0008
  /** A level whose quantity falls to this or below is removed; an order this small is done. */
  const DUST: real := 0.000000001
  /** Smallest quantity a drifted level may be left with. */
  const QTY_FLOOR: real := 0.000001
  /** Bounds of the random factor a drift tick multiplies a level's quantity by. */
  const JITTER_MIN: real := 0.95
  const JITTER_MAX: real := 1.05
  /** Capacity of the trade log. */
  const LOG_CAPACITY: nat := 200
  /** Number of newest trades a state snapshot carries. */
  const SNAPSHOT_TRADES: nat := 50
}
