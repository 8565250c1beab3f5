/**
 * The persisted trading signal (the `trading_signals` table of
 * backend/app/models/trading.py) and the inbound signal request of
 * backend/app/schemas.py, as values.
 */
module TradingModel {
  import opened Wrappers

  /**
   * One row of `trading_signals`. Timestamps are integers and prices are
   * reals; every column `create_signal` can leave NULL is an `Option`.
   */
  datatype TradingSignal = TradingSignal(
    id: int,
    tradeId: string,
    title: Option<string>,
    currency: Option<string>,
    zsTpTriggerPx: Option<real>,
    zyTpTriggerPx: Option<seq<real>>,
    lever: Option<int>,
    side: Option<string>,
    isClose: bool,
    createdAt: int,
    closedAt: Option<int>,
    openPrice: Option<real>,
    closePrice: Option<real>,
    profitPercentage: Option<real>,
    isProfit: Option<bool>,
    winStreak: int,
    loseStreak: int)

  /**
   * An optional numeric request field after `float(...)` / `int(...)`:
   * missing or empty (falsy, stored as None), a number, or text the
   * conversion rejects with an exception.
   */
  datatype Parsed<T> = Blank | Value(v: T) | Malformed

  /** The fields of an inbound signal that `create_signal` reads. */
  datatype SignalRequest = SignalRequest(
    isClose: string,
    tradeId: string,
    title: Option<string>,
    currency: Option<string>,
    zsTpTriggerPx: Parsed<real>,
    zyTpTriggerPx: Parsed<real>,
    lever: Parsed<int>,
    side: Option<string>)

  /** The stored value of a converted optional field. */
  function Stored<T>(p: Parsed<T>): Option<T> {
    match p
    case Value(v) => Some(v)
    case _ => None
  }
}
