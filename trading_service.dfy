/**
 * The signal lifecycle of `TradingService.create_signal`
 * (backend/app/services/trading_service.py): an open request appends a
 * record priced from the feed's cache; a close request settles the first
 * open record with the same trade id, computing the signed profit and the
 * win/lose streaks from the latest earlier close of the same strategy title.
 *
 * The database is an in-memory sequence of records in insertion order; a
 * raised exception rolls the session back, so it leaves the sequence as it
 * was.
 */
module TradingService {
  import opened Wrappers
  import opened TradingModel
  import PriceFeed

  // ---------------------------------------------------------------------
  // Profit law
  // ---------------------------------------------------------------------

  /** Python truthiness of an optional float: present and non-zero. */
  predicate Truthy(x: Option<real>) {
    x.Some? && x.value != 0.0
  }

  /** Only the exact side "sell" is short; every other side, None included, is long. */
  predicate IsShort(side: Option<string>) {
    side == Some("sell")
  }

  /** `(close - open) / open * 100`, negated for a short. */
  function ProfitPercentage(openPrice: real, closePrice: real, side: Option<string>): (p: real)
    requires openPrice != 0.0
    ensures !IsShort(side) ==> p * openPrice == (closePrice - openPrice) * 100.0
    ensures IsShort(side) ==> p * openPrice == (openPrice - closePrice) * 100.0
  {
    var change := (closePrice - openPrice) / openPrice * 100.0;
    if IsShort(side) then -change else change
  }

  /** With a positive open price a long wins iff the price rose and a short wins iff it fell. */
  lemma ProfitSign(openPrice: real, closePrice: real, side: Option<string>)
    requires openPrice > 0.0
    ensures !IsShort(side) ==> (ProfitPercentage(openPrice, closePrice, side) > 0.0 <==> closePrice > openPrice)
    ensures IsShort(side) ==> (ProfitPercentage(openPrice, closePrice, side) > 0.0 <==> closePrice < openPrice)
  {
    var p := ProfitPercentage(openPrice, closePrice, side);
    if !IsShort(side) {
      assert p * openPrice == (closePrice - openPrice) * 100.0;
    } else {
      assert p * openPrice == (openPrice - closePrice) * 100.0;
    }
    if p > 0.0 { assert p * openPrice > 0.0; } else { assert p * openPrice <= 0.0; }
  }

  // ---------------------------------------------------------------------
  // Streak rule
  // ---------------------------------------------------------------------

  datatype Streaks = Streaks(win: int, lose: int)

  /**
   * The streaks of a close given the prior close of the same title. The
   * decision reads the prior's `is_profit`, not its counters; a prior whose
   * `is_profit` is None counts as a loss.
   */
  function NextStreaks(prior: Option<TradingSignal>, isProfit: bool): Streaks {
    match prior
    case None => if isProfit then Streaks(1, 0) else Streaks(0, 1)
    case Some(last) =>
      if isProfit then
        if last.isProfit == Some(true) then Streaks(last.winStreak + 1, 0) else Streaks(1, 0)
      else
        if last.isProfit != Some(true) then Streaks(0, last.loseStreak + 1) else Streaks(0, 1)
  }

  predicate NonNegativeStreaks(r: TradingSignal) {
    r.winStreak >= 0 && r.loseStreak >= 0
  }

  /**
   * With non-negative prior counters exactly one counter of the result is
   * positive, and it is the win counter iff the close is a win.
   */
  lemma StreaksExclusive(prior: Option<TradingSignal>, isProfit: bool)
    requires prior.Some? ==> NonNegativeStreaks(prior.value)
    ensures var s := NextStreaks(prior, isProfit);
      && s.win >= 0 && s.lose >= 0
      && (s.win > 0) != (s.lose > 0)
      && (s.win > 0 <==> isProfit)
  {
  }

  /**
   * The streak table stated on the prior's counters rather than on its
   * `is_profit`: a positive win counter continues a win streak, a positive
   * lose counter a losing one, and a win or loss after neither (or after no
   * prior) starts a streak of one.
   */
  function StreaksByCounters(prior: Option<Streaks>, isProfit: bool): Streaks {
    match prior
    case Some(p) =>
      if p.win > 0 then (if isProfit then Streaks(p.win + 1, 0) else Streaks(0, 1))
      else if p.lose > 0 then (if isProfit then Streaks(1, 0) else Streaks(0, p.lose + 1))
      else if isProfit then Streaks(1, 0) else Streaks(0, 1)
    case None => if isProfit then Streaks(1, 0) else Streaks(0, 1)
  }

  /**
   * A closed record as settlement leaves it: priced, with counters that agree
   * with its outcome, or unpriced, with `is_profit` None and the zero counters
   * it was opened with.
   */
  predicate ConsistentOutcome(r: TradingSignal) {
    if r.isProfit.Some? then
      && NonNegativeStreaks(r)
      && (r.isProfit.value <==> r.winStreak > 0)
      && (!r.isProfit.value <==> r.loseStreak > 0)
    else
      r.winStreak == 0 && r.loseStreak == 0
  }

  /**
   * On every prior a settlement can leave behind, priced or not, the rule in
   * the code (which reads `is_profit`) and the table on the counters agree.
   */
  lemma StreakRuleMatchesCounterTable(prior: Option<TradingSignal>, isProfit: bool)
    requires prior.Some? ==> ConsistentOutcome(prior.value)
    ensures NextStreaks(prior, isProfit)
         == StreaksByCounters(if prior.Some? then Some(Streaks(prior.value.winStreak, prior.value.loseStreak)) else None, isProfit)
  {
    match prior
    case None =>
    case Some(last) =>
      if last.isProfit.None? {
      } else if last.isProfit.value {
        assert last.winStreak > 0;
      } else {
        assert last.winStreak <= 0 && last.loseStreak > 0;
      }
  }

  /** Closes of one title that win, win, lose, win carry the streaks (1,0), (2,0), (0,1), (1,0). */
  lemma StreakScenarioWinWinLossWin(r: TradingSignal)
    ensures var s1 := NextStreaks(None, true);
      var r1 := r.(isProfit := Some(true), winStreak := s1.win, loseStreak := s1.lose);
      var s2 := NextStreaks(Some(r1), true);
      var r2 := r.(isProfit := Some(true), winStreak := s2.win, loseStreak := s2.lose);
      var s3 := NextStreaks(Some(r2), false);
      var r3 := r.(isProfit := Some(false), winStreak := s3.win, loseStreak := s3.lose);
      var s4 := NextStreaks(Some(r3), true);
      s1 == Streaks(1, 0) && s2 == Streaks(2, 0) && s3 == Streaks(0, 1) && s4 == Streaks(1, 0)
  {
  }

  /**
   * A prior closed without a price has `is_profit` None and zero counters, so
   * a loss after it starts a streak of one and a win after it also starts at one.
   */
  lemma UnpricedPriorCountsAsLoss(last: TradingSignal)
    requires last.isProfit.None?
    ensures NextStreaks(Some(last), false) == Streaks(0, last.loseStreak + 1)
    ensures NextStreaks(Some(last), true) == Streaks(1, 0)
  {
  }

  // ---------------------------------------------------------------------
  // Record lookups
  // ---------------------------------------------------------------------

  predicate IsOpenFor(r: TradingSignal, tradeId: string) {
    r.tradeId == tradeId && !r.isClose
  }

  /**
   * The query `trade_id == id AND is_close == False` with `.first()`: the
   * first matching record in store order, or None when there is none.
   */
  function FirstOpen(records: seq<TradingSignal>, tradeId: string): (found: Option<nat>)
    ensures found.Some? ==> found.value < |records| && IsOpenFor(records[found.value], tradeId)
    ensures found.Some? ==> forall j :: 0 <= j < found.value ==> !IsOpenFor(records[j], tradeId)
    ensures found.None? <==> forall j :: 0 <= j < |records| ==> !IsOpenFor(records[j], tradeId)
  {
    if records == [] then None
    else if IsOpenFor(records[0], tradeId) then Some(0)
    else
      match FirstOpen(records[1..], tradeId)
      case None => None
      case Some(k) => Some(k + 1)
  }

  /**
   * A candidate prior: a closed record with the same title other than the
   * one being settled. Comparing a column with None renders as `IS NULL`,
   * so an untitled record's candidates are the untitled closes.
   */
  predicate IsPriorFor(r: TradingSignal, title: Option<string>, excludeId: int) {
    r.title == title && r.id != excludeId && r.isClose
  }

  /**
   * `a` ranks strictly below `b` in PostgreSQL's `closed_at` order, where a
   * missing time ranks above every time (it comes first under DESC).
   */
  predicate StrictlyEarlier(a: Option<int>, b: Option<int>) {
    a.Some? && (b.None? || a.value < b.value)
  }

  /**
   * The query ordered by `closed_at` descending with `.first()`: a candidate
   * prior with the greatest close time, the earliest in store order among
   * equal times; None when there is no candidate.
   */
  function LatestPrior(records: seq<TradingSignal>, title: Option<string>, excludeId: int): (found: Option<nat>)
    ensures found.Some? ==> found.value < |records| && IsPriorFor(records[found.value], title, excludeId)
    ensures found.Some? ==> forall j :: 0 <= j < |records| && IsPriorFor(records[j], title, excludeId) ==>
      !StrictlyEarlier(records[found.value].closedAt, records[j].closedAt)
    ensures found.Some? ==> forall j :: 0 <= j < found.value && IsPriorFor(records[j], title, excludeId) ==>
      StrictlyEarlier(records[j].closedAt, records[found.value].closedAt)
    ensures found.None? <==> forall j :: 0 <= j < |records| ==> !IsPriorFor(records[j], title, excludeId)
  {
    if records == [] then None
    else
      var n := |records| - 1;
      var best := LatestPrior(records[..n], title, excludeId);
      if IsPriorFor(records[n], title, excludeId)
         && (best.None? || StrictlyEarlier(records[best.value].closedAt, records[n].closedAt))
      then Some(n)
      else best
  }

  function PriorOf(records: seq<TradingSignal>, title: Option<string>, excludeId: int): Option<TradingSignal> {
    match LatestPrior(records, title, excludeId)
    case Some(k) => Some(records[k])
    case None => None
  }

  // ---------------------------------------------------------------------
  // create_signal as a function of the store
  // ---------------------------------------------------------------------

  /**
   * The record `records[i]` becomes when a close is settled at time `now`
   * with feed price `price`: closed, stamped and priced even without a
   * price; profit and streaks only when both prices are truthy.
   */
  function Settled(records: seq<TradingSignal>, i: nat, price: Option<real>, now: int): TradingSignal
    requires i < |records|
  {
    var rec := records[i].(isClose := true, closedAt := Some(now), closePrice := price);
    if Truthy(rec.openPrice) && Truthy(price) then
      var profit := ProfitPercentage(rec.openPrice.value, price.value, rec.side);
      var streaks := NextStreaks(PriorOf(records, rec.title, rec.id), profit > 0.0);
      rec.(profitPercentage := Some(profit), isProfit := Some(profit > 0.0),
           winStreak := streaks.win, loseStreak := streaks.lose)
    else
      rec
  }

  /** The record an open request creates under identifier `id`. */
  function Opened(request: SignalRequest, id: int, price: Option<real>, now: int): TradingSignal {
    TradingSignal(
      id := id,
      tradeId := request.tradeId,
      title := request.title,
      currency := request.currency,
      zsTpTriggerPx := Stored(request.zsTpTriggerPx),
      zyTpTriggerPx := match request.zyTpTriggerPx case Value(v) => Some([v]) case _ => None,
      lever := Stored(request.lever),
      side := request.side,
      isClose := false,
      createdAt := now,
      closedAt := None,
      openPrice := price,
      closePrice := None,
      profitPercentage := None,
      isProfit := None,
      winStreak := 0,
      loseStreak := 0)
  }

  /** What `create_signal` returns: a new record, a settled record, None, or a raised exception. */
  datatype Outcome = Created(signal: TradingSignal) | Settlement(signal: TradingSignal) | NoMatchingPosition | Raised

  datatype Effect = Effect(outcome: Outcome, records: seq<TradingSignal>)

  /** An open request raises if its currency is None or a numeric field does not convert. */
  predicate OpenRaises(request: SignalRequest) {
    request.currency.None? || request.zsTpTriggerPx.Malformed? || request.zyTpTriggerPx.Malformed? || request.lever.Malformed?
  }

  /**
   * `create_signal` on a store holding `records`, with the feed's price
   * dictionary `prices`, the clock reading `now` and `nextId` the identifier
   * the database assigns next.
   */
  function Process(records: seq<TradingSignal>, nextId: int, request: SignalRequest, prices: map<string, real>, now: int): Effect {
    if request.isClose == "1" then
      match FirstOpen(records, request.tradeId)
      case None => Effect(NoMatchingPosition, records)
      case Some(i) =>
        if records[i].currency.None? then Effect(Raised, records)
        else
          var closed := Settled(records, i, PriceFeed.CurrentPrice(prices, records[i].currency.value), now);
          Effect(Settlement(closed), records[i := closed])
    else if OpenRaises(request) then
      Effect(Raised, records)
    else
      var created := Opened(request, nextId, PriceFeed.CurrentPrice(prices, request.currency.value), now);
      Effect(Created(created), records + [created])
  }

  // ---------------------------------------------------------------------
  // Properties of create_signal
  // ---------------------------------------------------------------------

  /** A close with no open record for its trade id returns None and changes nothing. */
  lemma CloseWithoutOpenIsNoop(records: seq<TradingSignal>, nextId: int, request: SignalRequest, prices: map<string, real>, now: int)
    requires request.isClose == "1"
    requires forall j :: 0 <= j < |records| ==> !IsOpenFor(records[j], request.tradeId)
    ensures Process(records, nextId, request, prices, now) == Effect(NoMatchingPosition, records)
  {
  }

  /**
   * A close that finds an open record changes that record only: it is now
   * closed at `now` with the feed's price for its currency, and every other
   * record, and every field other than the closing, profit and streak
   * fields, is as it was.
   */
  lemma CloseSettlesFirstOpenOnly(records: seq<TradingSignal>, nextId: int, request: SignalRequest, prices: map<string, real>, now: int)
    requires request.isClose == "1"
    requires FirstOpen(records, request.tradeId).Some?
    requires records[FirstOpen(records, request.tradeId).value].currency.Some?
    ensures var i := FirstOpen(records, request.tradeId).value;
      var e := Process(records, nextId, request, prices, now);
      var r := e.records[i];
      && |e.records| == |records|
      && (forall j :: 0 <= j < |records| && j != i ==> e.records[j] == records[j])
      && e.outcome == Settlement(r)
      && r.isClose && r.closedAt == Some(now)
      && r.closePrice == PriceFeed.CurrentPrice(prices, records[i].currency.value)
      && r.(isClose := false, closedAt := records[i].closedAt, closePrice := records[i].closePrice,
            profitPercentage := records[i].profitPercentage, isProfit := records[i].isProfit,
            winStreak := records[i].winStreak, loseStreak := records[i].loseStreak) == records[i]
  {
  }

  /**
   * The profit law of a settlement: with truthy open and close prices, the
   * stored percentage is the signed relative change, `is_profit` is its
   * sign, and the streaks follow the rule from the latest earlier close of
   * the title.
   */
  lemma SettlementProfitLaw(records: seq<TradingSignal>, i: nat, price: Option<real>, now: int)
    requires i < |records|
    requires Truthy(records[i].openPrice) && Truthy(price)
    ensures var r := Settled(records, i, price, now);
      var o := records[i].openPrice.value;
      && r.profitPercentage.Some?
      && (!IsShort(r.side) ==> r.profitPercentage.value * o == (price.value - o) * 100.0)
      && (IsShort(r.side) ==> r.profitPercentage.value * o == (o - price.value) * 100.0)
      && r.isProfit == Some(r.profitPercentage.value > 0.0)
      && Streaks(r.winStreak, r.loseStreak) == NextStreaks(PriorOf(records, records[i].title, records[i].id), r.isProfit.value)
      && (o > 0.0 && !IsShort(r.side) ==> (r.isProfit.value <==> price.value > o))
  {
    var o := records[i].openPrice.value;
    if o > 0.0 { ProfitSign(o, price.value, records[i].side); }
  }

  /**
   * A close where either the record's open price or the cached close price
   * is missing (or zero) still closes the record, but leaves profit, outcome
   * and streaks as they were.
   */
  lemma UnpricedCloseStillCloses(records: seq<TradingSignal>, i: nat, price: Option<real>, now: int)
    requires i < |records|
    requires !(Truthy(records[i].openPrice) && Truthy(price))
    ensures var r := Settled(records, i, price, now);
      && r.isClose && r.closedAt == Some(now) && r.closePrice == price
      && r.profitPercentage == records[i].profitPercentage && r.isProfit == records[i].isProfit
      && r.winStreak == records[i].winStreak && r.loseStreak == records[i].loseStreak
  {
  }

  /** After a priced settlement exactly one streak counter is positive, the win counter iff it was a win. */
  lemma SettlementStreaksExclusive(records: seq<TradingSignal>, i: nat, price: Option<real>, now: int)
    requires i < |records|
    requires Truthy(records[i].openPrice) && Truthy(price)
    requires forall j :: 0 <= j < |records| ==> NonNegativeStreaks(records[j])
    ensures var r := Settled(records, i, price, now);
      && ConsistentOutcome(r)
      && (r.winStreak > 0) != (r.loseStreak > 0)
  {
    var r := records[i];
    var prior := PriorOf(records, r.title, r.id);
    var profit := ProfitPercentage(r.openPrice.value, price.value, r.side);
    StreaksExclusive(prior, profit > 0.0);
  }

  /**
   * A settlement without both prices truthy, of a record as an open leaves
   * it (no outcome, zero counters), leaves a prior the counter table and the
   * code's rule agree on.
   */
  lemma UnpricedSettlementIsConsistent(records: seq<TradingSignal>, i: nat, price: Option<real>, now: int)
    requires i < |records|
    requires !(Truthy(records[i].openPrice) && Truthy(price))
    requires records[i].isProfit.None? && records[i].winStreak == 0 && records[i].loseStreak == 0
    ensures ConsistentOutcome(Settled(records, i, price, now))
    ensures Settled(records, i, price, now).isProfit.None?
  {
  }

  /**
   * The prior of an untitled record is the latest untitled close: after an
   * untitled winning close with win streak 3, an untitled long opened at 100
   * and closed at 110 continues the streak to 4.
   */
  lemma UntitledPriorContinuesStreak(r0: TradingSignal, r1: TradingSignal)
    requires r0.id == 1 && r0.title.None? && r0.isClose && r0.closedAt == Some(5)
    requires r0.isProfit == Some(true) && r0.winStreak == 3 && r0.loseStreak == 0
    requires r1.id == 2 && r1.title.None? && !r1.isClose && r1.side == Some("buy") && r1.openPrice == Some(100.0)
    ensures var c := Settled([r0, r1], 1, Some(110.0), 10);
      && c.isProfit == Some(true) && c.winStreak == 4 && c.loseStreak == 0
  {
    assert IsPriorFor([r0, r1][0], r1.title, 2);
    assert LatestPrior([r0, r1], r1.title, 2) == Some(0) by {
      assert [r0, r1][..1] == [r0];
      assert [r0][..0] == [];
    }
  }

  /**
   * Under `ORDER BY closed_at DESC` a close without a time is taken before
   * every timed close of the title.
   */
  lemma UntimedCloseRanksFirst(a: TradingSignal, b: TradingSignal, title: Option<string>, excludeId: int)
    requires IsPriorFor(a, title, excludeId) && IsPriorFor(b, title, excludeId)
    requires a.closedAt.Some? && b.closedAt.None?
    ensures LatestPrior([a, b], title, excludeId) == Some(1)
    ensures LatestPrior([b, a], title, excludeId) == Some(0)
  {
    assert [a, b][..1] == [a] && [b, a][..1] == [b];
    assert [a][..0] == [] && [b][..0] == [];
  }

  predicate AtMostOneOpen(records: seq<TradingSignal>, tradeId: string) {
    forall j, k :: 0 <= j < k < |records| && IsOpenFor(records[j], tradeId) ==> !IsOpenFor(records[k], tradeId)
  }

  /**
   * Delivering the same close twice: when the trade id had at most one open
   * record and the first delivery did not raise, the second finds no open
   * record, returns None and changes nothing.
   */
  lemma {:induction false} SecondCloseIsNoMatch(records: seq<TradingSignal>, nextId: int, request: SignalRequest, prices: map<string, real>, now: int, later: int)
    requires request.isClose == "1"
    requires AtMostOneOpen(records, request.tradeId)
    ensures var first := Process(records, nextId, request, prices, now);
      first.outcome != Raised ==>
      Process(first.records, nextId, request, prices, later) == Effect(NoMatchingPosition, first.records)
  {
    var e := Process(records, nextId, request, prices, now);
    match FirstOpen(records, request.tradeId)
    case None =>
    case Some(i) =>
      if records[i].currency.Some? {
        forall j | 0 <= j < |e.records| ensures !IsOpenFor(e.records[j], request.tradeId) {
          if j < i {
            assert e.records[j] == records[j];
          } else if j > i {
            assert e.records[j] == records[j];
            assert !IsOpenFor(records[j], request.tradeId);
          }
        }
      }
  }

  /** Opens are never checked against existing opens: two opens of a trade id leave two open records. */
  lemma DuplicateOpensAreKept(request: SignalRequest, prices: map<string, real>, now: int)
    requires request.isClose != "1" && !OpenRaises(request)
    ensures var first := Process([], 1, request, prices, now).records;
      var both := Process(first, 2, request, prices, now).records;
      |both| == 2 && IsOpenFor(both[0], request.tradeId) && IsOpenFor(both[1], request.tradeId)
  {
  }

  /**
   * An open request that converts appends exactly one open record holding
   * the request's trade id, title, currency, side, lever and trigger prices
   * (the take-profit price wrapped in a one-element list): no closing
   * fields, zero streaks, and the feed's cached price for its
   * currency as open price, even when that price is missing.
   */
  lemma OpenAppendsOneRecord(records: seq<TradingSignal>, nextId: int, request: SignalRequest, prices: map<string, real>, now: int)
    requires request.isClose != "1" && !OpenRaises(request)
    ensures var e := Process(records, nextId, request, prices, now);
      && |e.records| == |records| + 1
      && e.records[..|records|] == records
      && var r := e.records[|records|];
      && e.outcome == Created(r)
      && r.id == nextId && r.tradeId == request.tradeId && r.title == request.title && r.side == request.side
      && r.currency == request.currency && r.lever == Stored(request.lever)
      && r.zsTpTriggerPx == Stored(request.zsTpTriggerPx)
      && r.zyTpTriggerPx == (if request.zyTpTriggerPx.Value? then Some([request.zyTpTriggerPx.v]) else None)
      && !r.isClose && r.createdAt == now
      && r.closedAt.None? && r.closePrice.None? && r.profitPercentage.None? && r.isProfit.None?
      && r.winStreak == 0 && r.loseStreak == 0
      && r.openPrice == PriceFeed.CurrentPrice(prices, request.currency.value)
  {
  }

  /** A request that raises leaves the store unchanged (the session is rolled back). */
  lemma RaisedRequestChangesNothing(records: seq<TradingSignal>, nextId: int, request: SignalRequest, prices: map<string, real>, now: int)
    ensures Process(records, nextId, request, prices, now).outcome == Raised ==>
      Process(records, nextId, request, prices, now).records == records
  {
  }

  /** A closed record is final: no request changes it. */
  lemma ClosedRecordsAreFinal(records: seq<TradingSignal>, nextId: int, request: SignalRequest, prices: map<string, real>, now: int, j: nat)
    requires j < |records| && records[j].isClose
    ensures var e := Process(records, nextId, request, prices, now);
      j < |e.records| && e.records[j] == records[j]
  {
  }

  /**
   * Two settlements of one title: a long opened at 50000 and
   * closed at 51000 with no earlier close of its title makes 2%, a win,
   * streaks (1, 0); a short of the same title opened at 3000 and closed at
   * 3030 makes -1%, a loss, and the streak turns to (0, 1).
   */
  lemma SettlementScenario(t1: TradingSignal, t2: TradingSignal)
    requires t1.id == 1 && t2.id == 2 && t1.title == Some("S") && t2.title == Some("S")
    requires !t1.isClose && !t2.isClose
    requires t1.openPrice == Some(50000.0) && t1.side == Some("buy")
    requires t2.openPrice == Some(3000.0) && t2.side == Some("sell")
    ensures var c1 := Settled([t1, t2], 0, Some(51000.0), 10);
      && c1.profitPercentage == Some(2.0) && c1.isProfit == Some(true)
      && c1.winStreak == 1 && c1.loseStreak == 0
      && var c2 := Settled([c1, t2], 1, Some(3030.0), 20);
      && c2.profitPercentage == Some(-1.0) && c2.isProfit == Some(false)
      && c2.winStreak == 0 && c2.loseStreak == 1
  {
    assert LatestPrior([t1, t2], t1.title, 1) == None;
    assert IsPriorFor([t1.(isClose := true)][0], t2.title, 2);
    var c1 := Settled([t1, t2], 0, Some(51000.0), 10);
    assert IsPriorFor([c1, t2][0], t2.title, 2);
    assert LatestPrior([c1, t2], t2.title, 2) == Some(0);
  }

  // ---------------------------------------------------------------------
  // The store
  // ---------------------------------------------------------------------

  /** Identifiers are distinct and below `nextId`; streak counters are never negative. */
  predicate StoreInvariant(records: seq<TradingSignal>, nextId: int) {
    && (forall j :: 0 <= j < |records| ==> records[j].id < nextId)
    && (forall j, k :: 0 <= j < k < |records| ==> records[j].id != records[k].id)
    && (forall j :: 0 <= j < |records| ==> NonNegativeStreaks(records[j]))
  }

  /** Settling a record keeps its identifier and leaves its counters non-negative. */
  lemma SettledKeepsInvariant(records: seq<TradingSignal>, nextId: int, i: nat, price: Option<real>, now: int)
    requires StoreInvariant(records, nextId) && i < |records|
    ensures StoreInvariant(records[i := Settled(records, i, price, now)], nextId)
  {
    var rec := records[i].(isClose := true, closedAt := Some(now), closePrice := price);
    if Truthy(rec.openPrice) && Truthy(price) {
      var profit := ProfitPercentage(rec.openPrice.value, price.value, rec.side);
      StreaksExclusive(PriorOf(records, rec.title, rec.id), profit > 0.0);
    }
  }

  /** Appending a record under the next identifier, with zero counters, keeps the invariant. */
  lemma AppendKeepsInvariant(records: seq<TradingSignal>, nextId: int, r: TradingSignal)
    requires StoreInvariant(records, nextId) && r.id == nextId && NonNegativeStreaks(r)
    ensures StoreInvariant(records + [r], nextId + 1)
  {
  }

  /** The `trading_signals` table: its rows in insertion order and the next identifier. */
  class SignalStore {
    var records: seq<TradingSignal>
    var nextId: int

    ghost predicate Valid()
      reads this
    {
      StoreInvariant(records, nextId)
    }

    constructor ()
      ensures Valid() && records == [] && nextId == 1
    {
      records := [];
      nextId := 1;
    }

    /**
     * `create_signal(db, signal)`: the close path loads the first open
     * record of the trade id, marks it closed field by field and, when both
     * prices are truthy, stores profit and streaks; the open path appends a
     * new record. The clock and the feed's price dictionary are parameters.
     */
    method CreateSignal(request: SignalRequest, prices: map<string, real>, now: int) returns (outcome: Outcome)
      requires Valid()
      modifies this
      ensures Valid()
      ensures Effect(outcome, records) == Process(old(records), old(nextId), request, prices, now)
      ensures nextId == if outcome.Created? then old(nextId) + 1 else old(nextId)
    {
      if request.isClose == "1" {
        var found := FirstOpen(records, request.tradeId);
        if found.None? {
          return NoMatchingPosition;
        }
        var i := found.value;
        var openSignal := records[i];
        if openSignal.currency.None? {
          // get_current_price(None) raises; the session is rolled back
          return Raised;
        }
        var currentPrice := PriceFeed.CurrentPrice(prices, openSignal.currency.value);
        SettledKeepsInvariant(records, nextId, i, currentPrice, now);
        openSignal := openSignal.(isClose := true);
        openSignal := openSignal.(closedAt := Some(now));
        openSignal := openSignal.(closePrice := currentPrice);
        if Truthy(openSignal.openPrice) && Truthy(currentPrice) {
          var priceChange := ProfitPercentage(openSignal.openPrice.value, currentPrice.value, openSignal.side);
          openSignal := openSignal.(profitPercentage := Some(priceChange));
          openSignal := openSignal.(isProfit := Some(priceChange > 0.0));
          var lastSignal := PriorOf(records, openSignal.title, openSignal.id);
          var streaks := NextStreaks(lastSignal, priceChange > 0.0);
          openSignal := openSignal.(winStreak := streaks.win, loseStreak := streaks.lose);
        }
        assert openSignal == Settled(records, i, currentPrice, now);
        records := records[i := openSignal];
        return Settlement(openSignal);
      }
      if OpenRaises(request) {
        // get_current_price(None), float(...) or int(...) raises; rolled back
        return Raised;
      }
      var currentPrice := PriceFeed.CurrentPrice(prices, request.currency.value);
      var dbSignal := Opened(request, nextId, currentPrice, now);
      AppendKeepsInvariant(records, nextId, dbSignal);
      records := records + [dbSignal];
      nextId := nextId + 1;
      return Created(dbSignal);
    }
  }
}
