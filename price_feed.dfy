/**
 * The simulated market-data feed of the back end (`BinanceWebSocket` in
 * backend/app/services/binance_ws.py): a price dictionary, per-symbol
 * callback sets, a per-symbol random-walk trend and the clamp that keeps the
 * simulated prices of the three known pairs inside fixed bands.
 *
 * Random draws are parameters constrained to the ranges the source draws
 * them from; callbacks are identified by a number and their behaviour is an
 * oracle passed in by the caller.
 */
module PriceFeed {
  import opened Wrappers

  /** Identity of a registered asynchronous price callback. */
  type CallbackId = nat
  /** Identity of an entry of a connection set (the source never adds any). */
  type ConnectionId = nat

  const Quote: string := "USDT"
  const Btc: string := "BTCUSDT"
  const Eth: string := "ETHUSDT"
  const Xrp: string := "XRPUSDT"

  // ---------------------------------------------------------------------
  // Symbol normalisation (get_current_price)
  // ---------------------------------------------------------------------

  /** `str.upper` on one character, restricted to ASCII letters. */
  function UpperChar(c: char): char {
    if 'a' <= c <= 'z' then (c as int - 'a' as int + 'A' as int) as char else c
  }

  predicate IsUpper(s: string) {
    forall i :: 0 <= i < |s| ==> !('a' <= s[i] <= 'z')
  }

  /**
   * `str.upper`: the result has no lower-case letter, agrees with the input
   * up to case at every position, and is the input itself when that is
   * already upper-case.
   */
  function Upper(s: string): (u: string)
    ensures |u| == |s| && IsUpper(u)
    ensures forall i :: 0 <= i < |s| ==> UpperChar(u[i]) == UpperChar(s[i])
    ensures IsUpper(s) ==> u == s
  {
    var u := seq(|s|, i requires 0 <= i < |s| => UpperChar(s[i]));
    assert IsUpper(s) ==> u == s by {
      if IsUpper(s) {
        forall i | 0 <= i < |s| ensures u[i] == s[i] {
          assert !('a' <= s[i] <= 'z');
        }
      }
    }
    u
  }

  predicate EndsWith(s: string, suffix: string) {
    |suffix| <= |s| && s[|s| - |suffix|..] == suffix
  }

  /**
   * The dictionary key `get_current_price` looks a symbol up under: a symbol
   * not ending in the upper-case quote "USDT" gets it appended, then the
   * whole is upper-cased.
   */
  function Normalize(symbol: string): (key: string)
    ensures EndsWith(key, Quote)
    ensures IsUpper(key)
  {
    var s := if EndsWith(symbol, Quote) then symbol else symbol + Quote;
    assert EndsWith(s, Quote) by {
      if !EndsWith(symbol, Quote) { assert (symbol + Quote)[|symbol|..] == Quote; }
    }
    UpperOfSuffix(s, Quote);
    Upper(s)
  }

  /** Upper-casing keeps an upper-case suffix in place. */
  lemma UpperOfSuffix(s: string, suffix: string)
    requires EndsWith(s, suffix) && IsUpper(suffix)
    ensures EndsWith(Upper(s), suffix)
  {
    var k := |s| - |suffix|;
    forall i | 0 <= i < |suffix| ensures Upper(s)[k..][i] == suffix[i] {
      assert s[k..][i] == s[k + i];
    }
  }

  /** Normalising an already normalised symbol changes nothing. */
  lemma NormalizeIdempotent(symbol: string)
    ensures Normalize(Normalize(symbol)) == Normalize(symbol)
  {
  }

  /**
   * The suffix test is case-sensitive and runs before upper-casing, so a
   * lower-case pair name gets the quote twice.
   */
  lemma LowerCaseQuoteIsAppendedAgain()
    ensures Normalize("btcusdt") == "BTCUSDTUSDT"
  {
    var symbol := "btcusdt";
    assert symbol[3..][0] == 'u';
    assert !EndsWith(symbol, Quote);
    var s := symbol + Quote;
    assert s == "btcusdtUSDT";
    var u := Upper(s);
    assert u[0] == 'B' && u[1] == 'T' && u[2] == 'C' && u[3] == 'U' && u[4] == 'S' && u[5] == 'D' && u[6] == 'T';
    assert u[7] == 'U' && u[8] == 'S' && u[9] == 'D' && u[10] == 'T';
    assert u == "BTCUSDTUSDT";
  }

  /**
   * `get_current_price`: a price the feed has published, or None. Asking
   * under the lookup key itself gives the same answer, and a symbol already
   * in the feed's own form (upper-case, ending in the quote) finds exactly
   * the price stored under it.
   */
  function CurrentPrice(prices: map<string, real>, symbol: string): (p: Option<real>)
    ensures p.Some? ==> p.value in prices.Values
    ensures IsUpper(symbol) && EndsWith(symbol, Quote) ==>
      p == if symbol in prices then Some(prices[symbol]) else None
  {
    var key := Normalize(symbol);
    if key in prices then Some(prices[key]) else None
  }

  /** Looking a symbol up and looking its normalised key up agree. */
  lemma CurrentPriceOfLookupKey(prices: map<string, real>, symbol: string)
    ensures CurrentPrice(prices, Normalize(symbol)) == CurrentPrice(prices, symbol)
  {
    NormalizeIdempotent(symbol);
  }

  // ---------------------------------------------------------------------
  // Trend state and price bands (simulate_price_updates)
  // ---------------------------------------------------------------------

  datatype Trend = Trend(direction: int, strength: real, steps: int, maxSteps: int)

  /** Range of `random.uniform(0.0001, 0.001)`. */
  predicate StrengthDraw(x: real) { 0.0001 <= x <= 0.001 }
  /** Range of `random.randint(10, 30)`. */
  predicate MaxStepsDraw(n: int) { 10 <= n <= 30 }
  /** Range of `random.choice([-1, 1])`. */
  predicate DirectionDraw(d: int) { d == -1 || d == 1 }
  /** Range of `random.uniform(-0.0005, 0.0005)`. */
  predicate NoiseDraw(x: real) { -0.0005 <= x <= 0.0005 }

  predicate TrendValid(t: Trend) {
    && DirectionDraw(t.direction)
    && StrengthDraw(t.strength)
    && 0 <= t.steps < t.maxSteps
    && MaxStepsDraw(t.maxSteps)
  }

  /**
   * One trend update: count a step; once the step count reaches the maximum,
   * reverse the direction and start a fresh trend with newly drawn strength
   * and length.
   */
  function AdvanceTrend(t: Trend, strength: real, maxSteps: int): Trend {
    var counted := t.(steps := t.steps + 1);
    if counted.steps >= counted.maxSteps then
      Trend(-counted.direction, strength, 0, maxSteps)
    else
      counted
  }

  /**
   * The trend invariant survives every step, and the direction is reversed
   * exactly on the step that brings the count to the maximum.
   */
  lemma AdvanceTrendKeepsInvariant(t: Trend, strength: real, maxSteps: int)
    requires TrendValid(t) && StrengthDraw(strength) && MaxStepsDraw(maxSteps)
    ensures TrendValid(AdvanceTrend(t, strength, maxSteps))
    ensures AdvanceTrend(t, strength, maxSteps).direction != t.direction <==> t.steps + 1 == t.maxSteps
    ensures t.steps + 1 < t.maxSteps ==> AdvanceTrend(t, strength, maxSteps) == t.(steps := t.steps + 1)
  {
  }

  /** Lower and upper bound of the band a simulated symbol is clamped to. */
  predicate InBand(symbolUpper: string, price: real) {
    if symbolUpper == Btc then 49000.0 <= price <= 55000.0
    else if symbolUpper == Eth then 2900.0 <= price <= 3500.0
    else if symbolUpper == Xrp then 0.45 <= price <= 0.65
    else true
  }

  function Clamp(low: real, high: real, x: real): (r: real)
    requires low <= high
    ensures low <= r <= high
    ensures low <= x <= high ==> r == x
  {
    if x > high then high else if x < low then low else x
  }

  /** `max(min(price, high), low)` for the three known pairs; any other symbol passes unchanged. */
  function ClampToBand(symbolUpper: string, price: real): (r: real)
    ensures InBand(symbolUpper, r)
    ensures InBand(symbolUpper, price) ==> r == price
  {
    if symbolUpper == Btc then Clamp(49000.0, 55000.0, price)
    else if symbolUpper == Eth then Clamp(2900.0, 3500.0, price)
    else if symbolUpper == Xrp then Clamp(0.45, 0.65, price)
    else price
  }

  /** The base price after one random-walk move: `base * (1 + direction * strength + noise)`. */
  function Moved(base: real, t: Trend, noise: real): real {
    base * (1.0 + t.direction as real * t.strength + noise)
  }

  /** A move never changes the sign of the price: the relative change stays within 0.15%. */
  lemma MovedKeepsSign(base: real, t: Trend, noise: real)
    requires TrendValid(t) && NoiseDraw(noise) && base > 0.0
    ensures Moved(base, t, noise) > 0.0
  {
    var factor := 1.0 + t.direction as real * t.strength + noise;
    if t.direction == 1 {
      assert factor == 1.0 + t.strength + noise;
    } else {
      assert factor == 1.0 - t.strength + noise;
    }
    assert factor > 0.0;
    assert Moved(base, t, noise) == base * factor;
  }

  // ---------------------------------------------------------------------
  // Callback registry (add_price_callback / remove_price_callback)
  // ---------------------------------------------------------------------

  /** The callbacks registered for a symbol; `dict.get(symbol, set())`. */
  function CallbacksOf(registry: map<string, set<CallbackId>>, symbol: string): set<CallbackId> {
    if symbol in registry then registry[symbol] else {}
  }

  /**
   * The registry after `add_price_callback(symbol, callback)`: a callback is
   * then registered for a symbol iff it was before or it is the one added
   * for that symbol.
   */
  function Registered(registry: map<string, set<CallbackId>>, symbol: string, callback: CallbackId): (r: map<string, set<CallbackId>>)
    ensures symbol in r
    ensures forall s, cb :: cb in CallbacksOf(r, s) <==> cb in CallbacksOf(registry, s) || (s == symbol && cb == callback)
  {
    registry[symbol := CallbacksOf(registry, symbol) + {callback}]
  }

  /**
   * The registry after `remove_price_callback(symbol, callback)`: no symbol
   * is added, and a callback is then registered for a symbol iff it was
   * before and it is not the one removed from that symbol.
   */
  function Unregistered(registry: map<string, set<CallbackId>>, symbol: string, callback: CallbackId): (r: map<string, set<CallbackId>>)
    ensures r.Keys == registry.Keys
    ensures forall s, cb :: cb in CallbacksOf(r, s) <==> cb in CallbacksOf(registry, s) && !(s == symbol && cb == callback)
  {
    if symbol in registry then registry[symbol := registry[symbol] - {callback}] else registry
  }

  /** Removing a callback just added to a known symbol restores the registry. */
  lemma UnregisterUndoesRegister(registry: map<string, set<CallbackId>>, symbol: string, callback: CallbackId)
    requires symbol in registry && callback !in registry[symbol]
    ensures Unregistered(Registered(registry, symbol, callback), symbol, callback) == registry
  {
    assert registry[symbol] + {callback} - {callback} == registry[symbol];
  }

  /** Adding back a callback just removed restores the registry. */
  lemma RegisterUndoesUnregister(registry: map<string, set<CallbackId>>, symbol: string, callback: CallbackId)
    requires callback in CallbacksOf(registry, symbol)
    ensures Registered(Unregistered(registry, symbol, callback), symbol, callback) == registry
  {
    assert registry[symbol] - {callback} + {callback} == registry[symbol];
  }

  lemma RegisterIdempotent(registry: map<string, set<CallbackId>>, symbol: string, callback: CallbackId)
    ensures Registered(Registered(registry, symbol, callback), symbol, callback) == Registered(registry, symbol, callback)
    ensures callback in CallbacksOf(Registered(registry, symbol, callback), symbol)
  {
  }

  lemma UnregisterIdempotent(registry: map<string, set<CallbackId>>, symbol: string, callback: CallbackId)
    ensures Unregistered(Unregistered(registry, symbol, callback), symbol, callback) == Unregistered(registry, symbol, callback)
    ensures callback !in CallbacksOf(Unregistered(registry, symbol, callback), symbol)
  {
    if symbol in registry {
      assert registry[symbol] - {callback} - {callback} == registry[symbol] - {callback};
    }
  }

  /** Removing an unknown symbol or an unregistered callback leaves the registry as it was. */
  lemma UnregisterAbsentIsNoop(registry: map<string, set<CallbackId>>, symbol: string, callback: CallbackId)
    requires callback !in CallbacksOf(registry, symbol)
    ensures Unregistered(registry, symbol, callback) == registry
  {
    if symbol in registry {
      assert registry[symbol] - {callback} == registry[symbol];
    }
  }

  /** What one invoked callback received. */
  datatype Delivery = Delivery(callback: CallbackId, symbol: string, price: real)

  /** What a callback did when awaited: returned a value (true when truthy) or raised. */
  datatype CallbackResult = Returned(truthy: bool) | Raised

  predicate Distinct<T(==)>(s: seq<T>) {
    forall i, j :: 0 <= i < j < |s| ==> s[i] != s[j]
  }

  /** The set of the elements of a sequence. */
  function Elements(s: seq<CallbackId>): (r: set<CallbackId>)
    ensures forall x :: x in r <==> x in s
  {
    if s == [] then {} else Elements(s[..|s| - 1]) + {s[|s| - 1]}
  }

  lemma DistinctAppend<T>(s: seq<T>, x: T)
    requires Distinct(s) && x !in s
    ensures Distinct(s + [x])
  {
  }

  /** The callbacks whose awaited result was falsy, among those invoked. */
  function Pruned(invoked: seq<CallbackId>, outcome: CallbackId -> CallbackResult): (r: set<CallbackId>)
    ensures forall cb :: cb in r <==> cb in invoked && outcome(cb) == Returned(false)
  {
    if invoked == [] then {}
    else
      var last := invoked[|invoked| - 1];
      Pruned(invoked[..|invoked| - 1], outcome) + (if outcome(last) == Returned(false) then {last} else {})
  }

  lemma PrunedAppend(invoked: seq<CallbackId>, cb: CallbackId, outcome: CallbackId -> CallbackResult)
    ensures Pruned(invoked + [cb], outcome) == Pruned(invoked, outcome) + (if outcome(cb) == Returned(false) then {cb} else {})
  {
    assert (invoked + [cb])[..|invoked|] == invoked;
  }

  function Callbacks(deliveries: seq<Delivery>): (r: seq<CallbackId>)
    ensures |r| == |deliveries|
    ensures forall i :: 0 <= i < |r| ==> r[i] == deliveries[i].callback
  {
    seq(|deliveries|, i requires 0 <= i < |deliveries| => deliveries[i].callback)
  }

  /**
   * The inner loop of `start_price_updates`: await each callback of the
   * snapshot once, in the set's iteration order, and drop from the live set
   * each one whose result is falsy. A callback that raises ends the loop,
   * and the callbacks not yet reached stay in the live set.
   */
  method AwaitSnapshot(snapshot: set<CallbackId>, outcome: CallbackId -> CallbackResult)
    returns (invoked: seq<CallbackId>, raised: bool, live: set<CallbackId>)
    ensures Distinct(invoked) && Elements(invoked) <= snapshot
    ensures live == snapshot - Pruned(invoked, outcome)
    ensures forall i :: 0 <= i < |invoked| - 1 ==> outcome(invoked[i]) != Raised
    ensures raised ==> invoked != [] && outcome(invoked[|invoked| - 1]) == Raised
    ensures !raised ==> Elements(invoked) == snapshot && forall i :: 0 <= i < |invoked| ==> outcome(invoked[i]) != Raised
  {
    invoked, raised := [], false;
    live := snapshot;
    var pending := snapshot;
    while pending != {}
      invariant pending <= snapshot
      invariant Elements(invoked) == snapshot - pending
      invariant Distinct(invoked)
      invariant forall i :: 0 <= i < |invoked| ==> outcome(invoked[i]) != Raised
      invariant live == snapshot - Pruned(invoked, outcome)
      decreases pending
    {
      var callback :| callback in pending;
      DistinctAppend(invoked, callback);
      PrunedAppend(invoked, callback, outcome);
      invoked := invoked + [callback];
      pending := pending - {callback};
      if outcome(callback) == Raised {
        raised := true;
        return;
      }
      if outcome(callback) == Returned(false) {
        live := live - {callback};
      }
    }
  }

  /**
   * The loop of `broadcast_price`: await every callback of the set once, in
   * the set's iteration order, with the same symbol and price; a callback
   * that raises is recorded and the loop goes on.
   */
  method Deliver(callbacks: set<CallbackId>, symbolUpper: string, price: real, raising: set<CallbackId>)
    returns (deliveries: seq<Delivery>, failed: set<CallbackId>)
    ensures Distinct(Callbacks(deliveries)) && Elements(Callbacks(deliveries)) == callbacks
    ensures forall d :: d in deliveries ==> d.symbol == symbolUpper && d.price == price
    ensures failed == callbacks * raising
  {
    deliveries, failed := [], {};
    var pending := callbacks;
    ghost var invoked: seq<CallbackId> := [];
    while pending != {}
      invariant pending <= callbacks
      invariant Elements(invoked) == callbacks - pending
      invariant Distinct(invoked)
      invariant |deliveries| == |invoked|
      invariant forall i :: 0 <= i < |invoked| ==> deliveries[i] == Delivery(invoked[i], symbolUpper, price)
      invariant failed == Elements(invoked) * raising
      decreases pending
    {
      var callback :| callback in pending;
      DistinctAppend(invoked, callback);
      assert (invoked + [callback])[..|invoked|] == invoked;
      invoked := invoked + [callback];
      deliveries := deliveries + [Delivery(callback, symbolUpper, price)];
      if callback in raising {
        failed := failed + {callback};
      }
      pending := pending - {callback};
    }
    assert Callbacks(deliveries) == invoked;
  }

  /**
   * Every trend is within its drawn ranges, the base prices are those of
   * the three known pairs and inside their bands, and every published price
   * is one of those pairs' and inside its band.
   */
  predicate FeedInvariant(trends: map<string, Trend>, basePrices: map<string, real>, prices: map<string, real>) {
    && (forall s :: s in trends ==> TrendValid(trends[s]))
    && basePrices.Keys == {Btc, Eth, Xrp}
    && (forall s :: s in basePrices ==> InBand(s, basePrices[s]) && basePrices[s] > 0.0)
    && (forall s :: s in prices ==> s in basePrices && InBand(s, prices[s]))
  }

  /** Replacing a trend by a valid one keeps the invariant. */
  lemma TrendUpdateKeepsInvariant(trends: map<string, Trend>, basePrices: map<string, real>, prices: map<string, real>, u: string, t: Trend)
    requires FeedInvariant(trends, basePrices, prices) && TrendValid(t)
    ensures FeedInvariant(trends[u := t], basePrices, prices)
  {
  }

  /** Publishing a positive in-band price of a known pair as its base and its price keeps the invariant. */
  lemma PublishKeepsInvariant(trends: map<string, Trend>, basePrices: map<string, real>, prices: map<string, real>, u: string, p: real)
    requires FeedInvariant(trends, basePrices, prices) && u in basePrices && InBand(u, p) && p > 0.0
    ensures FeedInvariant(trends, basePrices[u := p], prices[u := p])
  {
  }

  // ---------------------------------------------------------------------
  // The feed object
  // ---------------------------------------------------------------------

  class BinanceWebSocket {
    var connections: map<string, set<ConnectionId>>
    var prices: map<string, real>
    var priceCallbacks: map<string, set<CallbackId>>
    var basePrices: map<string, real>
    var trends: map<string, Trend>
    var currentPrices: map<string, real>

    ghost predicate Valid()
      reads this
    {
      FeedInvariant(trends, basePrices, prices)
    }

    constructor ()
      ensures Valid()
      ensures connections == map[] && prices == map[] && priceCallbacks == map[]
      ensures trends == map[] && currentPrices == map[]
      ensures basePrices == map[Btc := 52000.0, Eth := 3200.0, Xrp := 0.55]
    {
      connections := map[];
      prices := map[];
      priceCallbacks := map[];
      basePrices := map[Btc := 52000.0, Eth := 3200.0, Xrp := 0.55];
      trends := map[];
      currentPrices := map[];
    }

    /**
     * `connect`: an unknown symbol gets an empty connection set and an empty
     * callback set (replacing callbacks added before under that symbol by
     * `add_price_callback`); the upper-cased symbol gets a fresh trend unless
     * it already has one. Starting the simulation task is left to the caller,
     * who then drives `SimulatePriceStep`.
     */
    method Connect(symbol: string, direction: int, strength: real, maxSteps: int)
      requires Valid()
      requires DirectionDraw(direction) && StrengthDraw(strength) && MaxStepsDraw(maxSteps)
      modifies this
      ensures Valid()
      ensures connections == if symbol in old(connections) then old(connections) else old(connections)[symbol := {}]
      ensures priceCallbacks == if symbol in old(connections) then old(priceCallbacks) else old(priceCallbacks)[symbol := {}]
      ensures trends == if Upper(symbol) in old(trends) then old(trends)
                        else old(trends)[Upper(symbol) := Trend(direction, strength, 0, maxSteps)]
      ensures prices == old(prices) && basePrices == old(basePrices) && currentPrices == old(currentPrices)
    {
      if symbol !in connections {
        connections := connections[symbol := {}];
        priceCallbacks := priceCallbacks[symbol := {}];
      }
      var symbolUpper := Upper(symbol);
      if symbolUpper !in trends {
        trends := trends[symbolUpper := Trend(direction, strength, 0, maxSteps)];
      }
    }

    /**
     * One iteration of the `simulate_price_updates` loop. A symbol without
     * trend state raises `KeyError` and nothing changes; a symbol without a
     * base price has its trend advanced before the lookup fails. Otherwise the
     * base price moves, is clamped to its band, is published under the
     * upper-cased symbol and is broadcast.
     */
    method SimulatePriceStep(symbol: string, strength: real, maxSteps: int, noise: real, raising: set<CallbackId>)
      returns (ok: bool, deliveries: seq<Delivery>)
      requires Valid()
      requires StrengthDraw(strength) && MaxStepsDraw(maxSteps) && NoiseDraw(noise)
      modifies this
      ensures Valid()
      ensures ok == (Upper(symbol) in old(trends) && Upper(symbol) in old(basePrices))
      ensures Upper(symbol) in old(trends) ==>
        trends == old(trends)[Upper(symbol) := AdvanceTrend(old(trends)[Upper(symbol)], strength, maxSteps)]
      ensures Upper(symbol) !in old(trends) ==> trends == old(trends)
      ensures ok ==> basePrices == old(basePrices)[Upper(symbol) := ClampToBand(Upper(symbol), Moved(old(basePrices)[Upper(symbol)], trends[Upper(symbol)], noise))]
      ensures ok ==> prices == old(prices)[Upper(symbol) := basePrices[Upper(symbol)]]
      ensures !ok ==> basePrices == old(basePrices) && prices == old(prices) && deliveries == []
      ensures ok ==> Distinct(Callbacks(deliveries)) && Elements(Callbacks(deliveries)) == CallbacksOf(priceCallbacks, symbol)
      ensures forall d :: d in deliveries ==> d.symbol == Upper(symbol) && d.price == prices[Upper(symbol)]
      ensures connections == old(connections) && priceCallbacks == old(priceCallbacks) && currentPrices == old(currentPrices)
    {
      var symbolUpper := Upper(symbol);
      ok, deliveries := false, [];
      if symbolUpper !in trends {
        return;
      }
      AdvanceTrendOf(symbolUpper, strength, maxSteps);
      if symbolUpper !in basePrices {
        return;
      }
      PublishMoved(symbolUpper, noise);
      ok := true;
      var failed;
      deliveries, failed := BroadcastPrice(symbol, raising);
    }

    /** The trend bookkeeping of one simulation step: count the step, reverse and redraw when it runs out. */
    method AdvanceTrendOf(symbolUpper: string, strength: real, maxSteps: int)
      requires Valid() && symbolUpper in trends
      requires StrengthDraw(strength) && MaxStepsDraw(maxSteps)
      modifies this
      ensures Valid()
      ensures trends == old(trends)[symbolUpper := AdvanceTrend(old(trends)[symbolUpper], strength, maxSteps)]
      ensures basePrices == old(basePrices) && prices == old(prices)
      ensures connections == old(connections) && priceCallbacks == old(priceCallbacks) && currentPrices == old(currentPrices)
    {
      var trend := trends[symbolUpper];
      trend := trend.(steps := trend.steps + 1);
      if trend.steps >= trend.maxSteps {
        trend := trend.(direction := -trend.direction, strength := strength, steps := 0, maxSteps := maxSteps);
      }
      AdvanceTrendKeepsInvariant(trends[symbolUpper], strength, maxSteps);
      assert trend == AdvanceTrend(trends[symbolUpper], strength, maxSteps);
      TrendUpdateKeepsInvariant(trends, basePrices, prices, symbolUpper, trend);
      trends := trends[symbolUpper := trend];
    }

    /** The price half of one simulation step: move the base price, clamp it and publish it. */
    method PublishMoved(symbolUpper: string, noise: real)
      requires Valid() && symbolUpper in trends && symbolUpper in basePrices && NoiseDraw(noise)
      modifies this
      ensures Valid()
      ensures trends == old(trends)
      ensures basePrices == old(basePrices)[symbolUpper := ClampToBand(symbolUpper, Moved(old(basePrices)[symbolUpper], trends[symbolUpper], noise))]
      ensures prices == old(prices)[symbolUpper := basePrices[symbolUpper]]
      ensures connections == old(connections) && priceCallbacks == old(priceCallbacks) && currentPrices == old(currentPrices)
    {
      var moved := Moved(basePrices[symbolUpper], trends[symbolUpper], noise);
      var clamped := ClampToBand(symbolUpper, moved);
      PublishKeepsInvariant(trends, basePrices, prices, symbolUpper, clamped);
      basePrices := basePrices[symbolUpper := clamped];
      prices := prices[symbolUpper := clamped];
    }

    /**
     * `broadcast_price`: nothing when no price is stored under the upper-cased
     * symbol; otherwise every callback registered under the symbol AS GIVEN is
     * awaited once with the upper-cased symbol and its price, in the set's
     * (unspecified) iteration order. A callback that raises is logged and the
     * remaining ones still run.
     */
    method BroadcastPrice(symbol: string, raising: set<CallbackId>) returns (deliveries: seq<Delivery>, failed: set<CallbackId>)
      ensures Upper(symbol) !in prices ==> deliveries == [] && failed == {}
      ensures Upper(symbol) in prices ==>
        && Distinct(Callbacks(deliveries))
        && Elements(Callbacks(deliveries)) == CallbacksOf(priceCallbacks, symbol)
      ensures forall d :: d in deliveries ==> d.symbol == Upper(symbol) && d.price == prices[Upper(symbol)]
      ensures failed == Elements(Callbacks(deliveries)) * raising
    {
      deliveries, failed := [], {};
      if Upper(symbol) in prices {
        deliveries, failed := Deliver(CallbacksOf(priceCallbacks, symbol), Upper(symbol), prices[Upper(symbol)], raising);
      }
    }

    /** `add_price_callback`: set insertion, creating the set for an unknown symbol. */
    method AddPriceCallback(symbol: string, callback: CallbackId)
      requires Valid()
      modifies this
      ensures Valid()
      ensures priceCallbacks == Registered(old(priceCallbacks), symbol, callback)
      ensures connections == old(connections) && prices == old(prices) && trends == old(trends)
      ensures basePrices == old(basePrices) && currentPrices == old(currentPrices)
    {
      if symbol !in priceCallbacks {
        priceCallbacks := priceCallbacks[symbol := {}];
      }
      priceCallbacks := priceCallbacks[symbol := priceCallbacks[symbol] + {callback}];
    }

    /** `remove_price_callback`: `discard` from the symbol's set, if there is one. */
    method RemovePriceCallback(symbol: string, callback: CallbackId)
      requires Valid()
      modifies this
      ensures Valid()
      ensures priceCallbacks == Unregistered(old(priceCallbacks), symbol, callback)
      ensures connections == old(connections) && prices == old(prices) && trends == old(trends)
      ensures basePrices == old(basePrices) && currentPrices == old(currentPrices)
    {
      if symbol in priceCallbacks {
        priceCallbacks := priceCallbacks[symbol := priceCallbacks[symbol] - {callback}];
      }
    }

    /**
     * One iteration of the `start_price_updates` loop, with the generated
     * price as a parameter. The price is stored in `current_prices` under the
     * symbol as given; then a snapshot of the symbol's callbacks is awaited,
     * each with `(symbol, price)`, in the set's iteration order, and each one
     * that returns a falsy value is
     * removed from the live set. A callback that raises ends the iteration
     * (the outer handler logs it): the callbacks not yet reached are kept.
     */
    method PriceUpdateStep(symbol: string, price: real, outcome: CallbackId -> CallbackResult)
      returns (invoked: seq<CallbackId>, calls: seq<Delivery>, raised: bool)
      requires Valid()
      modifies this
      ensures Valid()
      ensures currentPrices == old(currentPrices)[symbol := price]
      ensures connections == old(connections) && prices == old(prices) && trends == old(trends) && basePrices == old(basePrices)
      ensures Distinct(invoked)
      ensures |calls| == |invoked| && forall i :: 0 <= i < |calls| ==> calls[i] == Delivery(invoked[i], symbol, price)
      ensures forall cb :: cb in invoked ==> cb in CallbacksOf(old(priceCallbacks), symbol)
      ensures symbol !in old(priceCallbacks) ==> priceCallbacks == old(priceCallbacks) && invoked == [] && !raised
      ensures symbol in old(priceCallbacks) ==>
        priceCallbacks == old(priceCallbacks)[symbol := old(priceCallbacks)[symbol] - Pruned(invoked, outcome)]
      ensures forall i :: 0 <= i < |invoked| - 1 ==> outcome(invoked[i]) != Raised
      ensures raised ==> invoked != [] && outcome(invoked[|invoked| - 1]) == Raised
      ensures !raised ==> Elements(invoked) == CallbacksOf(old(priceCallbacks), symbol)
      ensures !raised ==> forall i :: 0 <= i < |invoked| ==> outcome(invoked[i]) != Raised
    {
      currentPrices := currentPrices[symbol := price];
      invoked, raised := [], false;
      if symbol in priceCallbacks {
        var live;
        invoked, raised, live := AwaitSnapshot(priceCallbacks[symbol], outcome);
        priceCallbacks := priceCallbacks[symbol := live];
      }
      calls := seq(|invoked|, i requires 0 <= i < |invoked| => Delivery(invoked[i], symbol, price));
    }
  }
}
