# Trading-signal service, price feed and browser socket client, in Dafny

This project models the three stateful components of a small trading-signal system and proves properties of the model.

- **`TradingService`** (backend/app/services/trading_service.py). `create_signal` handles two kinds of signal:
  - An open signal appends a record to the `trading_signals` table. Its open price is the price feed's cached price for the currency.
  - A close signal settles the first open record with the same trade id. The record is marked closed and stamped. When both prices are present and non-zero, the close also gets its signed profit percentage and its win/lose streaks. The streaks are derived from the latest earlier close of the same strategy title.
  - `get_all_signals` keeps one record per trade id.
  - `get_closed_signals_by_timerange` groups the closes of a time window by strategy title and sorts the groups by close count.
  - Modules: `TradingModel` (the record and the request), `TradingService` (the lifecycle and the `SignalStore` class) and `TradingQueries` (the two queries).
- **`BinanceWebSocket`** (backend/app/services/binance_ws.py), module `PriceFeed`. This is the simulated market feed. Its dictionaries (prices, per-symbol callback sets, per-symbol trend state, base prices, current prices, connections) are the fields of a class. The class methods cover:
  - the trend-and-clamp step of the simulation loop;
  - the broadcast to callbacks;
  - callback registration;
  - one iteration of the `start_price_updates` loop, which prunes callbacks that return a falsy value;
  - the symbol normalisation behind `get_current_price`.
- **`WebSocketService`** (frontend/src/services/websocket.js), module `WebSocketClient`. This is the browser client. It keeps a subscriber set that each parsed frame is delivered to, and a reconnection counter capped at 5 that is reset whenever a socket opens.

How the model represents the source:

- The database is a sequence of records in insertion order.
- Timestamps are integers and prices are reals.
- A raised exception is an outcome that rolls the store back unchanged.
- These become parameters, constrained to the ranges the source draws from where there is one:
  - random draws;
  - the clock;
  - the price generator of `start_price_updates`;
  - the behaviour of callbacks;
  - whether the `WebSocket` constructor throws;
  - whether `JSON.parse` succeeds.

Where the code does something other than what its own comments and names suggest, the model follows the code, and lemmas show the difference:

- A close whose cached price is missing still closes the record (`UnpricedCloseStillCloses`).
- An open is never checked against an existing open with the same trade id (`DuplicateOpensAreKept`).
- The streak decision reads the prior close's `is_profit` and not its counters. `StreakRuleMatchesCounterTable` shows that the two agree on every prior that a settlement can produce: a priced one (`SettlementStreaksExclusive`) and an unpriced one, which keeps `is_profit` None and zero counters (`UnpricedSettlementIsConsistent`). `UnpricedPriorCountsAsLoss` spells out how the rule treats that unpriced prior.
- `get_current_price` tests for the `USDT` suffix before upper-casing, so `"btcusdt"` is looked up as `"BTCUSDTUSDT"` (`LowerCaseQuoteIsAppendedAgain`).
- `broadcast_price` upper-cases the symbol for the price lookup but reads the callback set under the symbol as given (`BroadcastPrice`).
- The first `connect` of a symbol replaces a callback set registered earlier by `add_price_callback` with an empty set. A later `connect` of a connected symbol keeps its callbacks (`Connect`).
- In the browser client, a callback that throws inside `forEach` ends the delivery of that frame. The `try` that catches it is the parse handler's. So "every subscriber receives every parsed frame" holds only when no subscriber throws (`EveryoneReceivesWhenNoneThrows`, `LateSubscriberAfterThrower`).

## Model

| member | source | states |
|---|---|---|
| PriceFeed.Upper | backend/app/services/binance_ws.py:130 | `str.upper` keeps the length, leaves no lower-case letter, agrees with the input up to case at every position, and is the identity on an upper-case string |
| PriceFeed.Normalize | backend/app/services/binance_ws.py:128-130 | the lookup key always ends in "USDT" and is upper-case |
| PriceFeed.NormalizeIdempotent | backend/app/services/binance_ws.py:128-130 | normalising a normalised symbol changes nothing |
| PriceFeed.LowerCaseQuoteIsAppendedAgain | backend/app/services/binance_ws.py:128-130 | the suffix test is case-sensitive and runs before upper-casing: "btcusdt" becomes "BTCUSDTUSDT" |
| PriceFeed.CurrentPrice | backend/app/services/binance_ws.py:125-131 | any result is a price the feed has published; a symbol already in the feed's form (upper-case, ending in "USDT") finds exactly the price stored under it, or None when there is none |
| PriceFeed.CurrentPriceOfLookupKey | backend/app/services/binance_ws.py:125-131 | asking under the normalised key gives the same answer as asking under the symbol |
| PriceFeed.AdvanceTrend | backend/app/services/binance_ws.py:50-56 | the definition of one trend step (count, and at the maximum flip and redraw); its properties are proved by `AdvanceTrendKeepsInvariant` and used by `AdvanceTrendOf` |
| PriceFeed.Moved | backend/app/services/binance_ws.py:59-65 | the definition of one random-walk move `base * (1 + direction * strength + noise)`; `MovedKeepsSign` proves it keeps a positive price positive |
| PriceFeed.AdvanceTrendKeepsInvariant | backend/app/services/binance_ws.py:50-56 | each trend step keeps 0 <= steps < max_steps, 10 <= max_steps <= 30, direction in {-1, 1} and strength in its range; the direction flips exactly when the count reaches max_steps; otherwise only the count grows |
| PriceFeed.MovedKeepsSign | backend/app/services/binance_ws.py:59-65 | a random-walk move of a positive price with drawn strength and noise keeps it positive |
| PriceFeed.Clamp | backend/app/services/binance_ws.py:69-73 | `max(min(x, high), low)` lies in [low, high] and is x when x already does |
| PriceFeed.ClampToBand | backend/app/services/binance_ws.py:67-73 | after the clamp, BTCUSDT is in [49000, 55000], ETHUSDT in [2900, 3500] and XRPUSDT in [0.45, 0.65]; a price already in its band is unchanged |
| PriceFeed.Registered | backend/app/services/binance_ws.py:97-100 | after registration the symbol has an entry, and a callback is registered for a symbol iff it was before or it is the one just added to that symbol |
| PriceFeed.Unregistered | backend/app/services/binance_ws.py:102-104 | removal adds no symbol, and a callback is registered for a symbol afterwards iff it was before and it is not the one removed from that symbol |
| PriceFeed.UnregisterUndoesRegister | backend/app/services/binance_ws.py:97-104 | removing a callback just added to a known symbol that did not have it restores the registry |
| PriceFeed.RegisterUndoesUnregister | backend/app/services/binance_ws.py:97-104 | adding back a callback just removed restores the registry |
| PriceFeed.RegisterIdempotent | backend/app/services/binance_ws.py:97-100 | registering the same callback twice is registering it once, and it is then registered |
| PriceFeed.UnregisterIdempotent | backend/app/services/binance_ws.py:102-104 | removing twice is removing once, and the callback is then absent |
| PriceFeed.UnregisterAbsentIsNoop | backend/app/services/binance_ws.py:102-104 | removing an unknown symbol or an unregistered callback leaves the registry as it was |
| PriceFeed.Pruned | backend/app/services/binance_ws.py:116-118 | the pruned callbacks are exactly the invoked ones whose awaited result was falsy |
| PriceFeed.AwaitSnapshot | backend/app/services/binance_ws.py:115-118 | each callback of the snapshot is awaited at most once; the live set loses exactly the awaited ones that returned a falsy value; none awaited before the last raised; a raising callback is the last one awaited and ends the loop; without one, every callback is awaited |
| PriceFeed.Deliver | backend/app/services/binance_ws.py:91-95 | every callback of the set is awaited exactly once with the same symbol and price, and the raising ones are exactly the set's members that raise |
| PriceFeed.TrendUpdateKeepsInvariant | backend/app/services/binance_ws.py:50-56 | storing a trend within its drawn ranges keeps the feed invariant |
| PriceFeed.PublishKeepsInvariant | backend/app/services/binance_ws.py:65-76 | storing a positive in-band price of a known pair as its base and published price keeps the feed invariant |
| PriceFeed.BinanceWebSocket.constructor | backend/app/services/binance_ws.py:9-24 | empty dictionaries and the base prices 52000, 3200 and 0.55 of the three pairs |
| PriceFeed.BinanceWebSocket.Connect | backend/app/services/binance_ws.py:26-42 | an unknown symbol gets empty connection and callback sets, replacing earlier callbacks; a trend is drawn only for an upper-cased symbol without one; nothing else changes |
| PriceFeed.BinanceWebSocket.SimulatePriceStep | backend/app/services/binance_ws.py:44-84 | a symbol without trend state raises and nothing changes; a symbol without a base price raises after its trend advanced; otherwise the trend advances, the base price moves and is clamped, the price is published under the upper-cased symbol and broadcast; the class invariant (bands, trend ranges) holds after every step |
| PriceFeed.BinanceWebSocket.AdvanceTrendOf | backend/app/services/binance_ws.py:50-56 | the symbol's trend becomes `AdvanceTrend` of the old one; prices and every other field are unchanged |
| PriceFeed.BinanceWebSocket.PublishMoved | backend/app/services/binance_ws.py:59-76 | the base price becomes the clamped move of the old one and is published under the same key; trends and every other field are unchanged |
| PriceFeed.BinanceWebSocket.BroadcastPrice | backend/app/services/binance_ws.py:86-95 | no price under the upper-cased symbol means no calls; otherwise each callback registered under the symbol as given is awaited exactly once with the upper-cased symbol and its price; the raising ones are reported and the rest still run |
| PriceFeed.BinanceWebSocket.AddPriceCallback | backend/app/services/binance_ws.py:97-100 | the registry becomes `Registered(old, symbol, callback)`; nothing else changes |
| PriceFeed.BinanceWebSocket.RemovePriceCallback | backend/app/services/binance_ws.py:102-104 | the registry becomes `Unregistered(old, symbol, callback)`; nothing else changes |
| PriceFeed.BinanceWebSocket.PriceUpdateStep | backend/app/services/binance_ws.py:110-118 | the price is stored under the symbol; each callback of the snapshot is called at most once, with `(symbol, price)`; exactly the ones that returned false are removed from the live set; a raising callback ends the iteration and keeps the rest; no other symbol's set changes |
| TradingService.ProfitPercentage | backend/app/services/trading_service.py:39-42 | profit × open = (close − open) × 100 for a long and (open − close) × 100 for a short (`side == "sell"` only) |
| TradingService.ProfitSign | backend/app/services/trading_service.py:38-44 | with a positive open price a long wins iff the price rose and a short wins iff it fell |
| TradingService.NextStreaks | backend/app/services/trading_service.py:54-71 | the definition of the streak rule on the prior's `is_profit`; `StreaksExclusive`, `StreakRuleMatchesCounterTable` and `UnpricedPriorCountsAsLoss` prove its properties |
| TradingService.Settled | backend/app/services/trading_service.py:33-71 | the definition of a settled record; `CloseSettlesFirstOpenOnly`, `SettlementProfitLaw`, `UnpricedCloseStillCloses` and `SettledKeepsInvariant` prove its properties |
| TradingService.Opened | backend/app/services/trading_service.py:84-101 | the definition of the record an open creates; `OpenAppendsOneRecord` states every field of it |
| TradingService.Process | backend/app/services/trading_service.py:15-111 | the definition of `create_signal` on a table; the lifecycle lemmas below and `SignalStore.CreateSignal` are stated through it |
| TradingService.StreaksExclusive | backend/app/services/trading_service.py:54-71 | with non-negative prior counters exactly one streak counter is positive, the win counter iff the close is a win |
| TradingService.StreakRuleMatchesCounterTable | backend/app/services/trading_service.py:54-71 | on a prior a settlement can leave (priced with counters that agree with its outcome, or unpriced with zero counters), the code's rule, which reads `is_profit`, equals the table on the counters: a positive win counter continues a win streak, a positive lose counter a losing one, otherwise a streak of one starts |
| TradingService.StreakScenarioWinWinLossWin | backend/app/services/trading_service.py:54-71 | win, win, loss, win of one title give streaks (1,0), (2,0), (0,1), (1,0) |
| TradingService.UnpricedPriorCountsAsLoss | backend/app/services/trading_service.py:55-68 | a prior with `is_profit` None counts as a loss: a loss continues its lose counter, a win restarts at (1, 0) |
| TradingService.FirstOpen | backend/app/services/trading_service.py:22-25 | the first record in store order that is open for the trade id, or None iff there is none |
| TradingService.LatestPrior | backend/app/services/trading_service.py:48-52 | a closed record with the same title other than the one being settled (for an untitled record, an untitled close, as `title == None` renders `IS NULL`), with no candidate ranked later by `closed_at DESC`, a missing time ranking first; ties go to the earliest in store order; None iff there is no candidate |
| TradingService.CloseWithoutOpenIsNoop | backend/app/services/trading_service.py:20-78 | a close with no open record for its trade id returns None and leaves the store unchanged |
| TradingService.CloseSettlesFirstOpenOnly | backend/app/services/trading_service.py:22-44 | a matched close changes only the first open record: it is closed at `now` with the feed's price for its currency, and it keeps every field other than the closing, profit and streak fields; all other records are unchanged |
| TradingService.SettlementProfitLaw | backend/app/services/trading_service.py:38-71 | with truthy prices the stored profit is the signed percentage change and `is_profit` is its sign; the streaks are the rule applied to the latest prior close; a long with positive open wins iff the close is higher |
| TradingService.UnpricedCloseStillCloses | backend/app/services/trading_service.py:33-38 | a close where the open price or the cached close price is not truthy still closes, stamps and prices the record, and leaves profit, outcome and streaks as they were |
| TradingService.SettlementStreaksExclusive | backend/app/services/trading_service.py:54-71 | after a priced settlement over a store with non-negative counters, exactly one counter is positive and it agrees with the outcome |
| TradingService.UnpricedSettlementIsConsistent | backend/app/services/trading_service.py:33-38 | closing a freshly opened record without both prices truthy leaves `is_profit` None and zero counters, a prior on which the code's rule and the counter table agree |
| TradingService.SecondCloseIsNoMatch | backend/app/services/trading_service.py:22-35 | with at most one open record for the trade id, a second delivery of the same close after one that did not raise returns None and changes nothing |
| TradingService.DuplicateOpensAreKept | backend/app/services/trading_service.py:81-106 | two opens of one trade id leave two open records |
| TradingService.OpenAppendsOneRecord | backend/app/services/trading_service.py:81-106 | an open appends exactly one open record with the request's trade id, title, currency, side, converted lever and trigger prices (the take-profit one as a one-element list), the next id, no closing fields, zero streaks and the feed's cached price (possibly None) as open price |
| TradingService.RaisedRequestChangesNothing | backend/app/services/trading_service.py:108-111 | a request that raises leaves the store as it was (rollback) |
| TradingService.ClosedRecordsAreFinal | backend/app/services/trading_service.py:20-106 | no request changes a closed record |
| TradingService.SettlementScenario | backend/app/services/trading_service.py:33-71 | a long 50000 → 51000 makes 2%, a win, streaks (1, 0); a short of the same title 3000 → 3030 then makes −1%, a loss, streaks (0, 1) |
| TradingService.UntitledPriorContinuesStreak | backend/app/services/trading_service.py:48-58 | an untitled close finds the latest untitled close as its prior: after an untitled win with win streak 3, an untitled long 100 → 110 stores win streak 4 |
| TradingService.UntimedCloseRanksFirst | backend/app/services/trading_service.py:48-52 | under `ORDER BY closed_at DESC` a candidate without a close time is taken before a timed one, whatever the store order |
| TradingService.SignalStore.constructor | backend/app/models/trading.py:4-7 | an empty table whose first identifier is 1 |
| TradingService.SettledKeepsInvariant | backend/app/services/trading_service.py:33-78 | settling a record keeps identifiers distinct and below the next one, and all streak counters non-negative |
| TradingService.AppendKeepsInvariant | backend/app/services/trading_service.py:81-106 | appending a record under the next identifier with zero counters keeps the store invariant for the advanced identifier |
| TradingService.SignalStore.CreateSignal | backend/app/services/trading_service.py:15-111 | the outcome and the new table are those of the lifecycle function `Process` on the old table; identifiers advance exactly on a created record; ids stay distinct and counters non-negative |
| TradingQueries.LatestPerTrade | backend/app/services/trading_service.py:130-136 | the definition of the one-per-trade-id pass; `LatestPerTradeIds`, `LatestPerTradeDistinct`, `LatestPerTradeFirst`, `LatestPerTradeOrder` and `KeepsNewestPerTrade` prove its properties |
| TradingQueries.TradeIdsExact | backend/app/services/trading_service.py:130-136 | every id in the trade-id set of a sequence is the trade id of one of its records |
| TradingQueries.LatestPerTradeIds | backend/app/services/trading_service.py:130-136 | the result contains every trade id of the input and is no longer than it |
| TradingQueries.LatestPerTradeDistinct | backend/app/services/trading_service.py:130-136 | no trade id occurs twice in the result |
| TradingQueries.LatestPerTradeFirst | backend/app/services/trading_service.py:131-134 | each kept record is the first record of its trade id in the input |
| TradingQueries.LatestPerTradeOrder | backend/app/services/trading_service.py:131-136 | the kept records are in the order of their trade ids' first occurrences |
| TradingQueries.KeepsNewestPerTrade | backend/app/services/trading_service.py:118-136 | on input ordered newest first, the kept record of a trade id is at least as new as every record of that id |
| TradingQueries.GetAllSignals | backend/app/services/trading_service.py:114-136 | the loop returns one record per trade id, the first in input order; ids are distinct and all are covered |
| TradingQueries.ClosedInWindow | backend/app/services/trading_service.py:170-178 | selects the closed records with a close time in [start, end] and a non-null title: each such row occurs as often as in the store, every other row not at all |
| TradingQueries.SelectSnoc | backend/app/services/trading_service.py:170-178 | a row added at the end of the store is selected after the others exactly when it passes the filter |
| TradingQueries.ClosedInWindowAppend | backend/app/services/trading_service.py:170-178 | selection keeps store order: selecting from `a + b` gives the selection from `a` followed by the selection from `b` |
| TradingQueries.Tally | backend/app/services/trading_service.py:198-211 | the definition of counting one record into its title's statistics (None outcome as a loss, None profit as 0) |
| TradingQueries.AddToGroups | backend/app/services/trading_service.py:184-211 | the definition of one iteration of the grouping loop; `AddToGroupsKeepsGrouped` proves it keeps the statistics correct |
| TradingQueries.GroupByTitle | backend/app/services/trading_service.py:183-211 | the definition of the grouping loop's dictionary values; `GroupByTitleMatchesReference` characterises them |
| TradingQueries.GroupByTitleMatchesReference | backend/app/services/trading_service.py:183-211 | titles are distinct; each group holds the count, wins, losses (None counts as a loss), total profit (None counts as 0) and summaries of exactly the records of its title with a non-empty title; a title has a group iff it has such a record |
| TradingQueries.AddToGroupsKeepsGrouped | backend/app/services/trading_service.py:184-211 | one iteration of the grouping loop turns the statistics of a prefix into the statistics of the prefix extended by one record |
| TradingQueries.InsertByCount | backend/app/services/trading_service.py:214-218 | insertion adds exactly one element and keeps all the others |
| TradingQueries.SortByCloseCount | backend/app/services/trading_service.py:214-218 | sorting keeps the length and the elements |
| TradingQueries.SortByCloseCountSorted | backend/app/services/trading_service.py:214-218 | the sorted groups have non-increasing close counts |
| TradingQueries.SortByCloseCountPermutes | backend/app/services/trading_service.py:214-218 | the sorted groups are a permutation of the groups |
| TradingQueries.SortByCloseCountStable | backend/app/services/trading_service.py:214-218 | groups with equal close count keep their relative order, as `sorted(reverse=True)` does |
| TradingQueries.SortByCloseCountDistinct | backend/app/services/trading_service.py:214-218 | sorting keeps titles distinct |
| TradingQueries.SortKeepsGrouped | backend/app/services/trading_service.py:214-218 | reordering the groups by close count keeps them the statistics of the same records |
| TradingQueries.ClosedStatsCorrect | backend/app/services/trading_service.py:157-220 | the report has non-increasing close counts and distinct titles; every group has close_count = win_count + lose_count = number of records, greater than 0, and matches the records of its title; every title with a counted close is reported |
| TradingQueries.SingleCloseScenario | backend/tests/test_trading_service.py:31-53 | one close with profit 10.5 within a day's window gives one group "test_strategy" with total 10.5, one close and one loss |
| TradingQueries.ClosedStats | backend/app/services/trading_service.py:157-220 | the definition of the report; `ClosedStatsCorrect` characterises it and `GetClosedSignalsByTimerange` computes it |
| TradingQueries.CountInto | backend/app/services/trading_service.py:184-211 | one pass of the loop body (skip an untitled record, create the entry if missing, bump the counters, add the profit and append the summary) computes `AddToGroups`, which `AddToGroupsKeepsGrouped` shows keeps the statistics correct |
| TradingQueries.GetClosedSignalsByTimerange | backend/app/services/trading_service.py:157-220 | the grouping loop and the sort compute the report `ClosedStats` that the lemmas above characterise |
| WebSocketClient.Added | frontend/src/services/websocket.js:60-62 | `Set.add` keeps the existing callbacks in order, adds only the new one and never duplicates |
| WebSocketClient.Removed | frontend/src/services/websocket.js:64-66 | `Set.delete` takes out exactly the given callback and keeps the rest distinct |
| WebSocketClient.AddIdempotent | frontend/src/services/websocket.js:60-62 | subscribing twice is subscribing once |
| WebSocketClient.RemoveIdempotent | frontend/src/services/websocket.js:64-66 | unsubscribing twice is unsubscribing once |
| WebSocketClient.RemoveAbsentIsNoop | frontend/src/services/websocket.js:64-66 | unsubscribing an absent callback changes nothing |
| WebSocketClient.RemovedAt | frontend/src/services/websocket.js:64-66 | deleting the member at position k leaves the members before and after it in their old order, as `Set.delete` keeps insertion order |
| WebSocketClient.RemoveUndoesAdd | frontend/src/services/websocket.js:60-66 | unsubscribing a newly subscribed callback restores the set |
| WebSocketClient.UpToFirstThrow | frontend/src/services/websocket.js:24-27 | `forEach` reaches a prefix of the callbacks; all but the last reached do not throw; it stops early only at a throwing one; it reaches them all when none throws |
| WebSocketClient.Delivered | frontend/src/services/websocket.js:20-32 | the callbacks reached are a prefix of the subscription order; a frame that does not parse reaches none; none reached before the last one throws; a parsed frame stops short of the end only at a throwing callback |
| WebSocketClient.EveryoneReceivesWhenNoneThrows | frontend/src/services/websocket.js:20-32 | with no throwing callback, a parsed frame reaches every subscriber once, in subscription order |
| WebSocketClient.LateSubscriberAfterThrower | frontend/src/services/websocket.js:24-28 | a callback subscribed after one that throws never receives the frame |
| WebSocketClient.ReconnectStep | frontend/src/services/websocket.js:50-58 | the count never passes 5; each scheduled reconnection uses up exactly one attempt and an unscheduled step uses none; once 5 are used none is scheduled (`AttemptsBounded` and `ReconnectsUntilExhausted` carry this over event sequences) |
| WebSocketClient.AfterEvent | frontend/src/services/websocket.js:15-58 | the definition of the count after one socket event: an open resets it, a close or a failed creation is a reconnection step |
| WebSocketClient.AttemptsAfter | frontend/src/services/websocket.js:15-58 | the definition of the count after a sequence of events; `AttemptsBounded`, `OpenResetsAttempts` and `ReconnectsUntilExhausted` prove its properties |
| WebSocketClient.ScheduledCount | frontend/src/services/websocket.js:15-58 | the definition of the number of reconnections a sequence of events schedules; `ReconnectsUntilExhausted` and `NoSixthReconnect` prove its properties |
| WebSocketClient.AttemptsBounded | frontend/src/services/websocket.js:50-53 | the attempt count never exceeds 5, whatever the events |
| WebSocketClient.OpenResetsAttempts | frontend/src/services/websocket.js:15-18 | an open resets the count to 0, whatever came before |
| WebSocketClient.ReconnectsUntilExhausted | frontend/src/services/websocket.js:34-58 | between opens, closes and failed creations schedule exactly min(events, 5 − attempts) reconnections |
| WebSocketClient.NoSixthReconnect | frontend/src/services/websocket.js:50-58 | six closes in a row from a fresh client schedule five reconnections |
| WebSocketClient.WebSocketService.constructor | frontend/src/services/websocket.js:2-8 | no socket, no callbacks, zero attempts |
| WebSocketClient.WebSocketService.Connect | frontend/src/services/websocket.js:10-48 | a new socket becomes `ws` with the count unchanged; a throwing constructor keeps `ws` and reconnects |
| WebSocketClient.WebSocketService.OnOpen | frontend/src/services/websocket.js:15-18 | the attempt count becomes 0 and nothing else changes |
| WebSocketClient.WebSocketService.OnClose | frontend/src/services/websocket.js:34-38 | a close is a reconnection step |
| WebSocketClient.WebSocketService.Reconnect | frontend/src/services/websocket.js:50-58 | the count and the scheduling are those of `ReconnectStep`; the count stays at most 5 |
| WebSocketClient.WebSocketService.Subscribe | frontend/src/services/websocket.js:60-62 | the callbacks become `Added(old, cb)`; nothing else changes |
| WebSocketClient.WebSocketService.Unsubscribe | frontend/src/services/websocket.js:64-66 | the callbacks become `Removed(old, cb)`; nothing else changes |
| WebSocketClient.WebSocketService.OnMessage | frontend/src/services/websocket.js:20-32 | the loop delivers to exactly the callbacks `Delivered` names and changes no state |

## Left out

- I/O, logging, timers and tasks are not modelled. This covers `asyncio.create_task`, `asyncio.sleep`, `setTimeout` and its 3000 ms delay (kept as a constant only), `console.*` and the logger. The infinite `while True` loops are each modelled as one iteration.
- Randomness and floating point: draws are parameters restricted to their ranges, and prices are reals. `round(price, 8)` before publishing is dropped.
- Database mechanics are not modelled: SQLAlchemy sessions, commit, refresh and rollback. The table is a sequence in insertion order. A query's `.first()` without ORDER BY takes the first record in that order.
- The timerange query's `ORDER BY title, closed_at DESC`. The model keeps store order, so the records inside a group, and groups with equal close counts, come in store order rather than by title and close time. Title collation is database-specific.
- `get_all_signals`' `ORDER BY created_at DESC` is a precondition of `KeepsNewestPerTrade`, not part of the query.
- Prior-close ordering follows PostgreSQL, the production database (the `ARRAY(Float)` column of backend/app/models/trading.py:12): under `closed_at DESC` a record without `closed_at` comes first. SQLite, which backend/tests/test_trading_service.py uses, puts it last instead. Ties go to the earliest record in store order.
- Timezones (`pytz`, `Asia/Shanghai`): timestamps are integers and the clock is a parameter.
- `str.upper` is modelled on ASCII letters only. Unicode case mapping is not modelled.
- `generate_simulated_price` is called in `start_price_updates` but is not defined in the code, so its result is a parameter. `subscribe_symbol` is not part of this model.
- Exceptions: only those the source can raise are modelled:
  - a None currency (the `endswith` fails);
  - a numeric request field that `float`/`int` rejects;
  - a symbol missing from `trends` or `base_prices`;
  - a callback that raises.
- `lever_max`, `lever_min`, `ord_type` and the other request fields that `create_signal` never reads.
- `disconnect()` of the browser client is not a method of the model. It calls `ws.close()`, whose `onclose` handler then calls `reconnect()`, so a deliberate disconnect reaches the model as an `OnClose` event: it schedules a reconnection whenever fewer than 5 attempts have been used. `ws.onerror` only logs. The socket's URL is not modelled.
- `get_strategy_history`, the HTTP and WebSocket endpoints and the other services of the repository are not part of this model.
- Concurrency: concurrent closes of one trade id, and callbacks that reenter the feed during a broadcast.
- WebSocketClient.WebSocketService.OnMessage: re-entrant callbacks are not modelled. The code's `forEach` walks the live `Set`, so it also reaches a callback that a callback subscribes during delivery, and it skips one that a callback unsubscribes before its turn. The model walks the subscriber sequence as it was when the frame arrived, and callbacks have no effect on the service.
- WebSocketClient.WebSocketService.OnMessage: this is weaker than "delivered to every registered callback", because in the code an exception thrown by a callback ends the `forEach`. Full delivery is proved only when no callback throws.
- PriceFeed.BinanceWebSocket.BroadcastPrice: the order in which a Python set is iterated is left unspecified. The contract fixes which callbacks are called, not their order.
