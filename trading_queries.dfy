/**
 * The two read-only queries of `TradingService`
 * (backend/app/services/trading_service.py): `get_all_signals`, which keeps
 * one record per trade id, and `get_closed_signals_by_timerange`, which
 * groups the closes of a time window by strategy title.
 *
 * The database query is the input sequence; the `for` loops that fill a
 * dictionary are loops that fill a sequence of values in insertion order (a
 * Python dictionary's order) together with its key set.
 */
module TradingQueries {
  import opened Wrappers
  import opened TradingModel

  // ---------------------------------------------------------------------
  // get_all_signals
  // ---------------------------------------------------------------------

  /** The trade ids that occur in `s`. */
  function TradeIds(s: seq<TradingSignal>): (ids: set<string>)
    ensures forall k :: 0 <= k < |s| ==> s[k].tradeId in ids
  {
    if s == [] then {}
    else
      var n := |s| - 1;
      assert forall k :: 0 <= k < n ==> s[..n][k] == s[k];
      TradeIds(s[..n]) + {s[n].tradeId}
  }

  /** Every id in `TradeIds(s)` is the trade id of some record of `s`. */
  lemma {:induction false} TradeIdsExact(s: seq<TradingSignal>, id: string)
    requires id in TradeIds(s)
    ensures exists k :: 0 <= k < |s| && s[k].tradeId == id
  {
    var n := |s| - 1;
    if id != s[n].tradeId {
      TradeIdsExact(s[..n], id);
      var k :| 0 <= k < n && s[..n][k].tradeId == id;
      assert s[k] == s[..n][k];
    }
  }

  /** The position of the first record of `s` with trade id `id`. */
  function FirstIndex(s: seq<TradingSignal>, id: string): (k: nat)
    requires id in TradeIds(s)
    ensures k < |s| && s[k].tradeId == id
    ensures forall j :: 0 <= j < k ==> s[j].tradeId != id
  {
    var n := |s| - 1;
    if id in TradeIds(s[..n]) then FirstIndex(s[..n], id) else n
  }

  /** The first record of every trade id, in the order of first occurrence. */
  function LatestPerTrade(s: seq<TradingSignal>): seq<TradingSignal> {
    if s == [] then []
    else
      var n := |s| - 1;
      var kept := LatestPerTrade(s[..n]);
      if s[n].tradeId in TradeIds(s[..n]) then kept else kept + [s[n]]
  }

  /** The result holds every trade id of the input and is no longer than it. */
  lemma {:induction false} LatestPerTradeIds(s: seq<TradingSignal>)
    ensures |LatestPerTrade(s)| <= |s|
    ensures TradeIds(LatestPerTrade(s)) == TradeIds(s)
  {
    if s != [] {
      var n := |s| - 1;
      var p := s[..n];
      LatestPerTradeIds(p);
      var kept := LatestPerTrade(p);
      if s[n].tradeId !in TradeIds(p) {
        var out := kept + [s[n]];
        assert out[..|kept|] == kept;
      }
    }
  }

  /** No trade id occurs twice in the result. */
  lemma {:induction false} LatestPerTradeDistinct(s: seq<TradingSignal>)
    ensures forall i, j :: 0 <= i < j < |LatestPerTrade(s)| ==> LatestPerTrade(s)[i].tradeId != LatestPerTrade(s)[j].tradeId
  {
    if s != [] {
      var n := |s| - 1;
      var p := s[..n];
      LatestPerTradeDistinct(p);
      LatestPerTradeIds(p);
      var kept := LatestPerTrade(p);
      if s[n].tradeId !in TradeIds(p) {
        var out := kept + [s[n]];
        forall i, j | 0 <= i < j < |out| ensures out[i].tradeId != out[j].tradeId {
          assert out[i] == kept[i];
          if j == |kept| {
            assert kept[i].tradeId in TradeIds(kept);
          } else {
            assert out[j] == kept[j];
          }
        }
      }
    }
  }

  /** Each kept record is the first record of its trade id in the input. */
  lemma {:induction false} LatestPerTradeFirst(s: seq<TradingSignal>)
    ensures forall k :: 0 <= k < |LatestPerTrade(s)| ==>
      && LatestPerTrade(s)[k].tradeId in TradeIds(s)
      && LatestPerTrade(s)[k] == s[FirstIndex(s, LatestPerTrade(s)[k].tradeId)]
  {
    if s != [] {
      var n := |s| - 1;
      var p := s[..n];
      LatestPerTradeFirst(p);
      var kept := LatestPerTrade(p);
      var out := LatestPerTrade(s);
      assert TradeIds(s) == TradeIds(p) + {s[n].tradeId};
      forall k | 0 <= k < |out| ensures out[k].tradeId in TradeIds(s) && out[k] == s[FirstIndex(s, out[k].tradeId)] {
        if k < |kept| {
          var id := kept[k].tradeId;
          assert out[k] == kept[k];
          assert id in TradeIds(p);
          assert FirstIndex(s, id) == FirstIndex(p, id);
          assert p[FirstIndex(p, id)] == s[FirstIndex(p, id)];
        } else {
          assert FirstIndex(s, s[n].tradeId) == n;
        }
      }
    }
  }

  /** The kept records keep the order of their trade ids' first occurrences. */
  lemma {:induction false} LatestPerTradeOrder(s: seq<TradingSignal>)
    ensures forall i, j :: 0 <= i < j < |LatestPerTrade(s)| ==>
      && LatestPerTrade(s)[i].tradeId in TradeIds(s)
      && LatestPerTrade(s)[j].tradeId in TradeIds(s)
      && FirstIndex(s, LatestPerTrade(s)[i].tradeId) < FirstIndex(s, LatestPerTrade(s)[j].tradeId)
  {
    if s != [] {
      var n := |s| - 1;
      var p := s[..n];
      LatestPerTradeOrder(p);
      LatestPerTradeFirst(p);
      var kept := LatestPerTrade(p);
      var out := LatestPerTrade(s);
      assert TradeIds(s) == TradeIds(p) + {s[n].tradeId};
      forall i, j | 0 <= i < j < |out|
        ensures && out[i].tradeId in TradeIds(s)
                && out[j].tradeId in TradeIds(s)
                && FirstIndex(s, out[i].tradeId) < FirstIndex(s, out[j].tradeId)
      {
        assert out[i] == kept[i];
        assert kept[i].tradeId in TradeIds(p);
        assert FirstIndex(s, kept[i].tradeId) == FirstIndex(p, kept[i].tradeId);
        if j < |kept| {
          assert out[j] == kept[j];
          assert kept[j].tradeId in TradeIds(p);
          assert FirstIndex(s, kept[j].tradeId) == FirstIndex(p, kept[j].tradeId);
        } else {
          assert out[j] == s[n];
          assert FirstIndex(s, s[n].tradeId) == n;
        }
      }
    } else {
      assert LatestPerTrade(s) == [];
    }
  }

  /** The records of `s` are ordered by creation time, newest first (the query's ORDER BY). */
  predicate NewestFirst(s: seq<TradingSignal>) {
    forall i, j :: 0 <= i < j < |s| ==> s[i].createdAt >= s[j].createdAt
  }

  /** On input ordered newest first, the record kept for a trade id is its newest one. */
  lemma KeepsNewestPerTrade(s: seq<TradingSignal>)
    requires NewestFirst(s)
    ensures var out := LatestPerTrade(s);
      forall k, j :: 0 <= k < |out| && 0 <= j < |s| && s[j].tradeId == out[k].tradeId ==> out[k].createdAt >= s[j].createdAt
  {
    LatestPerTradeFirst(s);
    var out := LatestPerTrade(s);
    forall k, j | 0 <= k < |out| && 0 <= j < |s| && s[j].tradeId == out[k].tradeId
      ensures out[k].createdAt >= s[j].createdAt
    {
      var f := FirstIndex(s, out[k].tradeId);
      assert f <= j;
    }
  }

  /**
   * `get_all_signals`, given the records as the query returns them: one
   * pass that keeps the first record seen of every trade id.
   */
  method GetAllSignals(signals: seq<TradingSignal>) returns (latest: seq<TradingSignal>)
    ensures latest == LatestPerTrade(signals)
    ensures |latest| <= |signals| && TradeIds(latest) == TradeIds(signals)
    ensures forall i, j :: 0 <= i < j < |latest| ==> latest[i].tradeId != latest[j].tradeId
  {
    var latestSignals: seq<TradingSignal> := [];
    var seen: set<string> := {};
    for i := 0 to |signals|
      invariant latestSignals == LatestPerTrade(signals[..i])
      invariant seen == TradeIds(signals[..i])
    {
      assert signals[..i + 1][..i] == signals[..i];
      var signal := signals[i];
      if signal.tradeId !in seen {
        latestSignals := latestSignals + [signal];
        seen := seen + {signal.tradeId};
      }
    }
    assert signals[..|signals|] == signals;
    latest := latestSignals;
    LatestPerTradeIds(signals);
    LatestPerTradeDistinct(signals);
  }

  // ---------------------------------------------------------------------
  // get_closed_signals_by_timerange
  // ---------------------------------------------------------------------

  /** The fields of a close listed under its strategy. */
  datatype ClosedRecord = ClosedRecord(
    closedAt: Option<int>,
    currency: Option<string>,
    profitPercentage: Option<real>,
    openPrice: Option<real>,
    closePrice: Option<real>)

  /** The statistics of one strategy title. */
  datatype StrategyStats = StrategyStats(
    title: string,
    closeCount: int,
    winCount: int,
    loseCount: int,
    totalProfit: real,
    records: seq<ClosedRecord>)

  /** The query's filter: closed, closed within the window (inclusive), title not null. */
  predicate InWindow(r: TradingSignal, startTime: int, endTime: int) {
    r.isClose && r.closedAt.Some? && startTime <= r.closedAt.value <= endTime && r.title.Some?
  }

  /**
   * The records the query selects, in store order: each selected row occurs
   * as often as it does in the store, and every other row not at all.
   */
  function ClosedInWindow(records: seq<TradingSignal>, startTime: int, endTime: int): (s: seq<TradingSignal>)
    ensures |s| <= |records|
    ensures forall r :: r in s <==> r in records && InWindow(r, startTime, endTime)
    ensures forall r {:trigger multiset(s)[r]} :: multiset(s)[r] == if InWindow(r, startTime, endTime) then multiset(records)[r] else 0
  {
    if records == [] then []
    else
      var n := |records| - 1;
      var kept := ClosedInWindow(records[..n], startTime, endTime);
      assert records == records[..n] + [records[n]];
      if InWindow(records[n], startTime, endTime) then kept + [records[n]] else kept
  }

  /** Selecting from a store extended by one row selects that row after the others, if at all. */
  lemma SelectSnoc(records: seq<TradingSignal>, x: TradingSignal, startTime: int, endTime: int)
    ensures ClosedInWindow(records + [x], startTime, endTime)
      == ClosedInWindow(records, startTime, endTime) + if InWindow(x, startTime, endTime) then [x] else []
  {
    assert (records + [x])[..|records|] == records;
  }

  /** Selection keeps store order: the rows selected from a store split in two are those of each part, in turn. */
  lemma {:induction false} ClosedInWindowAppend(a: seq<TradingSignal>, b: seq<TradingSignal>, startTime: int, endTime: int)
    ensures ClosedInWindow(a + b, startTime, endTime) == ClosedInWindow(a, startTime, endTime) + ClosedInWindow(b, startTime, endTime)
  {
    if b == [] {
      assert a + b == a;
    } else {
      var n := |b| - 1;
      var x := b[n];
      assert b == b[..n] + [x];
      assert a + b == (a + b[..n]) + [x];
      ClosedInWindowAppend(a, b[..n], startTime, endTime);
      SelectSnoc(a + b[..n], x, startTime, endTime);
      SelectSnoc(b[..n], x, startTime, endTime);
    }
  }

  /** The loop skips a record whose title is falsy; the query lets an empty title through. */
  predicate Counted(r: TradingSignal) {
    r.title.Some? && r.title.value != ""
  }

  /** `profit_percentage or 0`. */
  function ProfitOrZero(r: TradingSignal): real {
    r.profitPercentage.GetOr(0.0)
  }

  function Summary(r: TradingSignal): ClosedRecord {
    ClosedRecord(r.closedAt, r.currency, r.profitPercentage, r.openPrice, r.closePrice)
  }

  function EmptyStats(title: string): StrategyStats {
    StrategyStats(title, 0, 0, 0, 0.0, [])
  }

  /** One record counted into its strategy's statistics; a None outcome counts as a loss. */
  function Tally(g: StrategyStats, r: TradingSignal): StrategyStats {
    g.(closeCount := g.closeCount + 1,
       winCount := if r.isProfit == Some(true) then g.winCount + 1 else g.winCount,
       loseCount := if r.isProfit == Some(true) then g.loseCount else g.loseCount + 1,
       totalProfit := g.totalProfit + ProfitOrZero(r),
       records := g.records + [Summary(r)])
  }

  /** Dictionary lookup by title among the statistics collected so far. */
  function IndexOfTitle(stats: seq<StrategyStats>, title: string): (k: Option<nat>)
    ensures k.Some? ==> k.value < |stats| && stats[k.value].title == title
    ensures k.None? ==> forall j :: 0 <= j < |stats| ==> stats[j].title != title
  {
    if stats == [] then None
    else if stats[0].title == title then Some(0)
    else
      match IndexOfTitle(stats[1..], title)
      case Some(k) => Some(k + 1)
      case None => None
  }

  /** One iteration of the grouping loop: skip, update the title's entry, or create it. */
  function AddToGroups(groups: seq<StrategyStats>, r: TradingSignal): seq<StrategyStats> {
    if !Counted(r) then groups
    else
      match IndexOfTitle(groups, r.title.value)
      case Some(k) => groups[k := Tally(groups[k], r)]
      case None => groups + [Tally(EmptyStats(r.title.value), r)]
  }

  /** The dictionary's values after the grouping loop has seen `signals`. */
  function GroupByTitle(signals: seq<TradingSignal>): seq<StrategyStats> {
    if signals == [] then []
    else AddToGroups(GroupByTitle(signals[..|signals| - 1]), signals[|signals| - 1])
  }

  // Reference definitions: the records of one title and their aggregates.

  /** The counted records of `signals` whose title is `title`, in order. */
  function OfTitle(signals: seq<TradingSignal>, title: string): seq<TradingSignal> {
    if signals == [] then []
    else
      var n := |signals| - 1;
      var r := signals[n];
      if Counted(r) && r.title.value == title then OfTitle(signals[..n], title) + [r] else OfTitle(signals[..n], title)
  }

  function Wins(rs: seq<TradingSignal>): (w: nat)
    ensures w <= |rs|
  {
    if rs == [] then 0
    else Wins(rs[..|rs| - 1]) + (if rs[|rs| - 1].isProfit == Some(true) then 1 else 0)
  }

  function SumProfit(rs: seq<TradingSignal>): real {
    if rs == [] then 0.0 else SumProfit(rs[..|rs| - 1]) + ProfitOrZero(rs[|rs| - 1])
  }

  function Summaries(rs: seq<TradingSignal>): (cs: seq<ClosedRecord>)
    ensures |cs| == |rs|
  {
    if rs == [] then [] else Summaries(rs[..|rs| - 1]) + [Summary(rs[|rs| - 1])]
  }

  /** `g` holds the statistics of exactly the records `rs`. */
  predicate StatsMatch(g: StrategyStats, rs: seq<TradingSignal>) {
    && g.closeCount == |rs|
    && g.winCount == Wins(rs)
    && g.loseCount == |rs| - Wins(rs)
    && g.totalProfit == SumProfit(rs)
    && g.records == Summaries(rs)
  }

  predicate DistinctTitles(groups: seq<StrategyStats>) {
    forall i, j :: 0 <= i < j < |groups| ==> groups[i].title != groups[j].title
  }

  lemma TallyMatches(g: StrategyStats, rs: seq<TradingSignal>, r: TradingSignal)
    requires StatsMatch(g, rs)
    ensures StatsMatch(Tally(g, r), rs + [r])
  {
    assert (rs + [r])[..|rs|] == rs;
  }

  /**
   * `groups` are the statistics of `signals`: titles are distinct, each
   * group holds the statistics of exactly the counted records of its title,
   * and a title has a group iff it has a counted record.
   */
  ghost predicate Grouped(signals: seq<TradingSignal>, groups: seq<StrategyStats>) {
    && DistinctTitles(groups)
    && (forall k :: 0 <= k < |groups| ==> StatsMatch(groups[k], OfTitle(signals, groups[k].title)) && OfTitle(signals, groups[k].title) != [])
    && (forall t :: OfTitle(signals, t) != [] ==> IndexOfTitle(groups, t).Some?)
  }

  lemma OfTitleAppend(p: seq<TradingSignal>, r: TradingSignal, t: string)
    ensures OfTitle(p + [r], t) == if Counted(r) && r.title.value == t then OfTitle(p, t) + [r] else OfTitle(p, t)
  {
    assert (p + [r])[..|p|] == p;
  }

  lemma GroupSkip(p: seq<TradingSignal>, r: TradingSignal, groups: seq<StrategyStats>)
    requires Grouped(p, groups) && !Counted(r)
    ensures Grouped(p + [r], AddToGroups(groups, r))
  {
    forall t ensures OfTitle(p + [r], t) == OfTitle(p, t) {
      OfTitleAppend(p, r, t);
    }
  }

  lemma GroupUpdate(p: seq<TradingSignal>, r: TradingSignal, groups: seq<StrategyStats>, k: nat)
    requires Grouped(p, groups) && Counted(r) && IndexOfTitle(groups, r.title.value) == Some(k)
    ensures Grouped(p + [r], AddToGroups(groups, r))
  {
    var t0 := r.title.value;
    var out := groups[k := Tally(groups[k], r)];
    assert AddToGroups(groups, r) == out;
    OfTitleAppend(p, r, t0);
    TallyMatches(groups[k], OfTitle(p, t0), r);
    forall i, j | 0 <= i < j < |out| ensures out[i].title != out[j].title {
      assert out[i].title == groups[i].title && out[j].title == groups[j].title;
    }
    forall j | 0 <= j < |out| ensures StatsMatch(out[j], OfTitle(p + [r], out[j].title)) && OfTitle(p + [r], out[j].title) != [] {
      OfTitleAppend(p, r, out[j].title);
      if j != k {
        assert out[j] == groups[j];
        assert groups[j].title != t0 by {
          if j < k { assert groups[j].title != groups[k].title; } else { assert groups[k].title != groups[j].title; }
        }
      }
    }
    forall t | OfTitle(p + [r], t) != [] ensures IndexOfTitle(out, t).Some? {
      OfTitleAppend(p, r, t);
      if t != t0 {
        var j := IndexOfTitle(groups, t).value;
        assert out[j].title == t;
      } else {
        assert out[k].title == t;
      }
    }
  }

  lemma AppendDistinct(groups: seq<StrategyStats>, g: StrategyStats)
    requires DistinctTitles(groups)
    requires forall j :: 0 <= j < |groups| ==> groups[j].title != g.title
    ensures DistinctTitles(groups + [g])
  {
    var out := groups + [g];
    forall i, j | 0 <= i < j < |out| ensures out[i].title != out[j].title {
      assert out[i] == groups[i];
      if j < |groups| {
        assert out[j] == groups[j];
      }
    }
  }

  lemma GroupCreate(p: seq<TradingSignal>, r: TradingSignal, groups: seq<StrategyStats>)
    requires Grouped(p, groups) && Counted(r) && IndexOfTitle(groups, r.title.value).None?
    ensures Grouped(p + [r], AddToGroups(groups, r))
  {
    var t0 := r.title.value;
    var out := groups + [Tally(EmptyStats(t0), r)];
    OfTitleAppend(p, r, t0);
    assert OfTitle(p, t0) == [];
    TallyMatches(EmptyStats(t0), [], r);
    forall j | 0 <= j < |out| ensures StatsMatch(out[j], OfTitle(p + [r], out[j].title)) && OfTitle(p + [r], out[j].title) != [] {
      OfTitleAppend(p, r, out[j].title);
      if j < |groups| {
        assert out[j] == groups[j] && groups[j].title != t0;
      } else {
        assert out[j] == Tally(EmptyStats(t0), r);
      }
    }
    forall j | 0 <= j < |groups| ensures groups[j].title != t0 { }
    AppendDistinct(groups, Tally(EmptyStats(t0), r));
    forall t | OfTitle(p + [r], t) != [] ensures IndexOfTitle(out, t).Some? {
      OfTitleAppend(p, r, t);
      if t != t0 {
        var j := IndexOfTitle(groups, t).value;
        assert out[j].title == t;
      } else {
        assert out[|groups|].title == t;
      }
    }
  }

  /** Each iteration of the grouping loop keeps the groups those of the records seen. */
  lemma AddToGroupsKeepsGrouped(p: seq<TradingSignal>, r: TradingSignal, groups: seq<StrategyStats>)
    requires Grouped(p, groups)
    ensures Grouped(p + [r], AddToGroups(groups, r))
  {
    if !Counted(r) {
      GroupSkip(p, r, groups);
    } else {
      match IndexOfTitle(groups, r.title.value)
      case Some(k) => GroupUpdate(p, r, groups, k);
      case None => GroupCreate(p, r, groups);
    }
  }

  /**
   * The grouping is correct against the reference: titles are distinct,
   * each group holds the count, wins, losses, total profit and summaries of
   * exactly the counted records of its title, and a title has a group iff it
   * has a counted record.
   */
  lemma {:induction false} GroupByTitleMatchesReference(signals: seq<TradingSignal>)
    ensures Grouped(signals, GroupByTitle(signals))
  {
    if signals != [] {
      var n := |signals| - 1;
      GroupByTitleMatchesReference(signals[..n]);
      AddToGroupsKeepsGrouped(signals[..n], signals[n], GroupByTitle(signals[..n]));
      assert signals[..n] + [signals[n]] == signals;
    }
  }

  // Sorting by close count, descending and stable (Python's sorted(reverse=True)).

  /** Insert `g` before the first element whose count does not exceed its own. */
  function InsertByCount(g: StrategyStats, sorted: seq<StrategyStats>): (r: seq<StrategyStats>)
    ensures |r| == |sorted| + 1
    ensures forall x :: x in r <==> x == g || x in sorted
  {
    if sorted == [] || sorted[0].closeCount <= g.closeCount then [g] + sorted
    else
      assert sorted == [sorted[0]] + sorted[1..];
      [sorted[0]] + InsertByCount(g, sorted[1..])
  }

  function SortByCloseCount(groups: seq<StrategyStats>): (r: seq<StrategyStats>)
    ensures |r| == |groups|
    ensures forall x :: x in r <==> x in groups
  {
    if groups == [] then []
    else
      assert groups == [groups[0]] + groups[1..];
      InsertByCount(groups[0], SortByCloseCount(groups[1..]))
  }

  predicate NonIncreasing(s: seq<StrategyStats>) {
    forall i, j :: 0 <= i < j < |s| ==> s[i].closeCount >= s[j].closeCount
  }

  /** The elements with close count `c`, in order. */
  function WithCount(s: seq<StrategyStats>, c: int): seq<StrategyStats> {
    if s == [] then []
    else (if s[0].closeCount == c then [s[0]] else []) + WithCount(s[1..], c)
  }

  lemma ConsSorted(h: StrategyStats, t: seq<StrategyStats>)
    requires NonIncreasing(t)
    requires forall x :: x in t ==> x.closeCount <= h.closeCount
    ensures NonIncreasing([h] + t)
  {
    var r := [h] + t;
    forall i, j | 0 <= i < j < |r| ensures r[i].closeCount >= r[j].closeCount {
      assert r[j] == t[j - 1];
      if i > 0 {
        assert r[i] == t[i - 1];
      }
    }
  }

  lemma {:induction false} InsertByCountSorted(g: StrategyStats, sorted: seq<StrategyStats>)
    requires NonIncreasing(sorted)
    ensures NonIncreasing(InsertByCount(g, sorted))
  {
    if sorted != [] && sorted[0].closeCount > g.closeCount {
      var rest := sorted[1..];
      assert NonIncreasing(rest) by {
        forall i, j | 0 <= i < j < |rest| ensures rest[i].closeCount >= rest[j].closeCount {
          assert rest[i] == sorted[i + 1] && rest[j] == sorted[j + 1];
        }
      }
      InsertByCountSorted(g, rest);
      forall x | x in InsertByCount(g, rest) ensures x.closeCount <= sorted[0].closeCount {
        if x != g {
          var k :| 0 <= k < |rest| && rest[k] == x;
          assert rest[k] == sorted[k + 1];
        }
      }
      ConsSorted(sorted[0], InsertByCount(g, rest));
    } else {
      forall x | x in sorted ensures x.closeCount <= g.closeCount {
        var k :| 0 <= k < |sorted| && sorted[k] == x;
        if k > 0 {
          assert sorted[0].closeCount >= sorted[k].closeCount;
        }
      }
      ConsSorted(g, sorted);
    }
  }

  lemma {:induction false} InsertByCountPermutes(g: StrategyStats, sorted: seq<StrategyStats>)
    ensures multiset(InsertByCount(g, sorted)) == multiset(sorted) + multiset{g}
  {
    if sorted != [] && sorted[0].closeCount > g.closeCount {
      InsertByCountPermutes(g, sorted[1..]);
      assert sorted == [sorted[0]] + sorted[1..];
    }
  }

  /** `g` lands in front of every element with its own count. */
  lemma {:induction false} InsertByCountStable(g: StrategyStats, sorted: seq<StrategyStats>, c: int)
    ensures WithCount(InsertByCount(g, sorted), c)
         == if g.closeCount == c then [g] + WithCount(sorted, c) else WithCount(sorted, c)
  {
    if sorted == [] {
    } else if sorted[0].closeCount <= g.closeCount {
      assert ([g] + sorted)[1..] == sorted;
    } else {
      var ins := InsertByCount(g, sorted[1..]);
      InsertByCountStable(g, sorted[1..], c);
      assert ([sorted[0]] + ins)[1..] == ins;
    }
  }

  lemma ConsDistinct(h: StrategyStats, t: seq<StrategyStats>)
    requires DistinctTitles(t)
    requires forall x :: x in t ==> x.title != h.title
    ensures DistinctTitles([h] + t)
  {
    var r := [h] + t;
    forall i, j | 0 <= i < j < |r| ensures r[i].title != r[j].title {
      assert r[j] == t[j - 1];
      if i > 0 {
        assert r[i] == t[i - 1];
      }
    }
  }

  lemma TailDistinct(s: seq<StrategyStats>)
    requires DistinctTitles(s) && s != []
    ensures DistinctTitles(s[1..])
    ensures forall x :: x in s[1..] ==> x.title != s[0].title
  {
    var rest := s[1..];
    forall i, j | 0 <= i < j < |rest| ensures rest[i].title != rest[j].title {
      assert rest[i] == s[i + 1] && rest[j] == s[j + 1];
    }
    forall x | x in rest ensures x.title != s[0].title {
      var k :| 0 <= k < |rest| && rest[k] == x;
      assert rest[k] == s[k + 1];
    }
  }

  lemma {:induction false} InsertByCountDistinct(g: StrategyStats, sorted: seq<StrategyStats>)
    requires DistinctTitles(sorted)
    requires forall x :: x in sorted ==> x.title != g.title
    ensures DistinctTitles(InsertByCount(g, sorted))
  {
    if sorted != [] && sorted[0].closeCount > g.closeCount {
      var rest := sorted[1..];
      TailDistinct(sorted);
      InsertByCountDistinct(g, rest);
      var ins := InsertByCount(g, rest);
      assert sorted[0] in sorted;
      ConsDistinct(sorted[0], ins);
    } else {
      ConsDistinct(g, sorted);
    }
  }

  /** Sorting yields the groups in non-increasing close count. */
  lemma {:induction false} SortByCloseCountSorted(groups: seq<StrategyStats>)
    ensures NonIncreasing(SortByCloseCount(groups))
  {
    if groups != [] {
      SortByCloseCountSorted(groups[1..]);
      InsertByCountSorted(groups[0], SortByCloseCount(groups[1..]));
    }
  }

  /** Sorting is a permutation. */
  lemma {:induction false} SortByCloseCountPermutes(groups: seq<StrategyStats>)
    ensures multiset(SortByCloseCount(groups)) == multiset(groups)
  {
    if groups != [] {
      SortByCloseCountPermutes(groups[1..]);
      InsertByCountPermutes(groups[0], SortByCloseCount(groups[1..]));
      assert groups == [groups[0]] + groups[1..];
    }
  }

  /** Sorting keeps the input order among groups with the same count. */
  lemma {:induction false} SortByCloseCountStable(groups: seq<StrategyStats>, c: int)
    ensures WithCount(SortByCloseCount(groups), c) == WithCount(groups, c)
  {
    if groups != [] {
      SortByCloseCountStable(groups[1..], c);
      InsertByCountStable(groups[0], SortByCloseCount(groups[1..]), c);
    }
  }

  /** Sorting keeps distinct titles distinct. */
  lemma {:induction false} SortByCloseCountDistinct(groups: seq<StrategyStats>)
    requires DistinctTitles(groups)
    ensures DistinctTitles(SortByCloseCount(groups))
  {
    if groups != [] {
      var rest := groups[1..];
      assert DistinctTitles(rest) by {
        forall i, j | 0 <= i < j < |rest| ensures rest[i].title != rest[j].title {
          assert rest[i] == groups[i + 1] && rest[j] == groups[j + 1];
        }
      }
      SortByCloseCountDistinct(rest);
      var sortedRest := SortByCloseCount(rest);
      forall x | x in sortedRest ensures x.title != groups[0].title {
        var m :| 0 <= m < |rest| && rest[m] == x;
        assert rest[m] == groups[m + 1];
      }
      InsertByCountDistinct(groups[0], sortedRest);
    }
  }

  /** The result of `get_closed_signals_by_timerange` on a store holding `records`. */
  function ClosedStats(records: seq<TradingSignal>, startTime: int, endTime: int): seq<StrategyStats> {
    SortByCloseCount(GroupByTitle(ClosedInWindow(records, startTime, endTime)))
  }

  /**
   * The report groups the window's closes by title: titles are distinct, a
   * title is reported iff it has a counted close, every group's counts
   * satisfy `close_count == win_count + lose_count == |records|`, its total
   * is the sum of the profits with None as 0, and the groups come in
   * non-increasing close count.
   */
  lemma ClosedStatsCorrect(records: seq<TradingSignal>, startTime: int, endTime: int)
    ensures var signals := ClosedInWindow(records, startTime, endTime);
      var stats := ClosedStats(records, startTime, endTime);
      && NonIncreasing(stats)
      && DistinctTitles(stats)
      && (forall k :: 0 <= k < |stats| ==>
            && StatsMatch(stats[k], OfTitle(signals, stats[k].title))
            && stats[k].closeCount == stats[k].winCount + stats[k].loseCount == |stats[k].records|
            && stats[k].closeCount > 0)
      && (forall t :: OfTitle(signals, t) != [] ==> exists k :: 0 <= k < |stats| && stats[k].title == t)
  {
    var signals := ClosedInWindow(records, startTime, endTime);
    var groups := GroupByTitle(signals);
    var stats := SortByCloseCount(groups);
    GroupByTitleMatchesReference(signals);
    SortByCloseCountSorted(groups);
    SortKeepsGrouped(signals, groups);
    forall t | OfTitle(signals, t) != [] ensures exists k :: 0 <= k < |stats| && stats[k].title == t {
      var k := IndexOfTitle(stats, t).value;
    }
  }

  /** Grouping says nothing about order, so reordering the groups keeps it. */
  lemma SortKeepsGrouped(signals: seq<TradingSignal>, groups: seq<StrategyStats>)
    requires Grouped(signals, groups)
    ensures Grouped(signals, SortByCloseCount(groups))
  {
    var stats := SortByCloseCount(groups);
    SortByCloseCountDistinct(groups);
    forall k | 0 <= k < |stats| ensures StatsMatch(stats[k], OfTitle(signals, stats[k].title)) && OfTitle(signals, stats[k].title) != [] {
      assert stats[k] in stats;
      var j :| 0 <= j < |groups| && groups[j] == stats[k];
    }
    forall t | OfTitle(signals, t) != [] ensures IndexOfTitle(stats, t).Some? {
      var j := IndexOfTitle(groups, t).value;
      assert groups[j] in groups;
      var k :| 0 <= k < |stats| && stats[k] == groups[j];
    }
  }

  /**
   * A single close with profit 10.5 and no outcome stored, inside a window
   * of a day either side, gives one group: one close, counted as a loss,
   * totalling 10.5.
   */
  lemma SingleCloseScenario(r: TradingSignal, now: int)
    requires r.title == Some("test_strategy") && r.isClose && r.closedAt == Some(now)
    requires r.profitPercentage == Some(10.5) && r.isProfit.None?
    ensures var stats := ClosedStats([r], now - 86400, now + 86400);
      && |stats| == 1 && stats[0].title == "test_strategy" && stats[0].totalProfit == 10.5
      && stats[0].closeCount == 1 && stats[0].winCount == 0 && stats[0].loseCount == 1
  {
    assert ClosedInWindow([r], now - 86400, now + 86400) == [r];
    assert GroupByTitle([r]) == [Tally(EmptyStats("test_strategy"), r)];
  }

  /**
   * One iteration of the grouping loop over the dictionary's values: skip a
   * record without a title, otherwise create its title's entry if missing
   * and update that entry field by field.
   */
  method CountInto(strategyStats: seq<StrategyStats>, signal: TradingSignal) returns (next: seq<StrategyStats>)
    ensures next == AddToGroups(strategyStats, signal)
  {
    next := strategyStats;
    if Counted(signal) {
      var title := signal.title.value;
      var found := IndexOfTitle(next, title);
      var k: nat;
      if found.None? {
        next := next + [EmptyStats(title)];
        k := |next| - 1;
      } else {
        k := found.value;
      }
      var stat := next[k];
      ghost var before := stat;
      stat := stat.(closeCount := stat.closeCount + 1);
      if signal.isProfit == Some(true) {
        stat := stat.(winCount := stat.winCount + 1);
      } else {
        stat := stat.(loseCount := stat.loseCount + 1);
      }
      stat := stat.(totalProfit := stat.totalProfit + ProfitOrZero(signal));
      stat := stat.(records := stat.records + [Summary(signal)]);
      assert stat == Tally(before, signal);
      next := next[k := stat];
    }
  }

  /**
   * `get_closed_signals_by_timerange` on a store holding `records`: one pass
   * over the selected records that creates or updates the statistics of each
   * record's title, then the sort by close count.
   */
  method GetClosedSignalsByTimerange(records: seq<TradingSignal>, startTime: int, endTime: int) returns (stats: seq<StrategyStats>)
    ensures stats == ClosedStats(records, startTime, endTime)
  {
    var signals := ClosedInWindow(records, startTime, endTime);
    var strategyStats: seq<StrategyStats> := [];
    for i := 0 to |signals|
      invariant strategyStats == GroupByTitle(signals[..i])
    {
      assert signals[..i + 1][..i] == signals[..i];
      strategyStats := CountInto(strategyStats, signals[i]);
    }
    assert signals[..|signals|] == signals;
    stats := SortByCloseCount(strategyStats);
  }
}
