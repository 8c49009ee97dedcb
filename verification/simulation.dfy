/** The simulation driver: the bar-by-bar fold of `BacktestEngine.simulate`
    (server/services/backtest.ts, lines 47-164). The indicator series are
    inputs, already computed from the closing prices. */
module Simulation {
  import opened Wrappers
  import opened Rules
  import opened Alignment
  import opened Ledger

  /** Every closing price is positive (zero would make the engine divide by zero). */
  predicate PositivePrices(prices: seq<Bar>) {
    forall i :: 0 <= i < |prices| ==> prices[i].close > 0.0
  }

  /** Bar timestamps strictly increase. */
  predicate Ascending(prices: seq<Bar>) {
    forall i, j :: 0 <= i < j < |prices| ==> prices[i].time < prices[j].time
  }

  /** What `simulate` returns. */
  datatype Outcome = Outcome(trades: seq<Trade>, equityCurve: seq<EquityPoint>, finalCapital: real)

  /** Number of equity samples a series of `n` bars yields: one per bar from `StartIdx`. */
  function SampleCount(n: nat): nat {
    if n <= StartIdx then 0 else n - StartIdx
  }

  /** Fills and open positions so far, weighted so that each bar adds at most one:
      a trade took an entry bar and an exit bar, an open position its entry bar. */
  function Transitions(l: Ledger): nat {
    2 * |l.trades| + (if l.position.Some? then 1 else 0)
  }

  /** The readings exit conditions consult at bar `i` for position `p`. */
  function ExitContextAt(ind: Indicators, i: int, close: real, p: Position): (ctx: ExitContext)
    requires p.entryPrice > 0.0
    ensures ctx.rsi == RsiAt(ind, i)
    ensures p.entryPrice * (1.0 + ctx.profitPct) == close
  {
    ExitContext(RsiAt(ind, i), (close - p.entryPrice) / p.entryPrice)
  }

  /** A lone `Profit` exit sells exactly when the close has risen to at least
      `1 + v` times the entry price. */
  lemma ProfitExitAt(doc: RuleDocument, ind: Indicators, i: int, close: real, p: Position, v: real)
    requires p.entryPrice > 0.0 && doc.exit.conditions == [Profit(v)]
    ensures ShouldSell(doc, ExitContextAt(ind, i, close, p)) <==> close >= p.entryPrice * (1.0 + v)
  {
    var ctx := ExitContextAt(ind, i, close, p);
    assert ExitRules(doc) == [Profit(v)];
    assert p.entryPrice * (1.0 + ctx.profitPct) - p.entryPrice * (1.0 + v)
           == p.entryPrice * (ctx.profitPct - v);
    if ctx.profitPct >= v {
      assert p.entryPrice * (ctx.profitPct - v) >= 0.0;
    } else {
      assert p.entryPrice * (v - ctx.profitPct) > 0.0;
    }
  }

  /** A lone `Loss` exit sells exactly when the close has fallen to at most
      `1 - v` times the entry price. */
  lemma LossExitAt(doc: RuleDocument, ind: Indicators, i: int, close: real, p: Position, v: real)
    requires p.entryPrice > 0.0 && doc.exit.conditions == [Loss(v)]
    ensures ShouldSell(doc, ExitContextAt(ind, i, close, p)) <==> close <= p.entryPrice * (1.0 - v)
  {
    var ctx := ExitContextAt(ind, i, close, p);
    assert ExitRules(doc) == [Loss(v)];
    assert p.entryPrice * (1.0 + ctx.profitPct) - p.entryPrice * (1.0 - v)
           == p.entryPrice * (ctx.profitPct + v);
    if ctx.profitPct <= -v {
      assert p.entryPrice * (-v - ctx.profitPct) >= 0.0;
    } else {
      assert p.entryPrice * (ctx.profitPct + v) > 0.0;
    }
  }

  /** A lone RSI exit sells exactly when the reading 14 bars back (50 when
      absent or 0) exceeds its value, whatever its comparator. */
  lemma RsiExitAt(doc: RuleDocument, ind: Indicators, i: int, close: real, p: Position, cmp: Comparator, v: real)
    requires p.entryPrice > 0.0 && doc.exit.conditions == [RSI(cmp, v)]
    ensures ShouldSell(doc, ExitContextAt(ind, i, close, p)) <==> RsiAt(ind, i) > v
  {
    assert ExitRules(doc) == [RSI(cmp, v)];
  }

  /** One iteration of the bar loop at bar `i`: sample equity first, then let
      a flat ledger evaluate the entry rules or a long one the exit rules. */
  function Step(doc: RuleDocument, ind: Indicators, bar: Bar, i: int, l: Ledger): (r: Ledger)
    requires Valid(l) && bar.close > 0.0
    ensures Valid(r)
    ensures r.equityCurve == l.equityCurve + [EquityPoint(bar.time, MarkToMarket(l, bar.close))]
    // A flat bar may only enter, and enters exactly when the entry rules hold.
    ensures l.position.None? ==> r.trades == l.trades
    ensures l.position.None? ==> (r.position.Some? <==> ShouldBuy(doc, EntryContextAt(ind, i)))
    // An entry fills at this bar's close plus slippage, with all capital less commission.
    ensures l.position.None? && r.position.Some? ==>
      && r.position.value.entryTime == bar.time
      && r.position.value.entryPrice == bar.close * (1.0 + Slippage)
      && CostBasis(r.position.value) == l.capital * (1.0 - Commission)
      && r.capital == 0.0
    // A long bar may only exit, and exits exactly when the exit rules hold.
    ensures l.position.Some? ==> r.position.None? || r.position == l.position
    ensures l.position.Some? ==>
      (r.position.None? <==> ShouldSell(doc, ExitContextAt(ind, i, bar.close, l.position.value)))
    // An exit fills at this bar's close less slippage, the proceeds become
    // capital, and exactly one trade is appended for the round trip.
    ensures l.position.Some? && r.position.None? ==>
      && |r.trades| == |l.trades| + 1 && r.trades[..|l.trades|] == l.trades
      && var p, t := l.position.value, r.trades[|l.trades|];
      && t.entryTime == p.entryTime && t.exitTime == bar.time
      && r.capital == Proceeds(p, bar.close)
      && t.entryPrice == p.entryPrice
      && t.exitPrice == bar.close * (1.0 - Slippage)
      && t.profit == r.capital - CostBasis(p)
      && t.returnPct * CostBasis(p) == t.profit * 100.0
    // Without a transition only the equity curve grows.
    ensures r.position == l.position ==> r.capital == l.capital && r.trades == l.trades
    ensures Transitions(r) <= Transitions(l) + 1
  {
    var sampled := Sample(l, bar);
    match l.position
    case None =>
      if ShouldBuy(doc, EntryContextAt(ind, i)) then Buy(sampled, bar) else sampled
    case Some(p) =>
      if ShouldSell(doc, ExitContextAt(ind, i, bar.close, p)) then Sell(sampled, bar) else sampled
  }

  /** The ledger after the loop has visited bars `StartIdx .. k - 1`. */
  function Replay(doc: RuleDocument, ind: Indicators, prices: seq<Bar>, initialCapital: real, k: nat): (l: Ledger)
    requires k <= |prices| && PositivePrices(prices) && initialCapital > 0.0
    ensures Valid(l)
    ensures |l.equityCurve| == SampleCount(k)
    ensures Transitions(l) <= SampleCount(k)
    decreases k, 1
  {
    if k <= StartIdx then Ledger(initialCapital, None, [], [])
    else Visit(doc, ind, prices, initialCapital, k)
  }

  /** The visit of bar `k - 1`: one `Step` on the ledger the earlier bars left. */
  function Visit(doc: RuleDocument, ind: Indicators, prices: seq<Bar>, initialCapital: real, k: nat): (l: Ledger)
    requires StartIdx < k <= |prices| && PositivePrices(prices) && initialCapital > 0.0
    ensures Valid(l)
    ensures |l.equityCurve| == SampleCount(k)
    ensures Transitions(l) <= SampleCount(k)
    decreases k, 0
  {
    Step(doc, ind, prices[k - 1], k - 1, Replay(doc, ind, prices, initialCapital, k - 1))
  }

  /** The whole run: the loop over every bar, then the forced close of a
      position still open, which changes capital but writes no trade. */
  function Simulate(doc: RuleDocument, ind: Indicators, prices: seq<Bar>, initialCapital: real): (o: Outcome)
    requires PositivePrices(prices) && initialCapital > 0.0
    ensures |o.equityCurve| == SampleCount(|prices|)
    ensures 2 * |o.trades| <= SampleCount(|prices|)
    ensures o.finalCapital > 0.0
    ensures var l := Replay(doc, ind, prices, initialCapital, |prices|);
      && o.trades == l.trades && o.equityCurve == l.equityCurve
      && (l.position.None? ==> o.finalCapital == l.capital)
      && (l.position.Some? ==>
            o.finalCapital == l.position.value.size * prices[|prices| - 1].close * (1.0 - Commission))
  {
    var l := Replay(doc, ind, prices, initialCapital, |prices|);
    // The last close is read only when a position is open, which needs a visited bar.
    var lastClose := if |prices| > 0 then prices[|prices| - 1].close else 1.0;
    Outcome(l.trades, l.equityCurve, Liquidate(l, lastClose))
  }

  /** Visiting one bar appends one sample and keeps the earlier ones. */
  lemma CurveGrowsByOneBar(doc: RuleDocument, ind: Indicators, prices: seq<Bar>, c0: real, m: nat)
    requires StartIdx < m <= |prices| && PositivePrices(prices) && c0 > 0.0
    ensures var l := Replay(doc, ind, prices, c0, m - 1);
      var r := Replay(doc, ind, prices, c0, m);
      |r.equityCurve| == |l.equityCurve| + 1 && l.equityCurve <= r.equityCurve
  {
  }

  /** The sample bar `i` appends is its time and the equity of the ledger the
      earlier bars left, marked at the bar's close. */
  lemma SampleOfBar(doc: RuleDocument, ind: Indicators, prices: seq<Bar>, c0: real, i: nat)
    requires StartIdx <= i < |prices| && PositivePrices(prices) && c0 > 0.0
    ensures var l := Replay(doc, ind, prices, c0, i);
      Replay(doc, ind, prices, c0, i + 1).equityCurve[i - StartIdx]
        == EquityPoint(prices[i].time, MarkToMarket(l, prices[i].close))
  {
  }

  /** The equity curve only grows: earlier ledgers' curves are prefixes of later ones. */
  lemma CurveGrowsByPrefix(doc: RuleDocument, ind: Indicators, prices: seq<Bar>, c0: real, k: nat, m: nat)
    requires k <= m <= |prices| && PositivePrices(prices) && c0 > 0.0
    ensures Replay(doc, ind, prices, c0, k).equityCurve <= Replay(doc, ind, prices, c0, m).equityCurve
  {
    var curve := (j: nat) => Replay(doc, ind, prices, c0, if j <= |prices| then j else |prices|).equityCurve;
    forall j | k < j <= m
      ensures curve(j - 1) <= curve(j)
    {
      assert curve(j - 1) == Replay(doc, ind, prices, c0, j - 1).equityCurve;
      assert curve(j) == Replay(doc, ind, prices, c0, j).equityCurve;
      if j > StartIdx {
        CurveGrowsByOneBar(doc, ind, prices, c0, j);
      } else {
        assert Replay(doc, ind, prices, c0, j).equityCurve == [];
      }
    }
    PrefixChain(curve, k, m);
  }

  /** A family of sequences each a prefix of the next is a chain of prefixes. */
  lemma {:induction false} PrefixChain<T>(f: nat -> seq<T>, k: nat, m: nat)
    requires k <= m
    requires forall j :: k < j <= m ==> f(j - 1) <= f(j)
    ensures f(k) <= f(m)
    decreases m - k
  {
    if k < m {
      PrefixChain(f, k, m - 1);
      PrefixOfPrefix(f(k), f(m - 1), f(m));
    }
  }

  /** A prefix agrees with the sequence it starts. */
  lemma PrefixAgrees<T>(a: seq<T>, b: seq<T>, j: nat)
    requires a <= b && j < |a|
    ensures b[j] == a[j]
  {
  }

  /** Prefixes compose. */
  lemma PrefixOfPrefix<T>(a: seq<T>, b: seq<T>, c: seq<T>)
    requires a <= b && b <= c
    ensures a <= c
  {
  }

  /** Later bars leave the sample of bar `i` where bar `i` put it. */
  lemma SampleStays(doc: RuleDocument, ind: Indicators, prices: seq<Bar>, c0: real, i: nat, m: nat)
    requires PositivePrices(prices) && c0 > 0.0
    requires StartIdx <= i < m <= |prices|
    ensures Replay(doc, ind, prices, c0, m).equityCurve[i - StartIdx]
            == Replay(doc, ind, prices, c0, i + 1).equityCurve[i - StartIdx]
  {
    CurveGrowsByPrefix(doc, ind, prices, c0, i + 1, m);
    PrefixAgrees(Replay(doc, ind, prices, c0, i + 1).equityCurve,
                 Replay(doc, ind, prices, c0, m).equityCurve, i - StartIdx);
  }

  /** The sample for bar `i` sits at position `i - StartIdx`, carries the bar's
      time, and is the ledger's equity at the START of that bar, before the bar's
      entry or exit decision. */
  lemma SampleBeforeDecision(doc: RuleDocument, ind: Indicators, prices: seq<Bar>, c0: real, i: nat)
    requires PositivePrices(prices) && c0 > 0.0
    requires StartIdx <= i < |prices|
    ensures var curve := Simulate(doc, ind, prices, c0).equityCurve;
      var before := Replay(doc, ind, prices, c0, i);
      && curve[i - StartIdx].time == prices[i].time
      && curve[i - StartIdx].equity == MarkToMarket(before, prices[i].close)
      && (before.position.None? ==> curve[i - StartIdx].equity == before.capital)
  {
    SampleStays(doc, ind, prices, c0, i, |prices|);
    SampleOfBar(doc, ind, prices, c0, i);
  }

  /** The first sample, when there is one, is the initial capital. */
  lemma FirstSampleIsInitialCapital(doc: RuleDocument, ind: Indicators, prices: seq<Bar>, c0: real)
    requires PositivePrices(prices) && c0 > 0.0 && |prices| > StartIdx
    ensures Simulate(doc, ind, prices, c0).equityCurve[0].equity == c0
  {
    SampleBeforeDecision(doc, ind, prices, c0, StartIdx);
  }

  /** The invariant behind trade ordering, after the loop has visited bars up to `k - 1`. */
  ghost predicate OrderedUpTo(l: Ledger, prices: seq<Bar>, k: nat)
    requires k <= |prices|
  {
    var ts := l.trades;
    && (forall j :: 0 <= j < |ts| ==> ts[j].entryTime < ts[j].exitTime)
    && (forall j :: 0 < j < |ts| ==> ts[j - 1].exitTime < ts[j].entryTime)
    && (|ts| > 0 ==> k > 0 && ts[|ts| - 1].exitTime <= prices[k - 1].time)
    && (l.position.Some? ==>
          && k > 0 && l.position.value.entryTime <= prices[k - 1].time
          && (|ts| > 0 ==> ts[|ts| - 1].exitTime < l.position.value.entryTime))
  }

  /** One bar keeps the ordering invariant, given only what `Step` promises
      about the ledgers before (`l`) and after (`r`) bar `k - 1`. */
  lemma OrderedAfterBar(l: Ledger, r: Ledger, prices: seq<Bar>, k: nat)
    requires 0 < k <= |prices| && Ascending(prices)
    requires OrderedUpTo(l, prices, k - 1)
    requires l.position.None? ==> r.trades == l.trades
    requires l.position.None? && r.position.Some? ==> r.position.value.entryTime == prices[k - 1].time
    requires l.position.Some? ==> r.position.None? || r.position == l.position
    requires l.position.Some? && r.position.None? ==>
      && |r.trades| == |l.trades| + 1 && r.trades[..|l.trades|] == l.trades
      && r.trades[|l.trades|].entryTime == l.position.value.entryTime
      && r.trades[|l.trades|].exitTime == prices[k - 1].time
    requires r.position == l.position ==> r.trades == l.trades
    ensures OrderedUpTo(r, prices, k)
  {
  }

  lemma {:induction false} ReplayOrdered(doc: RuleDocument, ind: Indicators, prices: seq<Bar>, c0: real, k: nat)
    requires k <= |prices| && PositivePrices(prices) && c0 > 0.0 && Ascending(prices)
    ensures OrderedUpTo(Replay(doc, ind, prices, c0, k), prices, k)
    decreases k
  {
    if k > StartIdx {
      ReplayOrdered(doc, ind, prices, c0, k - 1);
      var l := Replay(doc, ind, prices, c0, k - 1);
      var r := Replay(doc, ind, prices, c0, k);
      assert r == Visit(doc, ind, prices, c0, k);
      assert r == Step(doc, ind, prices[k - 1], k - 1, l);
      OrderedAfterBar(l, r, prices, k);
    }
  }

  /** With strictly increasing bar times, every trade exits after it enters,
      and each trade enters after the previous one exited: trades never overlap
      and are logged in time order. */
  lemma TradesInTimeOrder(doc: RuleDocument, ind: Indicators, prices: seq<Bar>, c0: real)
    requires PositivePrices(prices) && c0 > 0.0 && Ascending(prices)
    ensures var ts := Simulate(doc, ind, prices, c0).trades;
      && (forall j :: 0 <= j < |ts| ==> ts[j].entryTime < ts[j].exitTime)
      && (forall j :: 0 < j < |ts| ==> ts[j - 1].exitTime < ts[j].entryTime)
  {
    ReplayOrdered(doc, ind, prices, c0, |prices|);
  }

  /** If the entry rules hold at no visited bar, nothing is ever bought: no
      trades, and the final capital is the initial capital. */
  lemma {:induction false} NoEntryNoTrades(doc: RuleDocument, ind: Indicators, prices: seq<Bar>, c0: real, k: nat)
    requires k <= |prices| && PositivePrices(prices) && c0 > 0.0
    requires forall i :: StartIdx <= i < k ==> !ShouldBuy(doc, EntryContextAt(ind, i))
    ensures var l := Replay(doc, ind, prices, c0, k);
      l.position.None? && l.trades == [] && l.capital == c0
    decreases k
  {
    if k > StartIdx {
      NoEntryNoTrades(doc, ind, prices, c0, k - 1);
    }
  }

  /** Under a document whose exit list is empty and whose exit logic is not OR,
      the default bracket never fires, so a run never records a trade. */
  lemma {:induction false} DefaultExitUnderAndNeverTrades(doc: RuleDocument, ind: Indicators, prices: seq<Bar>, c0: real, k: nat)
    requires k <= |prices| && PositivePrices(prices) && c0 > 0.0
    requires |doc.exit.conditions| == 0 && !IsOr(doc.exit.logic)
    ensures Replay(doc, ind, prices, c0, k).trades == []
    decreases k
  {
    if k > StartIdx {
      DefaultExitUnderAndNeverTrades(doc, ind, prices, c0, k - 1);
      var l := Replay(doc, ind, prices, c0, k - 1);
      var r := Replay(doc, ind, prices, c0, k);
      assert r == Visit(doc, ind, prices, c0, k);
      assert r == Step(doc, ind, prices[k - 1], k - 1, l);
      if l.position.Some? {
        DefaultExitUnderAndNeverFires(doc, ExitContextAt(ind, k - 1, prices[k - 1].close, l.position.value));
      }
    }
  }
}
