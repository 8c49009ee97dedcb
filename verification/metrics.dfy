/** The metrics calculator and the `run` entry point: summary statistics of
    a completed simulation (server/services/backtest.ts, lines 8-45 and 166-175). */
module Metrics {
  import opened Wrappers
  import opened Rules
  import opened Alignment
  import opened Ledger
  import opened Simulation

  const NoDataMessage: string := "No historical data available"

  /** Profit factor reported when no trade lost. */
  const ProfitFactorSentinel: real := 999.0

  /** A JavaScript number that may not be finite. */
  datatype Float = Finite(value: real) | Infinity | NaN

  /** Trades with a positive profit. */
  function CountWins(ts: seq<Trade>): (n: nat)
    ensures n <= |ts|
  {
    if |ts| == 0 then 0 else (if ts[0].profit > 0.0 then 1 else 0) + CountWins(ts[1..])
  }

  /** Trades with a profit of at most zero: break-even trades count as losses. */
  function CountLosses(ts: seq<Trade>): (n: nat)
    ensures n <= |ts|
  {
    if |ts| == 0 then 0 else (if ts[0].profit <= 0.0 then 1 else 0) + CountLosses(ts[1..])
  }

  /** Sum of the winning trades' profits. */
  function GrossProfit(ts: seq<Trade>): (g: real)
    ensures g >= 0.0
    ensures g > 0.0 <==> CountWins(ts) > 0
  {
    if |ts| == 0 then 0.0 else (if ts[0].profit > 0.0 then ts[0].profit else 0.0) + GrossProfit(ts[1..])
  }

  /** Sum of the losing trades' profits. */
  function GrossLoss(ts: seq<Trade>): (g: real)
    ensures g <= 0.0
  {
    if |ts| == 0 then 0.0 else (if ts[0].profit <= 0.0 then ts[0].profit else 0.0) + GrossLoss(ts[1..])
  }

  /** Every trade is a win or a loss, never both. */
  lemma {:induction false} WinsAndLossesPartition(ts: seq<Trade>)
    ensures CountWins(ts) + CountLosses(ts) == |ts|
  {
    if |ts| > 0 {
      WinsAndLossesPartition(ts[1..]);
    }
  }

  /** Percentage of winning trades; 0 when there are no trades. */
  function WinRate(ts: seq<Trade>): (rate: real)
    ensures |ts| == 0 ==> rate == 0.0
    ensures 0.0 <= rate <= 100.0
    ensures |ts| > 0 ==> rate * (|ts| as real) == (CountWins(ts) as real) * 100.0
  {
    if |ts| > 0 then (CountWins(ts) as real) / (|ts| as real) * 100.0 else 0.0
  }

  function Abs(x: real): real {
    if x < 0.0 then -x else x
  }

  /** Gross profit over the magnitude of gross loss; 999 when no trade lost.
      When every losing trade broke exactly even the division is by zero and
      JavaScript yields Infinity (some win) or NaN (no win). */
  function ProfitFactor(ts: seq<Trade>): (pf: Float)
    ensures CountLosses(ts) == 0 ==> pf == Finite(ProfitFactorSentinel)
    ensures CountLosses(ts) > 0 && GrossLoss(ts) < 0.0 ==>
      pf.Finite? && pf.value >= 0.0 && pf.value * -GrossLoss(ts) == GrossProfit(ts)
    ensures pf.Infinity? <==> CountLosses(ts) > 0 && GrossLoss(ts) == 0.0 && CountWins(ts) > 0
    ensures pf.NaN? <==> CountLosses(ts) > 0 && GrossLoss(ts) == 0.0 && CountWins(ts) == 0
  {
    if CountLosses(ts) > 0 then
      var loss := Abs(GrossLoss(ts));
      if loss != 0.0 then Finite(GrossProfit(ts) / loss)
      else if GrossProfit(ts) > 0.0 then Infinity
      else NaN
    else Finite(ProfitFactorSentinel)
  }

  /** Percentage change from the initial to the final capital. */
  function TotalReturn(finalCapital: real, initialCapital: real): (pct: real)
    requires initialCapital > 0.0
    ensures initialCapital + initialCapital * pct / 100.0 == finalCapital
    ensures pct > 0.0 <==> finalCapital > initialCapital
    ensures pct == 0.0 <==> finalCapital == initialCapital
  {
    ((finalCapital - initialCapital) / initialCapital) * 100.0
  }

  /** The running peak: the largest of the first `i + 1` samples. */
  function PeakUpTo(e: seq<real>, i: nat): (peak: real)
    requires i < |e|
    ensures forall j :: 0 <= j <= i ==> e[j] <= peak
    ensures exists j :: 0 <= j <= i && e[j] == peak
  {
    if i == 0 then e[0]
    else
      var prev := PeakUpTo(e, i - 1);
      if e[i] > prev then e[i] else prev
  }

  /** How far `value` sits below `peak`, in percent of `peak`. */
  function Drawdown(peak: real, value: real): real
    requires peak != 0.0
  {
    (peak - value) / peak * 100.0
  }

  /** Drawdown at sample `i` from the running peak. */
  function DrawdownAt(e: seq<real>, i: nat): real
    requires i < |e| && e[0] > 0.0
  {
    Drawdown(PeakUpTo(e, i), e[i])
  }

  /** The drawdowns of samples `k` onwards, in order. */
  function DrawdownsFrom(e: seq<real>, k: nat): (ds: seq<real>)
    requires k <= |e| && (|e| > 0 ==> e[0] > 0.0)
    ensures |ds| == |e| - k
    decreases |e| - k
  {
    if k == |e| then [] else [DrawdownAt(e, k)] + DrawdownsFrom(e, k + 1)
  }

  /** Entry `j - k` of the suffix from `k` is the drawdown at sample `j`. */
  lemma {:induction false} DrawdownsFromIndex(e: seq<real>, k: nat, j: nat)
    requires k <= j < |e| && e[0] > 0.0
    ensures DrawdownsFrom(e, k)[j - k] == DrawdownAt(e, j)
    decreases j - k
  {
    if j > k {
      DrawdownsFromIndex(e, k + 1, j);
    }
  }

  /** The drawdown at every sample. */
  function Drawdowns(e: seq<real>): (ds: seq<real>)
    requires |e| > 0 ==> e[0] > 0.0
    ensures |ds| == |e|
  {
    DrawdownsFrom(e, 0)
  }

  /** `m` is the largest of the first `n` values, and 0 when none is
      positive. */
  ghost predicate IsMaxOf(ds: seq<real>, n: nat, m: real)
    requires n <= |ds|
  {
    && 0.0 <= m
    && (forall i :: 0 <= i < n ==> ds[i] <= m)
    && (m == 0.0 || exists i :: 0 <= i < n && m == ds[i])
  }

  /** `dd` is the largest drawdown along the whole curve. */
  ghost predicate IsMaxDrawdown(e: seq<real>, dd: real)
    requires |e| > 0 ==> e[0] > 0.0
  {
    IsMaxOf(Drawdowns(e), |e|, dd)
  }

  /** The running maximum after `n` values: starts at 0 and takes each value
      that exceeds it. */
  function RunningMax(ds: seq<real>, n: nat): real
    requires n <= |ds|
  {
    if n == 0 then 0.0
    else
      var prev := RunningMax(ds, n - 1);
      if ds[n - 1] > prev then ds[n - 1] else prev
  }

  /** The running maximum is the largest value so far. */
  lemma {:induction false} RunningMaxIsMax(ds: seq<real>, n: nat)
    requires n <= |ds|
    ensures IsMaxOf(ds, n, RunningMax(ds, n))
  {
    if n > 0 {
      RunningMaxIsMax(ds, n - 1);
    }
  }

  /** The drawdown scan: track the peak (the first sample always becomes the
      peak, as it exceeds the initial -Infinity) and keep the largest drawdown,
      starting from 0. */
  method MaxDrawdown(e: seq<real>) returns (maxDd: real)
    requires |e| > 0 ==> e[0] > 0.0
    ensures IsMaxDrawdown(e, maxDd)
  {
    ghost var ds := Drawdowns(e);
    maxDd := 0.0;
    var peak := 0.0;
    var i := 0;
    while i < |e|
      invariant 0 <= i <= |e|
      invariant i > 0 ==> peak == PeakUpTo(e, i - 1)
      invariant maxDd == RunningMax(ds, i)
    {
      if i == 0 || e[i] > peak {
        peak := e[i];
      }
      assert peak == PeakUpTo(e, i);
      var dd := Drawdown(peak, e[i]);
      assert dd == ds[i] by { DrawdownsFromIndex(e, 0, i); }
      if dd > maxDd {
        maxDd := dd;
      }
      i := i + 1;
    }
    RunningMaxIsMax(ds, |e|);
  }

  /** On a curve whose samples are never negative, no drawdown exceeds 100%. */
  lemma DrawdownAtMostHundred(e: seq<real>, dd: real)
    requires |e| > 0 && e[0] > 0.0
    requires forall i :: 0 <= i < |e| ==> e[i] >= 0.0
    requires IsMaxDrawdown(e, dd)
    ensures dd <= 100.0
  {
    if dd != 0.0 {
      var i :| 0 <= i < |e| && dd == Drawdowns(e)[i];
      DrawdownsFromIndex(e, 0, i);
      DrawdownOfNonNegativeSample(e, i);
    }
  }

  lemma DrawdownOfNonNegativeSample(e: seq<real>, i: nat)
    requires i < |e| && e[0] > 0.0 && e[i] >= 0.0
    ensures DrawdownAt(e, i) <= 100.0
  {
    var peak := PeakUpTo(e, i);
    assert peak > 0.0 by { assert peak >= e[0]; }
    var ratio := (peak - e[i]) / peak;
    assert ratio * peak == peak - e[i];
    assert peak - e[i] <= peak;
    assert ratio <= 1.0;
    assert DrawdownAt(e, i) == ratio * 100.0;
  }

  /** The worked example: samples 100, 110, 90, 120 have a maximum drawdown of
      (110 - 90) / 110, about 18.18%. */
  lemma DrawdownScenario(dd: real)
    requires IsMaxDrawdown([100.0, 110.0, 90.0, 120.0], dd)
    ensures dd == 2000.0 / 110.0
  {
    var e := [100.0, 110.0, 90.0, 120.0];
    assert PeakUpTo(e, 0) == 100.0;
    assert PeakUpTo(e, 1) == 110.0;
    assert PeakUpTo(e, 2) == 110.0;
    assert PeakUpTo(e, 3) == 120.0;
    assert Drawdowns(e)[0] == 0.0;
    assert Drawdowns(e)[1] == 0.0;
    assert Drawdowns(e)[2] == 2000.0 / 110.0;
    assert Drawdowns(e)[3] == 0.0;
  }

  /** While long the sample is only the unrealised profit, so it can go
      negative, and then a drawdown exceeds 100%: after a peak of 100, a
      sample of -5 is a drawdown of 105%. */
  lemma DrawdownCanExceedHundred(dd: real)
    requires IsMaxDrawdown([100.0, -5.0], dd)
    ensures dd == 105.0
  {
    var e := [100.0, -5.0];
    assert PeakUpTo(e, 0) == 100.0;
    assert PeakUpTo(e, 1) == 100.0;
    assert Drawdowns(e)[0] == 0.0;
    assert Drawdowns(e)[1] == 105.0;
  }

  // ---- Sharpe ratio ----

  /** No sample but the last is zero, so every per-bar return is finite. */
  predicate NoZeroPrior(e: seq<real>) {
    forall i :: 0 <= i < |e| - 1 ==> e[i] != 0.0
  }

  /** Per-bar returns of the equity curve. */
  function Returns(e: seq<real>): (rs: seq<real>)
    requires |e| >= 1 && NoZeroPrior(e)
    ensures |rs| == |e| - 1
    ensures forall i :: 0 <= i < |rs| ==> e[i + 1] == e[i] * (1.0 + rs[i])
  {
    seq(|e| - 1, i requires 0 <= i < |e| - 1 => (e[i + 1] - e[i]) / e[i])
  }

  function Sum(xs: seq<real>): real {
    if |xs| == 0 then 0.0 else xs[0] + Sum(xs[1..])
  }

  /** `a * b`; equal factors give a square, which is never negative and is
      positive unless the factor is zero. Squares are written `Product(d, d)`:
      stated over two factors, the sign facts are ones the verifier can prove,
      where it fails on a product of a term with itself. */
  function Product(a: real, b: real): (r: real)
    ensures a == b ==> r >= 0.0
    ensures a == b && a != 0.0 ==> r > 0.0
  {
    if a == b && a < 0.0 then assert a * b == (-a) * (-b); a * b else a * b
  }

  /** Sum of squared deviations from `m`: `Math.pow(x - m, 2)` summed over the values. */
  function SquaredDeviation(xs: seq<real>, m: real): (s: real)
    ensures s >= 0.0
  {
    if |xs| == 0 then 0.0
    else Product(xs[0] - m, xs[0] - m) + SquaredDeviation(xs[1..], m)
  }

  /** Values that all equal `m` have no squared deviation from it. */
  lemma {:induction false} SquaredDeviationOfConstant(xs: seq<real>, m: real)
    requires forall i :: 0 <= i < |xs| ==> xs[i] == m
    ensures SquaredDeviation(xs, m) == 0.0
  {
    if |xs| > 0 {
      SquaredDeviationOfConstant(xs[1..], m);
      assert xs[0] - m == 0.0;
    }
  }

  /** One value other than `m` makes the squared deviation from `m` positive. */
  lemma {:induction false} DeviationPositive(xs: seq<real>, m: real, i: nat)
    requires i < |xs| && xs[i] != m
    ensures SquaredDeviation(xs, m) > 0.0
  {
    if i > 0 {
      assert xs[1..][i - 1] == xs[i];
      DeviationPositive(xs[1..], m, i - 1);
    }
  }

  /** The squared deviation from `m` vanishes exactly when every value equals `m`. */
  lemma ZeroDeviationIsConstant(xs: seq<real>, m: real)
    ensures SquaredDeviation(xs, m) == 0.0 <==> forall i :: 0 <= i < |xs| ==> xs[i] == m
  {
    if forall i :: 0 <= i < |xs| ==> xs[i] == m {
      SquaredDeviationOfConstant(xs, m);
    } else {
      var i :| 0 <= i < |xs| && xs[i] != m;
      DeviationPositive(xs, m, i);
    }
  }

  lemma {:induction false} SumOfConstant(xs: seq<real>, c: real)
    requires forall i :: 0 <= i < |xs| ==> xs[i] == c
    ensures Sum(xs) == (|xs| as real) * c
  {
    if |xs| > 0 {
      SumOfConstant(xs[1..], c);
    }
  }

  lemma DivideBack(s: real, a: real, n: real)
    requires n > 0.0 && s == n * a
    ensures s / n == a
  {
  }

  /** The mean of values that all equal the first is the first. */
  lemma MeanOfConstant(xs: seq<real>)
    requires |xs| > 0
    ensures (forall i :: 0 <= i < |xs| ==> xs[i] == xs[0]) ==> Sum(xs) / (|xs| as real) == xs[0]
  {
    if forall i :: 0 <= i < |xs| ==> xs[i] == xs[0] {
      SumOfConstant(xs, xs[0]);
      DivideBack(Sum(xs), xs[0], |xs| as real);
    }
  }

  /** The Sharpe ratio, up to the square roots: `SharpeOf(mean, variance)`
      stands for `mean / sqrt(variance) * sqrt(252)`. */
  datatype SharpeRatio = SharpeZero | SharpeOf(mean: real, variance: real) | SharpeNaN

  /** Sharpe ratio of an equity curve: 0 with fewer than two samples or zero
      variance; NaN when a return divides by a zero sample. The variance is
      zero exactly when every per-bar return is the same. */
  function Sharpe(e: seq<real>): (r: SharpeRatio)
    ensures |e| < 2 ==> r == SharpeZero
    ensures r == SharpeNaN <==> |e| >= 2 && !NoZeroPrior(e)
    ensures |e| >= 2 && NoZeroPrior(e) ==>
      (r == SharpeZero <==> forall i :: 0 <= i < |e| - 1 ==> Returns(e)[i] == Returns(e)[0])
    ensures r.SharpeOf? ==> r.variance > 0.0
  {
    if |e| < 2 then SharpeZero
    else if !NoZeroPrior(e) then SharpeNaN
    else
      var rs := Returns(e);
      var n := |rs| as real;
      var mean := Sum(rs) / n;
      var sq := SquaredDeviation(rs, mean);
      var variance := sq / n;
      ZeroDeviationIsConstant(rs, mean);
      MeanOfConstant(rs);
      assert variance == 0.0 <==> sq == 0.0;
      if variance == 0.0 then SharpeZero else SharpeOf(mean, variance)
  }

  /** A flat equity curve has a Sharpe ratio of 0. */
  lemma FlatCurveHasZeroSharpe(e: seq<real>)
    requires |e| >= 2 && e[0] != 0.0
    requires forall i :: 0 <= i < |e| ==> e[i] == e[0]
    ensures Sharpe(e) == SharpeZero
  {
    var rs := Returns(e);
    forall i | 0 <= i < |rs| ensures rs[i] == 0.0 {
      assert e[i + 1] == e[i] * (1.0 + rs[i]);
    }
  }

  // ---- run ----

  datatype Metrics = Metrics(
    totalReturn: real,
    sharpeRatio: SharpeRatio,
    maxDrawdown: real,
    winRate: real,
    profitFactor: Float,
    tradesCount: nat)

  /** A completed backtest. */
  datatype Report = Report(metrics: Metrics, equityCurve: seq<EquityPoint>, trades: seq<Trade>)

  /** The equity values of a curve, in order. */
  function Equities(curve: seq<EquityPoint>): seq<real> {
    seq(|curve|, i requires 0 <= i < |curve| => curve[i].equity)
  }

  /** The metrics of a simulation outcome whose curve, if any, starts positive. */
  method Summarise(o: Outcome, initialCapital: real) returns (m: Metrics)
    requires initialCapital > 0.0
    requires |o.equityCurve| > 0 ==> o.equityCurve[0].equity > 0.0
    ensures m.tradesCount == |o.trades|
    ensures m.totalReturn == TotalReturn(o.finalCapital, initialCapital)
    ensures initialCapital + initialCapital * m.totalReturn / 100.0 == o.finalCapital
    ensures m.winRate == WinRate(o.trades) && m.profitFactor == ProfitFactor(o.trades)
    ensures 0.0 <= m.winRate <= 100.0 && (|o.trades| == 0 ==> m.winRate == 0.0)
    ensures CountLosses(o.trades) == 0 ==> m.profitFactor == Finite(ProfitFactorSentinel)
    ensures IsMaxDrawdown(Equities(o.equityCurve), m.maxDrawdown)
    ensures m.sharpeRatio == Sharpe(Equities(o.equityCurve))
  {
    var e := Equities(o.equityCurve);
    var maxDd := MaxDrawdown(e);
    m := Metrics(
      TotalReturn(o.finalCapital, initialCapital),
      Sharpe(e),
      maxDd,
      WinRate(o.trades),
      ProfitFactor(o.trades),
      |o.trades|);
  }

  /** Simulate and summarise. An empty price history is the one failure;
      otherwise the report carries the simulation's trades and curve, and
      metrics derived from them. */
  method Run(doc: RuleDocument, ind: Indicators, prices: seq<Bar>, initialCapital: real)
    returns (r: Result<Report, string>)
    requires PositivePrices(prices) && initialCapital > 0.0
    ensures r.Failure? <==> |prices| == 0
    ensures r.Failure? ==> r.error == NoDataMessage
    ensures r.Success? ==>
      var o := Simulate(doc, ind, prices, initialCapital);
      var m := r.value.metrics;
      && r.value.trades == o.trades
      && r.value.equityCurve == o.equityCurve
      && m.tradesCount == |o.trades|
      && m.totalReturn == TotalReturn(o.finalCapital, initialCapital)
      && m.winRate == WinRate(o.trades)
      && m.profitFactor == ProfitFactor(o.trades)
      && 0.0 <= m.winRate <= 100.0
      && (|o.trades| == 0 ==> m.winRate == 0.0)
      && (CountLosses(o.trades) == 0 ==> m.profitFactor == Finite(ProfitFactorSentinel))
      && (|o.equityCurve| > 0 ==> o.equityCurve[0].equity == initialCapital)
      && IsMaxDrawdown(Equities(o.equityCurve), m.maxDrawdown)
      && m.sharpeRatio == Sharpe(Equities(o.equityCurve))
  {
    if |prices| == 0 {
      return Failure(NoDataMessage);
    }
    var o := Simulate(doc, ind, prices, initialCapital);
    if |prices| > StartIdx {
      FirstSampleIsInitialCapital(doc, ind, prices, initialCapital);
    }
    var m := Summarise(o, initialCapital);
    return Success(Report(m, o.equityCurve, o.trades));
  }

  /** When the entry rules hold at no visited bar, the run reports no trades,
      a win rate of 0, the profit-factor sentinel and a total return of 0. */
  lemma NoEntryScenario(doc: RuleDocument, ind: Indicators, prices: seq<Bar>, c0: real)
    requires PositivePrices(prices) && c0 > 0.0
    requires forall i :: StartIdx <= i < |prices| ==> !ShouldBuy(doc, EntryContextAt(ind, i))
    ensures var o := Simulate(doc, ind, prices, c0);
      && o.trades == []
      && WinRate(o.trades) == 0.0
      && ProfitFactor(o.trades) == Finite(ProfitFactorSentinel)
      && TotalReturn(o.finalCapital, c0) == 0.0
  {
    NoEntryNoTrades(doc, ind, prices, c0, |prices|);
  }
}
