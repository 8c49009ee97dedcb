/** The position and ledger tracker: the flat/long state, liquid capital,
    the append-only trade log and the equity curve, with the fills the engine
    executes (server/services/backtest.ts, lines 48-55, 86-87, 116-163). */
module Ledger {
  import opened Wrappers

  /** Commission charged on every fill, as a fraction (0.1%). */
  const Commission: real := 0.001
  /** Adverse price move applied to signal-driven fills, as a fraction (0.05%). */
  const Slippage: real := 0.0005

  /** One price bar; `time` is the bar's timestamp. */
  datatype Bar = Bar(time: int, open: real, high: real, low: real, close: real, volume: real)

  /** The open position: fill price including slippage, units held, entry bar time. */
  datatype Position = Position(entryPrice: real, size: real, entryTime: int)

  /** A closed round trip, written once at exit and never changed. */
  datatype Trade = Trade(
    entryTime: int,
    exitTime: int,
    entryPrice: real,
    exitPrice: real,
    profit: real,
    returnPct: real)

  /** One equity-curve sample. */
  datatype EquityPoint = EquityPoint(time: int, equity: real)

  /** The engine's state between bars. */
  datatype Ledger = Ledger(
    capital: real,
    position: Option<Position>,
    trades: seq<Trade>,
    equityCurve: seq<EquityPoint>)

  /** Fully invested or flat: a flat ledger holds positive liquid capital; a
      long one holds none and a position of positive size and price. */
  predicate Valid(l: Ledger) {
    match l.position
    case None => l.capital > 0.0
    case Some(p) => l.capital == 0.0 && p.entryPrice > 0.0 && p.size > 0.0
  }

  /** What the fills paid for a position: units times entry price. */
  function CostBasis(p: Position): real {
    p.size * p.entryPrice
  }

  /** The equity sample taken at a bar with closing price `close`:
      `capital + (close - entryPrice) * size` while long. Since a long ledger
      holds no capital, a long sample is only the unrealised profit, not the
      value of the position. */
  function MarkToMarket(l: Ledger, close: real): (equity: real)
    requires Valid(l)
    ensures l.position.None? ==> equity == l.capital && equity > 0.0
    ensures l.position.Some? ==> equity == close * l.position.value.size - CostBasis(l.position.value)
  {
    l.capital + (match l.position
                 case Some(p) => (close - p.entryPrice) * p.size
                 case None => 0.0)
  }

  /** Appends the equity sample for `bar`; nothing else changes. */
  function Sample(l: Ledger, bar: Bar): (r: Ledger)
    requires Valid(l)
    ensures Valid(r)
    ensures r.equityCurve == l.equityCurve + [EquityPoint(bar.time, MarkToMarket(l, bar.close))]
    ensures r.capital == l.capital && r.position == l.position && r.trades == l.trades
  {
    l.(equityCurve := l.equityCurve + [EquityPoint(bar.time, MarkToMarket(l, bar.close))])
  }

  /** Flat to long at `bar`: fill at the close moved up by slippage, spend all
      capital after commission, hold no cash. */
  function Buy(l: Ledger, bar: Bar): (r: Ledger)
    requires Valid(l) && l.position.None? && bar.close > 0.0
    ensures Valid(r) && r.position.Some? && r.capital == 0.0
    ensures r.position.value.entryPrice == bar.close * (1.0 + Slippage) > bar.close
    ensures CostBasis(r.position.value) == l.capital * (1.0 - Commission)
    ensures r.position.value.entryTime == bar.time
    ensures r.trades == l.trades && r.equityCurve == l.equityCurve
  {
    var executionPrice := bar.close * (1.0 + Slippage);
    var availableCapital := l.capital * (1.0 - Commission);
    var size := availableCapital / executionPrice;
    l.(position := Some(Position(executionPrice, size, bar.time)), capital := 0.0)
  }

  /** The proceeds of selling `p` at `close`: slippage moves the fill down and
      commission is taken from the sale. */
  function Proceeds(p: Position, close: real): real {
    p.size * (close * (1.0 - Slippage)) * (1.0 - Commission)
  }

  /** Long to flat at `bar`: the proceeds become liquid capital and one trade
      is appended recording the round trip. */
  function Sell(l: Ledger, bar: Bar): (r: Ledger)
    requires Valid(l) && l.position.Some? && bar.close > 0.0
    ensures Valid(r) && r.position.None?
    ensures r.capital == Proceeds(l.position.value, bar.close)
    ensures |r.trades| == |l.trades| + 1 && r.trades[..|l.trades|] == l.trades
    ensures var t := r.trades[|l.trades|];
      && t.entryTime == l.position.value.entryTime && t.exitTime == bar.time
      && t.entryPrice == l.position.value.entryPrice
      && t.exitPrice == bar.close * (1.0 - Slippage) < bar.close
      && t.profit == r.capital - CostBasis(l.position.value)
      && t.returnPct * CostBasis(l.position.value) == t.profit * 100.0
    ensures r.equityCurve == l.equityCurve
  {
    var p := l.position.value;
    var executionPrice := bar.close * (1.0 - Slippage);
    var exitValue := p.size * executionPrice * (1.0 - Commission);
    var profit := exitValue - p.size * p.entryPrice;
    assert p.size * p.entryPrice > 0.0;
    assert exitValue > 0.0 by {
      assert p.size * executionPrice > 0.0;
    }
    var trade := Trade(p.entryTime, bar.time, p.entryPrice, executionPrice, profit,
                       (profit / (p.size * p.entryPrice)) * 100.0);
    l.(capital := exitValue, trades := l.trades + [trade], position := None)
  }

  /** Capital after the forced close at the end of the series: an open
      position is sold at the last close with commission but no slippage. */
  function Liquidate(l: Ledger, lastClose: real): (finalCapital: real)
    requires Valid(l)
    ensures l.position.None? ==> finalCapital == l.capital
    ensures l.position.Some? ==> finalCapital == l.position.value.size * lastClose * (1.0 - Commission)
    ensures lastClose > 0.0 ==> finalCapital > 0.0
  {
    match l.position
    case None => l.capital
    case Some(p) => l.capital + p.size * lastClose * (1.0 - Commission)
  }

  /** A full round trip scales capital by both commissions and by the ratio of
      the slipped exit fill to the slipped entry fill. */
  lemma RoundTripCapital(l: Ledger, entryBar: Bar, exitBar: Bar)
    requires Valid(l) && l.position.None? && entryBar.close > 0.0 && exitBar.close > 0.0
    ensures Sell(Buy(l, entryBar), exitBar).capital
            == l.capital * (1.0 - Commission) * (1.0 - Commission)
               * (exitBar.close * (1.0 - Slippage)) / (entryBar.close * (1.0 + Slippage))
  {
  }

  /** A round trip that exits at the same close it entered at always loses:
      slippage and commission are paid on both fills. */
  lemma BreakEvenRoundTripLoses(l: Ledger, entryBar: Bar, exitBar: Bar)
    requires Valid(l) && l.position.None? && entryBar.close > 0.0 && exitBar.close == entryBar.close
    ensures Sell(Buy(l, entryBar), exitBar).trades[|l.trades|].profit < 0.0
    ensures Sell(Buy(l, entryBar), exitBar).capital < l.capital
  {
  }
}
