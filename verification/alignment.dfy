/** The indicator series the engine consults and their alignment to bar
    indices (server/services/backtest.ts, lines 62-84). The series themselves
    come from an indicator library and are inputs here. */
module Alignment {
  import opened Wrappers
  import opened Rules

  /** Warm-up lengths: how many leading bars each series omits. */
  const RsiWarmup: nat := 14
  const MacdWarmup: nat := 26
  const SmaFastWarmup: nat := 20
  const SmaSlowWarmup: nat := 50

  /** The first bar the loop visits: the largest warm-up, `Math.max(14, 26, 50, 20)`. */
  const StartIdx: nat := 50

  /** RSI reading used when the series has no usable value. */
  const NeutralRsi: real := 50.0

  /** The outputs of the indicator library on the closing prices: RSI(14),
      the histogram of MACD(12, 26, 9) (absent while its signal line warms up),
      SMA(20) and SMA(50). */
  datatype Indicators = Indicators(
    rsi: seq<real>,
    macdHistogram: seq<Option<real>>,
    sma20: seq<real>,
    sma50: seq<real>)

  /** Reads a series at bar `i` shifted back by `warmup`: absent when the index
      falls outside the series, as JavaScript's array read gives `undefined`. */
  function ReadAligned<T>(s: seq<T>, i: int, warmup: nat): Option<T>
  {
    if 0 <= i - warmup < |s| then Some(s[i - warmup]) else None
  }

  /** The RSI reading at bar `i`: `rsiValues[i - 14] || 50`, so that both an
      absent value and a value of exactly 0 read as 50. */
  function RsiAt(ind: Indicators, i: int): (r: real)
    ensures 0 <= i - RsiWarmup < |ind.rsi| && ind.rsi[i - RsiWarmup] != 0.0 ==> r == ind.rsi[i - RsiWarmup]
    ensures !(0 <= i - RsiWarmup < |ind.rsi|) || ind.rsi[i - RsiWarmup] == 0.0 ==> r == NeutralRsi
    ensures r != 0.0
  {
    match ReadAligned(ind.rsi, i, RsiWarmup)
    case Some(v) => if v != 0.0 then v else NeutralRsi
    case None => NeutralRsi
  }

  /** The MACD histogram `warmup` bars back: absent when the entry is out of
      range or has no histogram yet (`macd?.histogram`). */
  function HistogramAt(ind: Indicators, i: int, warmup: nat): (r: Option<real>)
    ensures r.Some? ==> 0 <= i - warmup < |ind.macdHistogram| && ind.macdHistogram[i - warmup] == r
  {
    match ReadAligned(ind.macdHistogram, i, warmup)
    case Some(h) => h
    case None => None
  }

  /** The readings entry conditions consult at bar `i`. Current values are
      read at the warm-up offsets, prior-bar values one further back; the
      prior-bar moving averages default to 0 (`|| 0`). */
  function EntryContextAt(ind: Indicators, i: int): (ctx: EntryContext)
    ensures ctx.rsi == RsiAt(ind, i)
    ensures ctx.macdHistogram ==
      if 0 <= i - 26 < |ind.macdHistogram| then ind.macdHistogram[i - 26] else None
    ensures ctx.macdHistogramPrev ==
      if 0 <= i - 27 < |ind.macdHistogram| then ind.macdHistogram[i - 27] else None
    ensures ctx.smaFast == if 0 <= i - 20 < |ind.sma20| then Some(ind.sma20[i - 20]) else None
    ensures ctx.smaSlow == if 0 <= i - 50 < |ind.sma50| then Some(ind.sma50[i - 50]) else None
    ensures ctx.smaFastPrev == if 0 <= i - 21 < |ind.sma20| then ind.sma20[i - 21] else 0.0
    ensures ctx.smaSlowPrev == if 0 <= i - 51 < |ind.sma50| then ind.sma50[i - 51] else 0.0
  {
    EntryContext(
      RsiAt(ind, i),
      HistogramAt(ind, i, MacdWarmup),
      HistogramAt(ind, i, MacdWarmup + 1),
      ReadAligned(ind.sma20, i, SmaFastWarmup),
      ReadAligned(ind.sma50, i, SmaSlowWarmup),
      ReadAligned(ind.sma20, i, SmaFastWarmup + 1).GetOr(0.0),
      ReadAligned(ind.sma50, i, SmaSlowWarmup + 1).GetOr(0.0))
  }

  // ---- one condition at one bar ----

  /** A lone RSI condition buys at bar `i` exactly when the reading 14 bars
      back (50 when absent or 0) passes its comparison; any other comparator
      never buys. */
  lemma RsiConditionAt(doc: RuleDocument, ind: Indicators, i: int, cmp: Comparator, v: real)
    requires doc.entry.conditions == [RSI(cmp, v)]
    ensures ShouldBuy(doc, EntryContextAt(ind, i)) <==>
      (cmp == Less && RsiAt(ind, i) < v) || (cmp == Greater && RsiAt(ind, i) > v)
  {
    assert EntryRules(doc) == [RSI(cmp, v)];
  }

  /** A lone MACD `positive` condition buys at bar `i` exactly when the
      histogram 26 bars back is defined and positive. */
  lemma MacdPositiveAt(doc: RuleDocument, ind: Indicators, i: int)
    requires doc.entry.conditions == [MACD(Positive)]
    ensures ShouldBuy(doc, EntryContextAt(ind, i)) <==>
      0 <= i - 26 < |ind.macdHistogram| && ind.macdHistogram[i - 26].Some?
      && ind.macdHistogram[i - 26].value > 0.0
  {
    assert EntryRules(doc) == [MACD(Positive)];
  }

  /** A lone MACD `cross_above` condition buys at bar `i` exactly when the
      histogram 26 bars back is defined and positive and the one 27 bars back
      is defined and not positive. */
  lemma MacdCrossAboveAt(doc: RuleDocument, ind: Indicators, i: int)
    requires doc.entry.conditions == [MACD(CrossAbove)]
    ensures ShouldBuy(doc, EntryContextAt(ind, i)) <==>
      && 0 <= i - 26 < |ind.macdHistogram| && ind.macdHistogram[i - 26].Some?
      && ind.macdHistogram[i - 26].value > 0.0
      && 0 <= i - 27 < |ind.macdHistogram| && ind.macdHistogram[i - 27].Some?
      && ind.macdHistogram[i - 27].value <= 0.0
  {
    assert EntryRules(doc) == [MACD(CrossAbove)];
  }

  /** A lone SMA `cross_above` condition buys at bar `i` exactly when SMA(20)
      20 bars back exceeds SMA(50) 50 bars back, and the readings one bar
      earlier, each 0 when out of range, do not. */
  lemma SmaCrossAboveAt(doc: RuleDocument, ind: Indicators, i: int)
    requires doc.entry.conditions == [SMA(CrossAbove)]
    ensures ShouldBuy(doc, EntryContextAt(ind, i)) <==>
      && 0 <= i - 20 < |ind.sma20| && 0 <= i - 50 < |ind.sma50|
      && ind.sma20[i - 20] > ind.sma50[i - 50]
      && (if 0 <= i - 21 < |ind.sma20| then ind.sma20[i - 21] else 0.0)
         <= (if 0 <= i - 51 < |ind.sma50| then ind.sma50[i - 51] else 0.0)
  {
    assert EntryRules(doc) == [SMA(CrossAbove)];
  }

  /** At the first visited bar the prior SMA(50) reading is out of range and
      reads 0, so the crossover there needs the prior SMA(20) reading to be at
      most 0: with positive averages it never fires. */
  lemma SmaCrossAboveAtFirstBar(doc: RuleDocument, ind: Indicators)
    requires doc.entry.conditions == [SMA(CrossAbove)]
    ensures ShouldBuy(doc, EntryContextAt(ind, StartIdx)) <==>
      |ind.sma20| > 30 && |ind.sma50| > 0 && ind.sma20[30] > ind.sma50[0] && ind.sma20[29] <= 0.0
    ensures (forall k :: 0 <= k < |ind.sma20| ==> ind.sma20[k] > 0.0) ==>
      !ShouldBuy(doc, EntryContextAt(ind, StartIdx))
  {
    SmaCrossAboveAt(doc, ind, StartIdx);
  }
}
