/** The rule document and its evaluation at one bar: typed conditions, the
    AND/OR combination policy and the defaults for empty condition lists
    (server/services/backtest.ts, lines 89-138). */
module Rules {
  import opened Wrappers

  /** The `condition` string of a rule. The engine recognises four spellings;
      any other string is `Unrecognised`. */
  datatype Comparator = Less | Greater | Positive | CrossAbove | Unrecognised

  /** One condition of a rule document, tagged by its `type` field.
      A condition whose type the engine does not know is `Unknown`. */
  datatype Condition =
    | RSI(cmp: Comparator, value: real)
    | MACD(cmp: Comparator)
    | SMA(cmp: Comparator)
    | Profit(value: real)
    | Loss(value: real)
    | Unknown

  /** A condition list with its `logic` field (absent when the document has none). */
  datatype RuleSet = RuleSet(conditions: seq<Condition>, logic: Option<string>)

  /** A rule document; a missing `entry` or `exit` object reads as an empty
      list with no logic. */
  datatype RuleDocument = RuleDocument(entry: RuleSet, exit: RuleSet)

  /** The indicator readings an entry condition may consult at one bar.
      `rsi` is already defaulted; the MACD histograms and the current moving
      averages are absent when out of range; the prior-bar averages are
      already defaulted to 0. */
  datatype EntryContext = EntryContext(
    rsi: real,
    macdHistogram: Option<real>,
    macdHistogramPrev: Option<real>,
    smaFast: Option<real>,
    smaSlow: Option<real>,
    smaFastPrev: real,
    smaSlowPrev: real)

  /** What an exit condition may consult: the RSI reading and the open
      position's return since entry, as a fraction. */
  datatype ExitContext = ExitContext(rsi: real, profitPct: real)

  const DefaultEntryRsiBelow: real := 35.0
  const DefaultTakeProfit: real := 0.10
  const DefaultStopLoss: real := 0.05

  /** `x > y`, where a comparison with `undefined` is false. */
  predicate DefinedAbove(x: Option<real>, y: real) {
    x.Some? && x.value > y
  }

  /** `x > y` between two possibly undefined readings: false unless both are defined. */
  predicate BothDefinedAbove(x: Option<real>, y: Option<real>) {
    x.Some? && y.Some? && x.value > y.value
  }

  /** `x <= y`, where a comparison with `undefined` is false. */
  predicate DefinedAtMost(x: Option<real>, y: real) {
    x.Some? && x.value <= y
  }

  /** Whether one condition holds for entry. Only RSI, MACD and SMA conditions
      can hold, and each only with the comparators it recognises. */
  predicate EntryHolds(c: Condition, ctx: EntryContext)
    ensures EntryHolds(c, ctx) ==> c.RSI? || c.MACD? || c.SMA?
    ensures EntryHolds(c, ctx) && c.RSI? ==> c.cmp == Less || c.cmp == Greater
    ensures EntryHolds(c, ctx) && c.MACD? ==>
      (c.cmp == Positive || c.cmp == CrossAbove) && ctx.macdHistogram.Some? && ctx.macdHistogram.value > 0.0
    ensures EntryHolds(c, ctx) && c.SMA? ==>
      c.cmp == CrossAbove && ctx.smaFast.Some? && ctx.smaSlow.Some? && ctx.smaFast.value > ctx.smaSlow.value
  {
    match c
    case RSI(cmp, v) =>
      (cmp == Less && ctx.rsi < v) || (cmp == Greater && ctx.rsi > v)
    case MACD(cmp) =>
      (cmp == Positive && DefinedAbove(ctx.macdHistogram, 0.0))
      || (cmp == CrossAbove && DefinedAbove(ctx.macdHistogram, 0.0) && DefinedAtMost(ctx.macdHistogramPrev, 0.0))
    case SMA(cmp) =>
      cmp == CrossAbove && BothDefinedAbove(ctx.smaFast, ctx.smaSlow) && ctx.smaFastPrev <= ctx.smaSlowPrev
    case _ => false
  }

  /** Whether one condition holds for exit. The RSI condition ignores its
      comparator and always tests `rsi > value`; MACD, SMA and unknown
      conditions never hold. */
  predicate ExitHolds(c: Condition, ctx: ExitContext)
    ensures ExitHolds(c, ctx) ==> c.Profit? || c.Loss? || c.RSI?
    ensures c.RSI? ==> (ExitHolds(c, ctx) <==> ctx.rsi > c.value)
  {
    match c
    case Profit(v) => ctx.profitPct >= v
    case Loss(v) => ctx.profitPct <= -v
    case RSI(_, v) => ctx.rsi > v
    case _ => false
  }

  /** Only the exact string "OR" selects disjunction; anything else, including
      no logic at all, means conjunction. */
  predicate IsOr(logic: Option<string>) {
    logic == Some("OR")
  }

  /** The entry conditions in force: the document's, or `RSI < 35` when it has none. */
  function EntryRules(doc: RuleDocument): (rules: seq<Condition>)
    ensures |rules| > 0
  {
    if |doc.entry.conditions| > 0 then doc.entry.conditions
    else [RSI(Less, DefaultEntryRsiBelow)]
  }

  /** The exit conditions in force: the document's, or a 10% take-profit and
      a 5% stop-loss when it has none. */
  function ExitRules(doc: RuleDocument): (rules: seq<Condition>)
    ensures |rules| > 0
  {
    if |doc.exit.conditions| > 0 then doc.exit.conditions
    else [Profit(DefaultTakeProfit), Loss(DefaultStopLoss)]
  }

  /** `rules.map(...).some(r => r)` for entry conditions. */
  predicate SomeEntryHolds(rules: seq<Condition>, ctx: EntryContext)
    ensures SomeEntryHolds(rules, ctx) <==> exists j :: 0 <= j < |rules| && EntryHolds(rules[j], ctx)
  {
    |rules| > 0 && (EntryHolds(rules[0], ctx) || SomeEntryHolds(rules[1..], ctx))
  }

  /** `rules.map(...).every(r => r)` for entry conditions. */
  predicate EveryEntryHolds(rules: seq<Condition>, ctx: EntryContext)
    ensures EveryEntryHolds(rules, ctx) <==> forall j :: 0 <= j < |rules| ==> EntryHolds(rules[j], ctx)
  {
    |rules| == 0 || (EntryHolds(rules[0], ctx) && EveryEntryHolds(rules[1..], ctx))
  }

  /** `rules.map(...).some(r => r)` for exit conditions. */
  predicate SomeExitHolds(rules: seq<Condition>, ctx: ExitContext)
    ensures SomeExitHolds(rules, ctx) <==> exists j :: 0 <= j < |rules| && ExitHolds(rules[j], ctx)
  {
    |rules| > 0 && (ExitHolds(rules[0], ctx) || SomeExitHolds(rules[1..], ctx))
  }

  /** `rules.map(...).every(r => r)` for exit conditions. */
  predicate EveryExitHolds(rules: seq<Condition>, ctx: ExitContext)
    ensures EveryExitHolds(rules, ctx) <==> forall j :: 0 <= j < |rules| ==> ExitHolds(rules[j], ctx)
  {
    |rules| == 0 || (ExitHolds(rules[0], ctx) && EveryExitHolds(rules[1..], ctx))
  }

  /** Whether a flat engine buys at a bar with these readings. */
  predicate ShouldBuy(doc: RuleDocument, ctx: EntryContext)
    ensures IsOr(doc.entry.logic) ==>
      (ShouldBuy(doc, ctx) <==> exists j :: 0 <= j < |EntryRules(doc)| && EntryHolds(EntryRules(doc)[j], ctx))
    ensures !IsOr(doc.entry.logic) ==>
      (ShouldBuy(doc, ctx) <==> forall j :: 0 <= j < |EntryRules(doc)| ==> EntryHolds(EntryRules(doc)[j], ctx))
  {
    // The rule lists are never empty, so the `results.length > 0` guard of
    // the AND branch always passes.
    if IsOr(doc.entry.logic) then SomeEntryHolds(EntryRules(doc), ctx) else EveryEntryHolds(EntryRules(doc), ctx)
  }

  /** Whether a long engine sells at a bar with these readings. */
  predicate ShouldSell(doc: RuleDocument, ctx: ExitContext)
    ensures IsOr(doc.exit.logic) ==>
      (ShouldSell(doc, ctx) <==> exists j :: 0 <= j < |ExitRules(doc)| && ExitHolds(ExitRules(doc)[j], ctx))
    ensures !IsOr(doc.exit.logic) ==>
      (ShouldSell(doc, ctx) <==> forall j :: 0 <= j < |ExitRules(doc)| ==> ExitHolds(ExitRules(doc)[j], ctx))
  {
    // The rule lists are never empty, so the `results.length > 0` guards
    // always pass.
    if IsOr(doc.exit.logic) then SomeExitHolds(ExitRules(doc), ctx) else EveryExitHolds(ExitRules(doc), ctx)
  }

  /** With no entry conditions, the engine buys exactly when RSI is below 35,
      whatever the logic. */
  lemma DefaultEntryIsRsiBelow35(doc: RuleDocument, ctx: EntryContext)
    requires |doc.entry.conditions| == 0
    ensures ShouldBuy(doc, ctx) <==> ctx.rsi < 35.0
  {
  }

  /** With no exit conditions under OR, the engine sells at a 10% gain or a 5% loss. */
  lemma DefaultExitUnderOr(doc: RuleDocument, ctx: ExitContext)
    requires |doc.exit.conditions| == 0 && IsOr(doc.exit.logic)
    ensures ShouldSell(doc, ctx) <==> ctx.profitPct >= 0.10 || ctx.profitPct <= -0.05
  {
    var rules := ExitRules(doc);
    assert rules[0] == Profit(0.10) && rules[1] == Loss(0.05);
  }

  /** With no exit conditions and any logic but OR, the default bracket needs a
      gain of 10% and a loss of 5% at once, so it never fires. */
  lemma DefaultExitUnderAndNeverFires(doc: RuleDocument, ctx: ExitContext)
    requires |doc.exit.conditions| == 0 && !IsOr(doc.exit.logic)
    ensures !ShouldSell(doc, ctx)
  {
    var rules := ExitRules(doc);
    assert rules[0] == Profit(0.10) && rules[1] == Loss(0.05);
    assert !(ExitHolds(rules[0], ctx) && ExitHolds(rules[1], ctx));
  }

  /** Under AND, one condition the engine cannot evaluate for entry (an unknown
      type, or an exit-only type) blocks every entry. */
  lemma UnevaluableConditionBlocksAndEntry(doc: RuleDocument, ctx: EntryContext, j: nat)
    requires !IsOr(doc.entry.logic)
    requires j < |doc.entry.conditions|
    requires doc.entry.conditions[j].Unknown? || doc.entry.conditions[j].Profit? || doc.entry.conditions[j].Loss?
    ensures !ShouldBuy(doc, ctx)
  {
  }

  /** Under OR, appending an unknown condition to a non-empty entry list
      changes no decision. */
  lemma UnknownConditionIgnoredUnderOr(doc: RuleDocument, ctx: EntryContext)
    requires IsOr(doc.entry.logic) && |doc.entry.conditions| > 0
    ensures ShouldBuy(doc.(entry := doc.entry.(conditions := doc.entry.conditions + [Unknown])), ctx)
            == ShouldBuy(doc, ctx)
  {
    var doc' := doc.(entry := doc.entry.(conditions := doc.entry.conditions + [Unknown]));
    var cs := doc.entry.conditions;
    assert EntryRules(doc') == cs + [Unknown];
    assert EntryRules(doc) == cs;
    if ShouldBuy(doc, ctx) {
      var j :| 0 <= j < |cs| && EntryHolds(cs[j], ctx);
      assert EntryRules(doc')[j] == cs[j];
    }
    if ShouldBuy(doc', ctx) {
      var j :| 0 <= j < |cs| + 1 && EntryHolds(EntryRules(doc')[j], ctx);
      assert j < |cs|;
      assert EntryRules(doc')[j] == cs[j];
    }
  }
}
