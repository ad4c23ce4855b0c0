/** The strategy variants fed into the simulation: end-to-end causality, and the hold-cash baseline. */
module VariantRuns {
  import opened Wrappers
  import opened Sequences
  import opened Market
  import opened Timing
  import opened Eligibility
  import opened Journal
  import opened Audit
  import opened Backtest
  import opened Variants
  import opened Causality
  import opened Equivalences

  // The signals one variant materializes over the slice.
  function Materialize(family: Family, context: Context, inputs: StrategyInputs, slice: Slice): seq<VariantSignal>
    requires SliceBars(inputs.fixture, slice) != [] && Priced(SliceBars(inputs.fixture, slice))
  {
    var bars := SliceBars(inputs.fixture, slice);
    match family
    case NaiveBaseline => NaiveSignals(context, family, bars)
    case PriceOnlyBaseline => MomentumSignals(context, family, bars)
    case TextOnlyBaseline => TextSignals(context, family, SliceTexts(inputs.textSignals, slice))
    case CombinedBaseline => BlendSignals(context, family, inputs, slice)
  }

  function AsComparable(signals: seq<VariantSignal>): (r: seq<Signal>)
    ensures |r| == |signals|
    ensures forall i :: 0 <= i < |r| ==> r[i] == Variant(signals[i])
  {
    seq(|signals|, i requires 0 <= i < |signals| => Variant(signals[i]))
  }

  function BacktestInputs(inputs: StrategyInputs, signals: seq<VariantSignal>): Inputs {
    Inputs(AsComparable(signals), inputs.researchById, inputs.featureAvailableAt, inputs.fixture)
  }

  // ---------- Two price histories that part after time t ----------

  ghost predicate AlignedBars(x: seq<Bar>, y: seq<Bar>, t: Time) {
    && |x| == |y|
    && (forall i :: 0 <= i < |x| ==> x[i].timestamp == y[i].timestamp)
    && (forall i :: 0 <= i < |x| && x[i].timestamp <= t ==> x[i] == y[i])
  }

  ghost predicate AlignedSignals(p: seq<VariantSignal>, q: seq<VariantSignal>, t: Time) {
    && |p| == |q|
    && (forall i :: 0 <= i < |p| ==> OpenFrom(p[i]) && OpenFrom(q[i]) && p[i].effectiveAt == q[i].effectiveAt)
    && (forall i :: 0 <= i < |p| && p[i].effectiveAt <= t ==> p[i] == q[i])
  }

  // Variant signals become available when they become effective.
  predicate OpenFrom(s: VariantSignal) {
    s.window == Some(Window(s.effectiveAt, None))
  }

  lemma {:induction false} FilterAligned(x: seq<Bar>, y: seq<Bar>, t: Time, low: int, high: int)
    requires AlignedBars(x, y, t)
    ensures AlignedBars(BarsBetween(x, low, high), BarsBetween(y, low, high), t)
  {
    hide DayOf;
    if x != [] {
      FilterAligned(x[1..], y[1..], t, low, high);
      var p := (b: Bar) => low <= DayOf(b.timestamp) <= high;
      assert x[0].timestamp == y[0].timestamp && (x[0].timestamp <= t ==> x[0] == y[0]);
      hide AlignedBars;
      AlignedCons(x[0], y[0], Filter(x[1..], p), Filter(y[1..], p), t);
      assert Filter(x, p) == if p(x[0]) then [x[0]] + Filter(x[1..], p) else Filter(x[1..], p);
      assert Filter(y, p) == if p(x[0]) then [y[0]] + Filter(y[1..], p) else Filter(y[1..], p);
    }
  }

  lemma AlignedCons(a: Bar, b: Bar, x: seq<Bar>, y: seq<Bar>, t: Time)
    requires AlignedBars(x, y, t) && a.timestamp == b.timestamp && (a.timestamp <= t ==> a == b)
    ensures AlignedBars([a] + x, [b] + y, t)
  {
  }

  lemma MomentumAligned(context: Context, family: Family, x: seq<Bar>, y: seq<Bar>, t: Time)
    requires AlignedBars(x, y, t) && Priced(x) && Priced(y) && Increasing(x)
    ensures AlignedSignals(MomentumSignals(context, family, x), MomentumSignals(context, family, y), t)
  {
    hide MomentumScore, StanceOf;
    var p, q := MomentumSignals(context, family, x), MomentumSignals(context, family, y);
    forall j | 0 <= j < |p| && p[j].effectiveAt <= t
      ensures p[j] == q[j]
    {
      assert x[j].timestamp < x[j + LOOKBACK].timestamp;
      assert x[j] == y[j] && x[j + LOOKBACK] == y[j + LOOKBACK];
    }
  }

  lemma BlendOpen(context: Context, family: Family, text: VariantSignal, price: VariantSignal)
    ensures OpenFrom(Blend(context, family, text, price))
    ensures Blend(context, family, text, price).effectiveAt == price.effectiveAt
  {
  }

  lemma AlignedAppend(p: seq<VariantSignal>, q: seq<VariantSignal>, p': seq<VariantSignal>, q': seq<VariantSignal>, t: Time)
    requires AlignedSignals(p, q, t) && AlignedSignals(p', q', t)
    ensures AlignedSignals(p + p', q + q', t)
  {
    hide OpenFrom;
  }

  // What one price signal contributes to the blend.
  function BlendPart(context: Context, family: Family, texts: seq<VariantSignal>, price: VariantSignal): seq<VariantSignal> {
    var eligible := TextsBy(texts, price.effectiveAt);
    if eligible == [] then [] else [Blend(context, family, eligible[|eligible| - 1], price)]
  }

  lemma BlendPartAligned(context: Context, family: Family, texts: seq<VariantSignal>, p: VariantSignal, q: VariantSignal,
                         t: Time)
    requires p.effectiveAt == q.effectiveAt && (p.effectiveAt <= t ==> p == q)
    ensures AlignedSignals(BlendPart(context, family, texts, p), BlendPart(context, family, texts, q), t)
  {
    hide Blend, OpenFrom;
    var eligible := TextsBy(texts, p.effectiveAt);
    if eligible != [] {
      BlendOpen(context, family, eligible[|eligible| - 1], p);
      BlendOpen(context, family, eligible[|eligible| - 1], q);
    }
  }

  lemma BlendPartStep(context: Context, family: Family, texts: seq<VariantSignal>, prices: seq<VariantSignal>, i: nat)
    requires i < |prices|
    ensures NestedBlend(context, family, texts, prices, i + 1)
         == NestedBlend(context, family, texts, prices, i) + BlendPart(context, family, texts, prices[i])
  {
    hide Blend, TextsBy;
  }

  lemma {:induction false} BlendAligned(context: Context, family: Family, texts: seq<VariantSignal>,
                                       p: seq<VariantSignal>, q: seq<VariantSignal>, t: Time, k: nat)
    requires AlignedSignals(p, q, t) && k <= |p|
    ensures AlignedSignals(NestedBlend(context, family, texts, p, k), NestedBlend(context, family, texts, q, k), t)
    decreases k
  {
    if k > 0 {
      var i := k - 1;
      BlendPartAligned(context, family, texts, p[i], q[i], t);
      hide *;
      BlendAligned(context, family, texts, p, q, t, i);
      AlignedAppend(NestedBlend(context, family, texts, p, i), NestedBlend(context, family, texts, q, i),
                    BlendPart(context, family, texts, p[i]), BlendPart(context, family, texts, q[i]), t);
      BlendPartStep(context, family, texts, p, i);
      BlendPartStep(context, family, texts, q, i);
      assert i + 1 == k;
    }
  }

  lemma SelfAligned(signals: seq<VariantSignal>, t: Time)
    requires forall i :: 0 <= i < |signals| ==> OpenFrom(signals[i])
    ensures AlignedSignals(signals, signals, t)
  {
  }

  lemma NaiveAligned(context: Context, family: Family, x: seq<Bar>, y: seq<Bar>, t: Time)
    requires AlignedBars(x, y, t) && x != []
    ensures y != [] && AlignedSignals(NaiveSignals(context, family, x), NaiveSignals(context, family, y), t)
  {
  }

  lemma TextAligned(context: Context, family: Family, texts: seq<ResearchSignal>, t: Time)
    ensures AlignedSignals(TextSignals(context, family, texts), TextSignals(context, family, texts), t)
  {
    SelfAligned(TextSignals(context, family, texts), t);
  }

  lemma CombinedAligned(context: Context, family: Family, a: StrategyInputs, b: StrategyInputs, slice: Slice, t: Time)
    requires b.textSignals == a.textSignals && Increasing(SliceBars(a.fixture, slice))
    requires AlignedBars(SliceBars(a.fixture, slice), SliceBars(b.fixture, slice), t)
    requires Priced(SliceBars(a.fixture, slice)) && Priced(SliceBars(b.fixture, slice))
    ensures AlignedSignals(BlendSignals(context, family, a, slice), BlendSignals(context, family, b, slice), t)
  {
    var x, y := SliceBars(a.fixture, slice), SliceBars(b.fixture, slice);
    MomentumAligned(context, family, x, y, t);
    hide SliceTexts, SliceBars, MomentumSignals, TextSignals, Sort, NestedBlend;
    var texts := Sort(TextSignals(context, family, SliceTexts(a.textSignals, slice)), EarlierSignal);
    var p, q := MomentumSignals(context, family, x), MomentumSignals(context, family, y);
    BlendAligned(context, family, texts, p, q, t, |p|);
  }

  lemma SlicesAligned(a: StrategyInputs, b: StrategyInputs, slice: Slice, t: Time)
    requires AlignedBars(a.fixture, b.fixture, t)
    requires Increasing(a.fixture) && Priced(a.fixture) && Priced(b.fixture)
    ensures
      var x, y := SliceBars(a.fixture, slice), SliceBars(b.fixture, slice);
      AlignedBars(x, y, t) && Increasing(x) && Priced(x) && Priced(y)
  {
    hide AlignedBars, Increasing, Priced;
    BarsBetweenPriced(a.fixture, slice.testStart, slice.testEnd);
    BarsBetweenPriced(b.fixture, slice.testStart, slice.testEnd);
    BarsBetweenIncreasing(a.fixture, slice.testStart, slice.testEnd);
    FilterAligned(a.fixture, b.fixture, t, slice.testStart, slice.testEnd);
  }

  lemma MaterializeAligned(family: Family, context: Context, a: StrategyInputs, b: StrategyInputs, slice: Slice, t: Time)
    requires b == a.(fixture := b.fixture) && AlignedBars(a.fixture, b.fixture, t)
    requires Increasing(a.fixture) && Priced(a.fixture) && Priced(b.fixture)
    requires SliceBars(a.fixture, slice) != []
    ensures SliceBars(b.fixture, slice) != []
    ensures Priced(SliceBars(a.fixture, slice)) && Priced(SliceBars(b.fixture, slice))
    ensures AlignedSignals(Materialize(family, context, a, slice), Materialize(family, context, b, slice), t)
  {
    SlicesAligned(a, b, slice, t);
    hide SliceTexts, SliceBars, NaiveSignals, MomentumSignals, TextSignals, BlendSignals, AlignedSignals, AlignedBars,
         Increasing, Priced;
    var x, y := SliceBars(a.fixture, slice), SliceBars(b.fixture, slice);
    NaiveAligned(context, family, x, y, t);
    MomentumAligned(context, family, x, y, t);
    TextAligned(context, family, SliceTexts(a.textSignals, slice), t);
    CombinedAligned(context, family, a, b, slice, t);
  }

  lemma AlignedIsSameKnowledge(a: StrategyInputs, b: StrategyInputs, p: seq<VariantSignal>, q: seq<VariantSignal>,
                               config: Config, t: Time)
    requires b == a.(fixture := b.fixture) && AlignedSignals(p, q, t)
    ensures SameKnowledge(BacktestInputs(a, p), BacktestInputs(b, q), config, t)
  {
    AlignedLooksSame(p, q, config, t);
    hide VisibleSignals, AsComparable, Visible;
  }

  lemma AlignedLooksSame(p: seq<VariantSignal>, q: seq<VariantSignal>, config: Config, t: Time)
    requires AlignedSignals(p, q, t)
    ensures VisibleSignals(AsComparable(p), config, t) == VisibleSignals(AsComparable(q), config, t)
  {
    hide Filter;
    var x, y := AsComparable(p), AsComparable(q);
    var visible := (s: Signal) => Visible(config, t, s);
    forall i | 0 <= i < |x| && (visible(x[i]) || visible(y[i]))
      ensures x[i] == y[i]
    {
      assert OpenFrom(p[i]) && OpenFrom(q[i]);
    }
    FilterPointwise(x, y, visible);
  }

  /**
   End to end: build any variant's signals from the prices and run them. Changing prices after
   the time of bar k, for signals and fills alike, leaves the whole simulator state after
   bar k, and with it every decision so far, as it was.
   */
  lemma VariantCausality(family: Family, context: Context, a: StrategyInputs, b: StrategyInputs, slice: Slice,
                         config: Config, k: nat)
    requires b == a.(fixture := b.fixture)
    requires Increasing(a.fixture) && Priced(a.fixture) && Priced(b.fixture)
    requires SliceBars(a.fixture, slice) != [] && SliceBars(b.fixture, slice) != []
    requires Priced(SliceBars(a.fixture, slice)) && Priced(SliceBars(b.fixture, slice))
    requires k < |WindowBars(BacktestInputs(a, []), config)|
    requires AlignedBars(a.fixture, b.fixture, WindowBars(BacktestInputs(a, []), config)[k].timestamp)
    ensures
      var x := BacktestInputs(a, Materialize(family, context, a, slice));
      var y := BacktestInputs(b, Materialize(family, context, b, slice));
      && k < |WindowBars(x, config)| == |WindowBars(y, config)|
      && StateAfter(x, config, k + 1) == StateAfter(y, config, k + 1)
  {
    var t := WindowBars(BacktestInputs(a, []), config)[k].timestamp;
    MaterializeAligned(family, context, a, b, slice, t);
    FromAligned(a, b, Materialize(family, context, a, slice), Materialize(family, context, b, slice), config, k);
  }

  lemma FromAligned(a: StrategyInputs, b: StrategyInputs, p: seq<VariantSignal>, q: seq<VariantSignal>,
                    config: Config, k: nat)
    requires b == a.(fixture := b.fixture) && Increasing(a.fixture) && Priced(a.fixture)
    requires k < |WindowBars(BacktestInputs(a, []), config)|
    requires
      var t := WindowBars(BacktestInputs(a, []), config)[k].timestamp;
      AlignedBars(a.fixture, b.fixture, t) && AlignedSignals(p, q, t)
    ensures
      var x, y := BacktestInputs(a, p), BacktestInputs(b, q);
      && k < |WindowBars(x, config)| == |WindowBars(y, config)|
      && StateAfter(x, config, k + 1) == StateAfter(y, config, k + 1)
  {
    hide SameKnowledge, StateAfter;
    var x, y := BacktestInputs(a, p), BacktestInputs(b, q);
    var t := WindowBars(x, config)[k].timestamp;
    assert WindowBars(x, config) == WindowBars(BacktestInputs(a, []), config);
    FilterAligned(a.fixture, b.fixture, t, config.testStart, config.testEnd);
    AlignedIsSameKnowledge(a, b, p, q, config, t);
    WindowBarsValid(x, config);
    var u, v := WindowBars(x, config), WindowBars(y, config);
    forall i | 0 <= i <= k
      ensures u[i] == v[i]
    {
      assert i < k ==> u[i].timestamp < u[k].timestamp;
    }
    assert SamePast(x, y, config, k);
    NoLookAhead(x, y, config, k);
  }

  // ---------- What the momentum variant trades on ----------

  lemma MomentumEligible(context: Context, inputs: StrategyInputs, bars: seq<Bar>, config: Config, t: Time, j: nat)
    requires Priced(bars) && LOOKBACK <= j < |bars| && Candidate in config.allowlist
    ensures
      var s := Variant(MomentumSignal(context, PriceOnlyBaseline, bars, j));
      Eligible(BacktestInputs(inputs, MomentumSignals(context, PriceOnlyBaseline, bars)), config, BuildCutoff(t), s)
      <==> bars[j].timestamp + config.Buffer() <= t
  {
    hide MomentumScore, StanceOf;
  }

  /**
   The signal picked at time t by a run of the momentum variant is that of the latest bar, from
   the fourth on, whose close was out by t with the configured buffer; there is none before.
   */
  lemma PriceOnlyPick(context: Context, inputs: StrategyInputs, bars: seq<Bar>, config: Config, t: Time, j: nat)
    requires Priced(bars) && Increasing(bars) && LOOKBACK <= j < |bars| && Candidate in config.allowlist
    ensures
      var x := BacktestInputs(inputs, MomentumSignals(context, PriceOnlyBaseline, bars));
      var pick := Select(x, config, BuildCutoff(t));
      && (bars[LOOKBACK].timestamp + config.Buffer() > t ==> pick == None)
      && (bars[j].timestamp + config.Buffer() <= t
          && (j + 1 < |bars| ==> bars[j + 1].timestamp + config.Buffer() > t) ==>
            pick == Some(Variant(MomentumSignal(context, PriceOnlyBaseline, bars, j))))
  {
    hide MomentumSignal, Select, BacktestInputs, MomentumSignals;
    var x := BacktestInputs(inputs, MomentumSignals(context, PriceOnlyBaseline, bars));
    var k := PickedBar(context, inputs, bars, config, t);
    var pick := Select(x, config, BuildCutoff(t));
    if bars[j].timestamp + config.Buffer() <= t && (j + 1 < |bars| ==> bars[j + 1].timestamp + config.Buffer() > t) {
      assert pick.Some? && bars[j].timestamp <= bars[k].timestamp;
      assert k == j;
    }
  }

  // The bar whose signal is picked, when one is.
  lemma PickedBar(context: Context, inputs: StrategyInputs, bars: seq<Bar>, config: Config, t: Time) returns (k: nat)
    requires Priced(bars) && Candidate in config.allowlist
    ensures
      var x := BacktestInputs(inputs, MomentumSignals(context, PriceOnlyBaseline, bars));
      match Select(x, config, BuildCutoff(t))
      case None => forall m :: LOOKBACK <= m < |bars| ==> bars[m].timestamp + config.Buffer() > t
      case Some(s) =>
        && LOOKBACK <= k < |bars| && s == Variant(MomentumSignal(context, PriceOnlyBaseline, bars, k))
        && bars[k].timestamp + config.Buffer() <= t
        && forall m :: LOOKBACK <= m < |bars| && bars[m].timestamp + config.Buffer() <= t ==>
             bars[m].timestamp <= bars[k].timestamp
  {
    hide MomentumSignal, Eligible, Select;
    var x := BacktestInputs(inputs, MomentumSignals(context, PriceOnlyBaseline, bars));
    SelectionWins(x, config, BuildCutoff(t));
    k := 0;
    if Select(x, config, BuildCutoff(t)).Some? {
      var s := Select(x, config, BuildCutoff(t)).value;
      var i :| 0 <= i < |x.signals| && x.signals[i] == s;
      k := i + LOOKBACK;
      MomentumEligible(context, inputs, bars, config, t, k);
      MomentumTime(context, bars, k);
      assert s == Variant(MomentumSignal(context, PriceOnlyBaseline, bars, k));
    }
    forall m | LOOKBACK <= m < |bars| && bars[m].timestamp + config.Buffer() <= t
      ensures Select(x, config, BuildCutoff(t)).Some? && bars[m].timestamp <= bars[k].timestamp
    {
      MomentumEligible(context, inputs, bars, config, t, m);
      MomentumTime(context, bars, m);
      assert x.signals[m - LOOKBACK] == Variant(MomentumSignal(context, PriceOnlyBaseline, bars, m));
      assert x.signals[m - LOOKBACK] in x.signals;
    }
  }

  lemma MomentumTime(context: Context, bars: seq<Bar>, k: nat)
    requires Priced(bars) && LOOKBACK <= k < |bars|
    ensures Variant(MomentumSignal(context, PriceOnlyBaseline, bars, k)).EffectiveAt() == bars[k].timestamp
    ensures MomentumSignal(context, PriceOnlyBaseline, bars, k).stance
         == StanceOf(MomentumScore(bars[k].close, bars[k - LOOKBACK].close))
  {
  }

  // One unit long, one short, or flat, as the close is 1.25% above, below, or near the earlier one.
  function MomentumRule(close: real, lookbackClose: real): int {
    if close >= 1.0125 * lookbackClose then 1
    else if close <= 0.9875 * lookbackClose then -1
    else 0
  }

  lemma MomentumTarget(context: Context, bars: seq<Bar>, k: nat)
    requires Priced(bars) && LOOKBACK <= k < |bars|
    ensures Proposal(Some(Variant(MomentumSignal(context, PriceOnlyBaseline, bars, k))))
         == MomentumRule(bars[k].close, bars[k - LOOKBACK].close)
  {
    hide MomentumScore, StanceOf;
    MomentumTime(context, bars, k);
    MomentumStance(bars[k].close, bars[k - LOOKBACK].close);
  }

  // Bar j of the slice is the latest one from the fourth on whose close was out by t.
  ghost predicate LatestOut(slice: seq<Bar>, config: Config, t: Time, j: nat) {
    && LOOKBACK <= j < |slice|
    && slice[j].timestamp + config.Buffer() <= t
    && (j + 1 < |slice| ==> slice[j + 1].timestamp + config.Buffer() > t)
  }

  /**
   End to end, for any slice, window and buffer: at each bar a run of the momentum variant
   follows the 1.25% rule on the latest slice bar, from the fourth on, whose close was out by
   then, against the close three slice bars earlier; and proposes nothing while there is none.
   */
  lemma PriceOnlyProposals(context: Context, inputs: StrategyInputs, slice: Slice, config: Config, i: nat, j: nat)
    requires Priced(inputs.fixture) && Increasing(inputs.fixture) && Candidate in config.allowlist
    requires SliceBars(inputs.fixture, slice) != [] && Priced(SliceBars(inputs.fixture, slice))
    requires i < |WindowBars(BacktestInputs(inputs, []), config)|
    ensures
      var x := BacktestInputs(inputs, Materialize(PriceOnlyBaseline, context, inputs, slice));
      var bars, priced := WindowBars(x, config), SliceBars(inputs.fixture, slice);
      var t := bars[i].timestamp;
      && i < |bars|
      && (|priced| <= 3 || priced[3].timestamp + config.Buffer() > t ==> Proposals(Picks(x, config, bars))[i] == 0)
      && (LatestOut(priced, config, t, j) ==>
            Proposals(Picks(x, config, bars))[i] == MomentumRule(priced[j].close, priced[j - 3].close))
  {
    hide Select, MomentumSignal, MomentumRule;
    BarsBetweenIncreasing(inputs.fixture, slice.testStart, slice.testEnd);
    var priced := SliceBars(inputs.fixture, slice);
    var x := BacktestInputs(inputs, MomentumSignals(context, PriceOnlyBaseline, priced));
    var t := WindowBars(x, config)[i].timestamp;
    if |priced| <= LOOKBACK {
      SelectionWins(x, config, BuildCutoff(t));
      assert x.signals == [];
    } else if priced[LOOKBACK].timestamp + config.Buffer() > t {
      PriceOnlyPick(context, inputs, priced, config, t, LOOKBACK);
    }
    if LatestOut(priced, config, t, j) {
      PriceOnlyPick(context, inputs, priced, config, t, j);
      MomentumTarget(context, priced, j);
    }
  }

  /** With no buffer and the slice equal to the window, the rule compares each bar with the one three before it. */
  lemma PlainPriceOnly(context: Context, inputs: StrategyInputs, slice: Slice, config: Config, i: nat)
    requires Priced(inputs.fixture) && Increasing(inputs.fixture) && Candidate in config.allowlist
    requires config.Buffer() == 0 && slice == Slice(config.testStart, config.testEnd)
    requires Priced(SliceBars(inputs.fixture, slice)) && i < |SliceBars(inputs.fixture, slice)|
    ensures
      var x := BacktestInputs(inputs, Materialize(PriceOnlyBaseline, context, inputs, slice));
      var bars := WindowBars(x, config);
      && bars == SliceBars(inputs.fixture, slice)
      && Proposals(Picks(x, config, bars))[i] == if i < 3 then 0 else MomentumRule(bars[i].close, bars[i - 3].close)
  {
    hide Picks, Materialize, MomentumRule;
    BarsBetweenIncreasing(inputs.fixture, slice.testStart, slice.testEnd);
    var bars := SliceBars(inputs.fixture, slice);
    PriceOnlyProposals(context, inputs, slice, config, i, i);
    assert i + 1 < |bars| ==> bars[i].timestamp < bars[i + 1].timestamp;
    assert i < 3 < |bars| ==> bars[i].timestamp < bars[3].timestamp;
  }

  // ---------- What the other variants emit and trade on ----------

  /** The naive variant emits its one neutral signal, the text variant one signal per text of the slice. */
  lemma MaterializedExact(context: Context, inputs: StrategyInputs, slice: Slice, j: nat)
    requires SliceBars(inputs.fixture, slice) != [] && Priced(SliceBars(inputs.fixture, slice))
    ensures
      var signals, first := Materialize(NaiveBaseline, context, inputs, slice), SliceBars(inputs.fixture, slice)[0];
      && |signals| == 1 && signals[0].score == 0.0 && signals[0].stance == Monitor
      && Carries(signals[0], context, NaiveBaseline, first.timestamp, [], [context.priceSnapshot], Suffix.HoldCash)
    ensures
      var signals, notes := Materialize(TextOnlyBaseline, context, inputs, slice), SliceTexts(inputs.textSignals, slice);
      && |signals| == |notes|
      && (j < |notes| ==>
            && signals[j].score == notes[j].score
            && Carries(signals[j], context, TextOnlyBaseline, notes[j].effectiveAt, [notes[j].id], [context.textSnapshot],
                       BySource(notes[j].id)))
  {
    NaiveExact(context, NaiveBaseline, SliceBars(inputs.fixture, slice));
    if j < |SliceTexts(inputs.textSignals, slice)| {
      TextExact(context, TextOnlyBaseline, inputs.textSignals, slice, j);
    }
    hide NaiveSignals, TextSignals, SliceTexts, SliceBars, Carries;
    SignalCount(context, TextOnlyBaseline, SliceTexts(inputs.textSignals, slice));
  }

  lemma SignalCount(context: Context, family: Family, notes: seq<ResearchSignal>)
    ensures |TextSignals(context, family, notes)| == |notes|
  {
  }

  // Signal j is the latest of an ordered list to be out by t.
  ghost predicate LatestSignal(signals: seq<VariantSignal>, config: Config, t: Time, j: nat) {
    && j < |signals| && signals[j].effectiveAt + config.Buffer() <= t
    && (j + 1 < |signals| ==> signals[j + 1].effectiveAt + config.Buffer() > t)
  }

  lemma InOrder(signals: seq<VariantSignal>, a: nat, b: nat)
    requires StrictlyLater(signals) && a <= b < |signals|
    ensures signals[a].effectiveAt <= signals[b].effectiveAt
    ensures a < b ==> signals[a].effectiveAt < signals[b].effectiveAt
  {
  }

  // The pick is one of the signals, qualifies, and no qualifying one is effective later.
  lemma PickIndex(x: Inputs, signals: seq<VariantSignal>, config: Config, t: Time) returns (b: nat)
    requires x.signals == AsComparable(signals)
    ensures
      match Select(x, config, BuildCutoff(t))
      case None => forall m :: 0 <= m < |signals| ==> !Qualifies(x, config, BuildCutoff(t), Variant(signals[m]))
      case Some(s) =>
        && b < |signals| && s == Variant(signals[b]) && Qualifies(x, config, BuildCutoff(t), Variant(signals[b]))
        && forall m :: 0 <= m < |signals| && Qualifies(x, config, BuildCutoff(t), Variant(signals[m])) ==>
             signals[m].effectiveAt <= signals[b].effectiveAt
  {
    SelectionExact(x, config, BuildCutoff(t));
    var pick := Select(x, config, BuildCutoff(t));
    b := 0;
    if pick.Some? {
      assert pick.value in x.signals;
      b :| 0 <= b < |x.signals| && x.signals[b] == pick.value;
    }
    hide Qualifies, Select, CodePointLeq;
  }

  /** Where every signal qualifies as soon as it is out, the one picked is the latest out. */
  lemma LatestPick(x: Inputs, signals: seq<VariantSignal>, config: Config, t: Time, j: nat)
    requires x.signals == AsComparable(signals) && StrictlyLater(signals)
    requires forall m :: 0 <= m < |signals| ==>
               (Qualifies(x, config, BuildCutoff(t), Variant(signals[m])) <==> signals[m].effectiveAt + config.Buffer() <= t)
    ensures signals == [] || signals[0].effectiveAt + config.Buffer() > t ==> Select(x, config, BuildCutoff(t)) == None
    ensures LatestSignal(signals, config, t, j) ==> Select(x, config, BuildCutoff(t)) == Some(Variant(signals[j]))
  {
    hide *;
    var b := PickIndex(x, signals, config, t);
    LatestMeans(signals, config, t, j);
    if Select(x, config, BuildCutoff(t)).Some? {
      InOrder(signals, 0, b);
      if j + 1 < |signals| && j + 1 <= b {
        InOrder(signals, j + 1, b);
      }
      if b < j < |signals| {
        InOrder(signals, b, j);
      }
    }
  }

  lemma LatestMeans(signals: seq<VariantSignal>, config: Config, t: Time, j: nat)
    ensures LatestSignal(signals, config, t, j) <==>
              && j < |signals| && signals[j].effectiveAt + config.Buffer() <= t
              && (j + 1 < |signals| ==> signals[j + 1].effectiveAt + config.Buffer() > t)
  {
  }

  // Each text of the slice is known, and its features were out by the time it became effective.
  ghost predicate TextsGrounded(inputs: StrategyInputs, slice: Slice) {
    forall note :: note in SliceTexts(inputs.textSignals, slice) ==> Grounded(inputs, note)
  }

  ghost predicate Grounded(inputs: StrategyInputs, note: ResearchSignal) {
    && note.id in inputs.researchById
    && forall f :: f in inputs.researchById[note.id].featureIds ==>
         f in inputs.featureAvailableAt && inputs.featureAvailableAt[f] <= note.effectiveAt
  }

  lemma MixQualifies(context: Context, inputs: StrategyInputs, signals: seq<VariantSignal>, config: Config, t: Time,
                     m: nat, note: ResearchSignal, move: VariantSignal)
    requires m < |signals| && Candidate in config.allowlist && Grounded(inputs, note)
    requires note.effectiveAt <= move.effectiveAt && Mixes(signals[m], context, CombinedBaseline, note, move)
    ensures Qualifies(BacktestInputs(inputs, signals), config, BuildCutoff(t), Variant(signals[m]))
       <==> signals[m].effectiveAt + config.Buffer() <= t
  {
    var x, s := BacktestInputs(inputs, signals), Variant(signals[m]);
    BufferExact(config);
    assert x.signals[m] == s;
    if signals[m].effectiveAt + config.Buffer() <= t {
      forall f | DependsOn(x, s, f)
        ensures FeatureReady(x, f, t)
      {
        assert s.variant.sourceIds == [note.id];
      }
    }
  }

  lemma MixedQualifies(context: Context, inputs: StrategyInputs, slice: Slice, config: Config, t: Time, m: nat)
    requires Increasing(inputs.fixture) && Candidate in config.allowlist && TextsGrounded(inputs, slice)
    requires Priced(SliceBars(inputs.fixture, slice))
    requires m < |BlendSignals(context, CombinedBaseline, inputs, slice)|
    ensures
      var out := BlendSignals(context, CombinedBaseline, inputs, slice);
      Qualifies(BacktestInputs(inputs, out), config, BuildCutoff(t), Variant(out[m]))
      <==> out[m].effectiveAt + config.Buffer() <= t
  {
    hide BlendSignals, SliceBars, SliceTexts, Qualifies, Mixes, Grounded, MomentumSignals, StrictlyLater, UnmixedBefore;
    var k := BlendPaired(context, CombinedBaseline, inputs, slice, m);
    var out := BlendSignals(context, CombinedBaseline, inputs, slice);
    var notes, moves := SliceTexts(inputs.textSignals, slice),
                        MomentumSignals(context, CombinedBaseline, SliceBars(inputs.fixture, slice));
    assert notes[k] in notes;
    MixQualifies(context, inputs, out, config, t, m, notes[k], moves[|moves| - |out| + m]);
  }

  lemma MixedOrdered(context: Context, inputs: StrategyInputs, slice: Slice)
    requires Increasing(inputs.fixture) && Priced(SliceBars(inputs.fixture, slice))
    ensures StrictlyLater(BlendSignals(context, CombinedBaseline, inputs, slice))
  {
    hide BlendSignals, SliceBars, SliceTexts, Mixes, MomentumSignals;
    if BlendSignals(context, CombinedBaseline, inputs, slice) != [] {
      BlendExact(context, CombinedBaseline, inputs, slice, 0);
    }
  }

  lemma MixedStance(context: Context, inputs: StrategyInputs, slice: Slice, j: nat)
    requires Increasing(inputs.fixture) && Priced(SliceBars(inputs.fixture, slice))
    requires j < |BlendSignals(context, CombinedBaseline, inputs, slice)|
    ensures
      var s := BlendSignals(context, CombinedBaseline, inputs, slice)[j];
      Proposal(Some(Variant(s))) == if s.score >= 0.25 then 1 else if s.score <= -0.25 then -1 else 0
  {
    hide BlendSignals, SliceBars, SliceTexts, MomentumSignals, StrictlyLater, UnmixedBefore;
    var k := BlendPaired(context, CombinedBaseline, inputs, slice, j);
  }

  lemma NothingProposed()
    ensures Proposal(None) == 0
  {
  }

  lemma ComparableSignals(inputs: StrategyInputs, signals: seq<VariantSignal>)
    ensures BacktestInputs(inputs, signals).signals == AsComparable(signals)
  {
  }

  lemma CombinedPick(context: Context, inputs: StrategyInputs, slice: Slice, config: Config, t: Time, j: nat)
    requires Increasing(inputs.fixture) && Candidate in config.allowlist && TextsGrounded(inputs, slice)
    requires Priced(SliceBars(inputs.fixture, slice))
    ensures
      var out := BlendSignals(context, CombinedBaseline, inputs, slice);
      var pick := Select(BacktestInputs(inputs, out), config, BuildCutoff(t));
      && (out == [] || out[0].effectiveAt + config.Buffer() > t ==> Proposal(pick) == 0)
      && (LatestSignal(out, config, t, j) ==>
            && j < |out|
            && Proposal(pick) == (if out[j].score >= 0.25 then 1 else if out[j].score <= -0.25 then -1 else 0))
  {
    hide *;
    var out := BlendSignals(context, CombinedBaseline, inputs, slice);
    var x := BacktestInputs(inputs, out);
    ComparableSignals(inputs, out);
    forall m | 0 <= m < |out|
      ensures Qualifies(x, config, BuildCutoff(t), Variant(out[m])) <==> out[m].effectiveAt + config.Buffer() <= t
    {
      MixedQualifies(context, inputs, slice, config, t, m);
    }
    MixedOrdered(context, inputs, slice);
    LatestPick(x, out, config, t, j);
    NothingProposed();
    LatestMeans(out, config, t, j);
    if j < |out| {
      MixedStance(context, inputs, slice, j);
    }
  }

  lemma MaterializedBlend(context: Context, inputs: StrategyInputs, slice: Slice)
    requires SliceBars(inputs.fixture, slice) != [] && Priced(SliceBars(inputs.fixture, slice))
    ensures Materialize(CombinedBaseline, context, inputs, slice) == BlendSignals(context, CombinedBaseline, inputs, slice)
  {
    hide BlendSignals, SliceBars;
  }

  lemma SameWindow(inputs: StrategyInputs, signals: seq<VariantSignal>, config: Config)
    ensures WindowBars(BacktestInputs(inputs, signals), config) == WindowBars(BacktestInputs(inputs, []), config)
  {
    hide BarsBetween;
  }

  lemma ProposalAt(x: Inputs, config: Config, bars: seq<Bar>, i: nat)
    requires i < |bars|
    ensures Proposals(Picks(x, config, bars))[i] == Proposal(Select(x, config, BuildCutoff(bars[i].timestamp)))
  {
    hide Picks, Proposals, Proposal, Select;
  }

  /**
   End to end for the combined variant, over texts whose lineage is known and whose features
   were out in time: at each bar a run proposes what the latest mixed signal out by then calls
   for at the thresholds of a quarter, and nothing while there is none.
   */
  lemma CombinedProposals(context: Context, inputs: StrategyInputs, slice: Slice, config: Config, i: nat, j: nat)
    requires Increasing(inputs.fixture) && Candidate in config.allowlist && TextsGrounded(inputs, slice)
    requires SliceBars(inputs.fixture, slice) != [] && Priced(SliceBars(inputs.fixture, slice))
    requires i < |WindowBars(BacktestInputs(inputs, []), config)|
    ensures
      var out := Materialize(CombinedBaseline, context, inputs, slice);
      var x := BacktestInputs(inputs, out);
      var bars := WindowBars(x, config);
      && i < |bars|
      && (out == [] || out[0].effectiveAt + config.Buffer() > bars[i].timestamp ==>
            Proposals(Picks(x, config, bars))[i] == 0)
      && (LatestSignal(out, config, bars[i].timestamp, j) ==>
            Proposals(Picks(x, config, bars))[i]
            == (if out[j].score >= 0.25 then 1 else if out[j].score <= -0.25 then -1 else 0))
  {
    hide *;
    var out := Materialize(CombinedBaseline, context, inputs, slice);
    var x := BacktestInputs(inputs, out);
    MaterializedBlend(context, inputs, slice);
    SameWindow(inputs, out, config);
    var bars := WindowBars(x, config);
    CombinedPick(context, inputs, slice, config, bars[i].timestamp, j);
    ProposalAt(x, config, bars, i);
  }

  // ---------- The hold-cash baseline ----------

  lemma NeutralSignalsStayFlat(inputs: Inputs, config: Config)
    requires forall s :: s in inputs.signals ==> TargetOf(s.Stance()) == 0
    ensures AlwaysProposes(inputs, config, 0)
  {
    hide WindowBars, Select, Eligible;
    var bars := WindowBars(inputs, config);
    forall i | 0 <= i < |bars|
      ensures Proposal(Select(inputs, config, BuildCutoff(bars[i].timestamp))) == 0
    {
      SelectionWins(inputs, config, BuildCutoff(bars[i].timestamp));
    }
  }

  /**
   The naive variant never trades and ends where it started, equal to the flat baseline. It is
   refused for missing timing safety exactly when candidates are not allowed into the run.
   */
  lemma NaiveHoldsCash(context: Context, inputs: StrategyInputs, slice: Slice, config: Config, now: Time)
    requires ValidBars(inputs.fixture) && ValidConfig(config)
    requires SliceBars(inputs.fixture, slice) != [] && Priced(SliceBars(inputs.fixture, slice))
    ensures
      var x := BacktestInputs(inputs, Materialize(NaiveBaseline, context, inputs, slice));
      var result := Run(x, config, now);
      && (result.Ok? ==>
            && result.value.summary.tradeCount == 0
            && result.value.summary.endingValue == config.startingCash
            && result.value.summary.endingValue == result.value.benchmarks[0].endingValue)
      && (result != Err(TooFewBars) && result != Err(SignalSnapshotOutOfOrder) ==>
            (result == Err(NoTimingSafeSignal) <==> Candidate !in config.allowlist))
  {
    var x := BacktestInputs(inputs, Materialize(NaiveBaseline, context, inputs, slice));
    NaiveSignal(context, inputs, slice);
    var s := x.signals[0];
    assert x.signals == [s];
    NeutralSignalsStayFlat(x, config);
    NaiveRun(x, config, now, s);
  }

  lemma NaiveSignal(context: Context, inputs: StrategyInputs, slice: Slice)
    requires SliceBars(inputs.fixture, slice) != [] && Priced(SliceBars(inputs.fixture, slice))
    ensures
      var x := BacktestInputs(inputs, Materialize(NaiveBaseline, context, inputs, slice));
      && |x.signals| == 1 && x.fixture == inputs.fixture
      && x.signals[0].Stance() == Monitor && x.signals[0].Status() == Candidate && x.signals[0].Window().Some?
  {
  }

  lemma NaiveRun(x: Inputs, config: Config, now: Time, s: Signal)
    requires ValidBars(x.fixture) && ValidConfig(config) && x.signals == [s]
    requires s.Status() == Candidate && s.Window().Some? && AlwaysProposes(x, config, 0)
    ensures
      var result := Run(x, config, now);
      && (result.Ok? ==>
            && result.value.summary.tradeCount == 0
            && result.value.summary.endingValue == config.startingCash
            && result.value.summary.endingValue == result.value.benchmarks[0].endingValue)
      && (result != Err(TooFewBars) && result != Err(SignalSnapshotOutOfOrder) ==>
            (result == Err(NoTimingSafeSignal) <==> Candidate !in config.allowlist))
  {
    Runnable(x, config);
    hide Run, WindowBars, AlwaysProposes;
    if Run(x, config, now).Ok? {
      CompletedRun(x, config, now);
      CompletedBenchmarks(x, config, now);
      ConstantRun(x, config, now, 0);
      BenchmarkEquivalence(x, config, now);
    }
    RunOutcome(x, config, now);
    assert Windowed(config, s) <==> Candidate in config.allowlist;
    assert s in x.signals;
  }
}
