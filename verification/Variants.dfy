/**
 The strategy variants compared by the ablation harness: the hold-cash baseline, text signals
 reused one for one, three-bar price momentum, and the fifty-fifty blend of the last two.
 */
module Variants {
  import opened Wrappers
  import opened Sequences
  import opened Market

  /** Inputs shared by all variants, and the dates they are evaluated on. */
  datatype StrategyInputs = StrategyInputs(
    textSignals: seq<ResearchSignal>,
    researchById: map<string, ResearchSignal>,
    featureAvailableAt: map<string, Time>,
    fixture: seq<Bar>)

  datatype Slice = Slice(testStart: int, testEnd: int)

  datatype SliceError = TooFewSliceBars

  // What a variant signal's canonical identifier is hashed from, besides its effective time.
  datatype Suffix = HoldCash | BySource(signalId: string) | AtBar(time: Time)

  /** What one materialization fixes: the identifier scheme, the snapshot names and the clock. */
  datatype Context = Context(mint: (Suffix, Time) -> string, textSnapshot: string, priceSnapshot: string, now: Time)

  const LOOKBACK: nat := 3

  // ---------- Scores ----------

  function Clamp(value: real, lower: real, upper: real): real {
    var capped := if value < upper then value else upper;
    if lower < capped then capped else lower
  }

  function StanceOf(score: real): Stance {
    if score >= 0.25 then Positive
    else if score <= -0.25 then Negative
    else Monitor
  }

  function MomentumScore(close: real, lookbackClose: real): (score: real)
    requires lookbackClose > 0.0
    ensures -1.0 <= score <= 1.0
  {
    Clamp((close / lookbackClose - 1.0) / 0.05, -1.0, 1.0)
  }

  /** The stance flips exactly at a move of one and a quarter percent over the lookback close. */
  lemma MomentumStance(close: real, lookbackClose: real)
    requires lookbackClose > 0.0
    ensures StanceOf(MomentumScore(close, lookbackClose)) == Positive <==> close >= 1.0125 * lookbackClose
    ensures StanceOf(MomentumScore(close, lookbackClose)) == Negative <==> close <= 0.9875 * lookbackClose
  {
    hide StanceOf, Clamp;
    RatioStance(close / lookbackClose);
    QuotientBound(close, lookbackClose, 1.0125);
    QuotientBound(close, lookbackClose, 0.9875);
  }

  lemma RatioStance(ratio: real)
    ensures StanceOf(Clamp((ratio - 1.0) / 0.05, -1.0, 1.0)) == Positive <==> ratio >= 1.0125
    ensures StanceOf(Clamp((ratio - 1.0) / 0.05, -1.0, 1.0)) == Negative <==> ratio <= 0.9875
  {
    var raw := (ratio - 1.0) / 0.05;
    assert raw <= -0.25 <==> ratio <= 0.9875;
    assert raw >= 0.25 <==> ratio >= 1.0125;
  }

  lemma QuotientBound(value: real, base: real, bound: real)
    requires base > 0.0
    ensures value / base >= bound <==> value >= bound * base
    ensures value / base <= bound <==> value <= bound * base
  {
    var ratio := value / base;
    assert ratio * base == value;
    if ratio > bound {
      assert (ratio - bound) * base > 0.0;
    } else if ratio < bound {
      assert (bound - ratio) * base > 0.0;
    }
  }

  /**
   Within five percent of the lookback close the score is twenty times the relative move; beyond
   that it is one or minus one.
   */
  lemma MomentumScoreExact(close: real, lookbackClose: real)
    requires lookbackClose > 0.0
    ensures
      var score := MomentumScore(close, lookbackClose);
      && (0.95 * lookbackClose <= close <= 1.05 * lookbackClose ==>
            score * lookbackClose == 20.0 * (close - lookbackClose))
      && (close > 1.05 * lookbackClose ==> score == 1.0)
      && (close < 0.95 * lookbackClose ==> score == -1.0)
  {
    hide Clamp;
    ClampedRatio(close / lookbackClose);
    QuotientBound(close, lookbackClose, 1.05);
    QuotientBound(close, lookbackClose, 0.95);
    Rescaled(close, lookbackClose);
  }

  lemma ClampedRatio(ratio: real)
    ensures
      var score := Clamp((ratio - 1.0) / 0.05, -1.0, 1.0);
      && (0.95 <= ratio <= 1.05 ==> score == 20.0 * (ratio - 1.0))
      && (ratio > 1.05 ==> score == 1.0)
      && (ratio < 0.95 ==> score == -1.0)
  {
    assert (ratio - 1.0) / 0.05 == 20.0 * (ratio - 1.0);
  }

  lemma Rescaled(value: real, base: real)
    requires base > 0.0
    ensures 20.0 * (value / base - 1.0) * base == 20.0 * (value - base)
  {
    var ratio := value / base;
    assert ratio * base == value;
    assert 20.0 * (ratio - 1.0) * base == 20.0 * (ratio * base - base);
  }

  // ---------- Building one signal ----------

  function Emit(context: Context, family: Family, effectiveAt: Time, score: real, sourceIds: seq<string>,
                snapshotIds: seq<string>, suffix: Suffix): VariantSignal
  {
    VariantSignal(context.mint(suffix, effectiveAt), family, StanceOf(score), score, effectiveAt,
                  Some(Window(effectiveAt, None)), context.now, Candidate, sourceIds, snapshotIds)
  }

  /**
   What every materialized signal carries besides its score: the identifier minted from its
   suffix and time, a window that opens when it becomes effective and never closes, candidate
   status, the given lineage, and the stance its score has at the thresholds of a quarter.
   */
  ghost predicate Carries(s: VariantSignal, context: Context, family: Family, effectiveAt: Time,
                          sourceIds: seq<string>, snapshotIds: seq<string>, suffix: Suffix) {
    && s.id == context.mint(suffix, effectiveAt)
    && s.family == family
    && s.effectiveAt == effectiveAt
    && s.window == Some(Window(effectiveAt, None))
    && s.createdAt == context.now
    && s.status == Candidate
    && s.sourceIds == sourceIds
    && s.snapshotIds == snapshotIds
    && (s.stance == Positive <==> s.score >= 0.25)
    && (s.stance == Negative <==> s.score <= -0.25)
    && (s.stance == Monitor <==> -0.25 < s.score < 0.25)
  }

  lemma EmitCarries(context: Context, family: Family, effectiveAt: Time, score: real, sourceIds: seq<string>,
                    snapshotIds: seq<string>, suffix: Suffix)
    ensures
      var s := Emit(context, family, effectiveAt, score, sourceIds, snapshotIds, suffix);
      Carries(s, context, family, effectiveAt, sourceIds, snapshotIds, suffix) && s.score == score
  {
  }

  // ---------- Slices ----------

  function SliceBars(fixture: seq<Bar>, slice: Slice): seq<Bar> {
    BarsBetween(fixture, slice.testStart, slice.testEnd)
  }

  predicate EarlierText(a: ResearchSignal, b: ResearchSignal) {
    a.effectiveAt <= b.effectiveAt
  }

  function SliceTexts(signals: seq<ResearchSignal>, slice: Slice): seq<ResearchSignal> {
    Filter(Sort(signals, EarlierText),
           (s: ResearchSignal) => slice.testStart <= DayOf(s.effectiveAt) <= slice.testEnd)
  }

  // ---------- The four variants ----------

  function NaiveSignals(context: Context, family: Family, bars: seq<Bar>): seq<VariantSignal>
    requires |bars| >= 1
  {
    [Emit(context, family, bars[0].timestamp, 0.0, [], [context.priceSnapshot], HoldCash)]
  }

  function AdaptText(context: Context, family: Family, s: ResearchSignal): VariantSignal {
    Emit(context, family, s.effectiveAt, s.score, [s.id], [context.textSnapshot], BySource(s.id))
  }

  function TextSignals(context: Context, family: Family, texts: seq<ResearchSignal>): (r: seq<VariantSignal>)
    ensures |r| == |texts|
    ensures forall i :: 0 <= i < |r| ==> r[i] == AdaptText(context, family, texts[i])
  {
    seq(|texts|, i requires 0 <= i < |texts| => AdaptText(context, family, texts[i]))
  }

  function MomentumSignal(context: Context, family: Family, bars: seq<Bar>, i: nat): VariantSignal
    requires LOOKBACK <= i < |bars| && Priced(bars)
  {
    Emit(context, family, bars[i].timestamp, MomentumScore(bars[i].close, bars[i - LOOKBACK].close), [],
         [context.priceSnapshot], AtBar(bars[i].timestamp))
  }

  // One signal per bar from the fourth on.
  function MomentumSignals(context: Context, family: Family, bars: seq<Bar>): (r: seq<VariantSignal>)
    requires Priced(bars)
    ensures |r| == if |bars| > LOOKBACK then |bars| - LOOKBACK else 0
    ensures forall j :: 0 <= j < |r| ==> r[j] == MomentumSignal(context, family, bars, j + LOOKBACK)
  {
    if |bars| <= LOOKBACK then []
    else
      seq(|bars| - LOOKBACK,
          j requires 0 <= j < |bars| - LOOKBACK => MomentumSignal(context, family, bars, j + LOOKBACK))
  }

  predicate EarlierSignal(a: VariantSignal, b: VariantSignal) {
    a.effectiveAt <= b.effectiveAt
  }

  function BlendScore(text: real, price: real): (score: real)
    ensures -1.0 <= score <= 1.0
  {
    Clamp(0.5 * text + 0.5 * price, -1.0, 1.0)
  }

  function Blend(context: Context, family: Family, text: VariantSignal, price: VariantSignal): VariantSignal {
    Emit(context, family, price.effectiveAt, BlendScore(text.score, price.score), text.sourceIds,
         [context.textSnapshot, context.priceSnapshot], AtBar(price.effectiveAt))
  }

  function TextsBy(texts: seq<VariantSignal>, t: Time): seq<VariantSignal> {
    Filter(texts, (s: VariantSignal) => s.effectiveAt <= t)
  }

  // The nested filter: every price signal searches the whole text list again.
  function NestedBlend(context: Context, family: Family, texts: seq<VariantSignal>, prices: seq<VariantSignal>, k: nat):
    seq<VariantSignal>
    requires k <= |prices|
  {
    if k == 0 then []
    else
      var eligible := TextsBy(texts, prices[k - 1].effectiveAt);
      NestedBlend(context, family, texts, prices, k - 1)
      + (if eligible == [] then [] else [Blend(context, family, eligible[|eligible| - 1], prices[k - 1])])
  }

  // ---------- The executors ----------

  /** Three-bar momentum over the slice, bar by bar. */
  method MaterializeMomentum(context: Context, family: Family, fixture: seq<Bar>, slice: Slice)
    returns (r: Result<seq<VariantSignal>, SliceError>)
    requires Priced(fixture)
    ensures |SliceBars(fixture, slice)| < 2 ==> r == Err(TooFewSliceBars)
    ensures |SliceBars(fixture, slice)| >= 2 ==>
              Priced(SliceBars(fixture, slice))
              && r == Ok(MomentumSignals(context, family, SliceBars(fixture, slice)))
  {
    BarsBetweenPriced(fixture, slice.testStart, slice.testEnd);
    var bars := SliceBars(fixture, slice);
    if |bars| < 2 {
      return Err(TooFewSliceBars);
    }
    var signals: seq<VariantSignal> := [];
    for i := 0 to |bars|
      invariant |signals| == if i > LOOKBACK then i - LOOKBACK else 0
      invariant forall j :: 0 <= j < |signals| ==> signals[j] == MomentumSignal(context, family, bars, j + LOOKBACK)
    {
      if i < LOOKBACK {
        continue;
      }
      var score := MomentumScore(bars[i].close, bars[i - LOOKBACK].close);
      signals := signals + [Emit(context, family, bars[i].timestamp, score, [], [context.priceSnapshot],
                                 AtBar(bars[i].timestamp))];
    }
    assert signals == MomentumSignals(context, family, bars);
    return Ok(signals);
  }

  /**
   `_CombinedBaselineExecutor.materialize_signals`: its loop over price signals searches the
   whole text list each time.
   */
  method MaterializeBlend(context: Context, family: Family, inputs: StrategyInputs, slice: Slice)
    returns (r: Result<seq<VariantSignal>, SliceError>)
    requires Priced(inputs.fixture)
    ensures |SliceBars(inputs.fixture, slice)| < 2 ==> r == Err(TooFewSliceBars)
    ensures |SliceBars(inputs.fixture, slice)| >= 2 ==>
              Priced(SliceBars(inputs.fixture, slice))
              && r == Ok(BlendSignals(context, family, inputs, slice))
  {
    hide SliceTexts, SliceBars, Blend, Emit, Sort, TextSignals, MomentumSignals, TextsBy, Priced;
    BarsBetweenPriced(inputs.fixture, slice.testStart, slice.testEnd);
    var textResult := TextSignals(context, family, SliceTexts(inputs.textSignals, slice));
    var priceResult := MaterializeMomentum(context, family, inputs.fixture, slice);
    if priceResult.Err? {
      return priceResult;
    }
    var texts := Sort(textResult, EarlierSignal);
    var prices := priceResult.value;
    var combined: seq<VariantSignal> := [];
    for k := 0 to |prices|
      invariant combined == NestedBlend(context, family, texts, prices, k)
    {
      var eligible := TextsBy(texts, prices[k].effectiveAt);
      if eligible != [] {
        combined := combined + [Blend(context, family, eligible[|eligible| - 1], prices[k])];
      }
    }
    return Ok(combined);
  }

  function BlendSignals(context: Context, family: Family, inputs: StrategyInputs, slice: Slice): seq<VariantSignal>
    requires Priced(SliceBars(inputs.fixture, slice))
  {
    var texts := Sort(TextSignals(context, family, SliceTexts(inputs.textSignals, slice)), EarlierSignal);
    var prices := MomentumSignals(context, family, SliceBars(inputs.fixture, slice));
    NestedBlend(context, family, texts, prices, |prices|)
  }

  // ---------- Momentum ----------

  ghost predicate StrictlyLater(signals: seq<VariantSignal>) {
    forall i, j :: 0 <= i < j < |signals| ==> signals[i].effectiveAt < signals[j].effectiveAt
  }

  lemma MomentumInOrder(context: Context, family: Family, bars: seq<Bar>)
    requires Priced(bars) && Increasing(bars)
    ensures StrictlyLater(MomentumSignals(context, family, bars))
  {
    hide MomentumScore, StanceOf;
  }

  /**
   One signal per bar after the three warm-up bars, in strictly increasing time. Its score is
   twenty times the relative move over three bars, cut off at one and minus one; its stance
   flips at a move of 1.25%.
   */
  lemma MomentumShape(context: Context, family: Family, bars: seq<Bar>, j: nat)
    requires Priced(bars) && Increasing(bars)
    requires j < |MomentumSignals(context, family, bars)|
    ensures |MomentumSignals(context, family, bars)| == |bars| - 3
    ensures StrictlyLater(MomentumSignals(context, family, bars))
    ensures
      var s, before, now := MomentumSignals(context, family, bars)[j], bars[j].close, bars[j + 3].close;
      && Carries(s, context, family, bars[j + 3].timestamp, [], [context.priceSnapshot], AtBar(bars[j + 3].timestamp))
      && (0.95 * before <= now <= 1.05 * before ==> s.score * before == 20.0 * (now - before))
      && (now > 1.05 * before ==> s.score == 1.0)
      && (now < 0.95 * before ==> s.score == -1.0)
      && (s.stance == Positive <==> now >= 1.0125 * before)
      && (s.stance == Negative <==> now <= 0.9875 * before)
  {
    MomentumInOrder(context, family, bars);
    MomentumStance(bars[j + 3].close, bars[j].close);
    MomentumScoreExact(bars[j + 3].close, bars[j].close);
    hide MomentumScore, StanceOf, Carries;
    var t := bars[j + 3].timestamp;
    EmitCarries(context, family, t, MomentumScore(bars[j + 3].close, bars[j].close), [], [context.priceSnapshot], AtBar(t));
  }

  // ---------- The blend is a single-pass merge ----------

  // How many leading text signals are effective by t.
  function Leading(texts: seq<VariantSignal>, t: Time): (n: nat)
    ensures n <= |texts|
  {
    if texts == [] || texts[0].effectiveAt > t then 0 else 1 + Leading(texts[1..], t)
  }

  lemma AllLater(texts: seq<VariantSignal>, t: Time)
    requires Sorted(texts, EarlierSignal) && texts != [] && texts[0].effectiveAt > t
    ensures forall s :: s in texts ==> s.effectiveAt > t
  {
    forall s | s in texts
      ensures s.effectiveAt > t
    {
      var i :| 0 <= i < |texts| && texts[i] == s;
      assert i > 0 ==> EarlierSignal(texts[0], texts[i]);
    }
  }

  lemma {:induction false} TextsByIsPrefix(texts: seq<VariantSignal>, t: Time)
    requires Sorted(texts, EarlierSignal)
    ensures TextsBy(texts, t) == texts[..Leading(texts, t)]
  {
    hide Filter;
    if texts == [] {
      FilterNone(texts, (s: VariantSignal) => s.effectiveAt <= t);
    } else if texts[0].effectiveAt > t {
      AllLater(texts, t);
      FilterNone(texts, (s: VariantSignal) => s.effectiveAt <= t);
    } else {
      TextsByIsPrefix(texts[1..], t);
      PrefixExtends(texts, Leading(texts[1..], t), t);
    }
  }

  lemma PrefixExtends(texts: seq<VariantSignal>, n: nat, t: Time)
    requires texts != [] && texts[0].effectiveAt <= t && n < |texts|
    requires TextsBy(texts[1..], t) == texts[1..][..n]
    ensures TextsBy(texts, t) == texts[..n + 1]
  {
    assert texts[..n + 1] == [texts[0]] + texts[1..][..n];
  }

  lemma {:induction false} LeadingMonotone(texts: seq<VariantSignal>, t: Time, later: Time)
    requires t <= later
    ensures Leading(texts, t) <= Leading(texts, later)
  {
    if texts != [] && texts[0].effectiveAt <= t {
      LeadingMonotone(texts[1..], t, later);
    }
  }

  // Leading, resumed from a position already known to be passed.
  lemma {:induction false} LeadingResumes(texts: seq<VariantSignal>, taken: nat, t: Time, later: Time)
    requires t <= later && taken == Leading(texts, t)
    ensures Leading(texts, later) == taken + Leading(texts[taken..], later)
  {
    if taken > 0 {
      LeadingResumes(texts[1..], taken - 1, t, later);
      assert texts[1..][taken - 1..] == texts[taken..];
    } else {
      assert texts[0..] == texts;
    }
  }

  // One pass: `taken` texts have been passed so far and never need to be looked at again.
  function Merge(context: Context, family: Family, texts: seq<VariantSignal>, prices: seq<VariantSignal>, taken: nat):
    seq<VariantSignal>
    requires taken <= |texts|
    decreases |prices|
  {
    if prices == [] then []
    else
      var now := taken + Leading(texts[taken..], prices[0].effectiveAt);
      (if now == 0 then [] else [Blend(context, family, texts[now - 1], prices[0])])
      + Merge(context, family, texts, prices[1..], now)
  }

  /** The quadratic blend and the single-pass merge emit the same signals. */
  lemma NestedIsMerge(context: Context, family: Family, texts: seq<VariantSignal>, prices: seq<VariantSignal>)
    requires Sorted(texts, EarlierSignal) && StrictlyLater(prices)
    ensures NestedBlend(context, family, texts, prices, |prices|) == Merge(context, family, texts, prices, 0)
  {
    assert prices[0..] == prices && texts[0..] == texts;
    NestedMergeFrom(context, family, texts, prices, 0, 0);
    assert NestedBlend(context, family, texts, prices, 0) == [];
  }

  lemma {:induction false} NestedMergeFrom(context: Context, family: Family, texts: seq<VariantSignal>,
                                          prices: seq<VariantSignal>, k: nat, taken: nat)
    requires Sorted(texts, EarlierSignal) && StrictlyLater(prices) && k <= |prices|
    requires taken == if k == 0 then 0 else Leading(texts, prices[k - 1].effectiveAt)
    ensures NestedBlend(context, family, texts, prices, |prices|)
         == NestedBlend(context, family, texts, prices, k) + Merge(context, family, texts, prices[k..], taken)
    decreases |prices| - k
  {
    hide Blend, TextsBy, Leading, Sorted, NestedBlend;
    if k < |prices| {
      var price := prices[k];
      if k == 0 {
        assert texts[0..] == texts;
      } else {
        assert prices[k - 1].effectiveAt < price.effectiveAt;
        LeadingResumes(texts, taken, prices[k - 1].effectiveAt, price.effectiveAt);
      }
      var now := Leading(texts, price.effectiveAt);
      NestedMergeFrom(context, family, texts, prices, k + 1, now);
      NestedStep(context, family, texts, prices, k);
      assert prices[k..][1..] == prices[k + 1..];
      assert Merge(context, family, texts, prices[k..], taken)
          == Emitted(context, family, texts, price) + Merge(context, family, texts, prices[k + 1..], now);
    }
  }

  // What one price signal contributes.
  function Emitted(context: Context, family: Family, texts: seq<VariantSignal>, price: VariantSignal): seq<VariantSignal> {
    var upTo := Leading(texts, price.effectiveAt);
    if upTo == 0 then [] else [Blend(context, family, texts[upTo - 1], price)]
  }

  lemma NestedStep(context: Context, family: Family, texts: seq<VariantSignal>, prices: seq<VariantSignal>, k: nat)
    requires Sorted(texts, EarlierSignal) && k < |prices|
    ensures NestedBlend(context, family, texts, prices, k + 1)
         == NestedBlend(context, family, texts, prices, k) + Emitted(context, family, texts, prices[k])
  {
    hide Blend, TextsBy, Leading, Sorted;
    TextsByIsPrefix(texts, prices[k].effectiveAt);
  }

  // How many leading price signals come before the first text signal.
  function Unpaired(texts: seq<VariantSignal>, prices: seq<VariantSignal>): (n: nat)
    ensures n <= |prices|
  {
    if prices == [] || Leading(texts, prices[0].effectiveAt) > 0 then 0 else 1 + Unpaired(texts, prices[1..])
  }

  // Output j blends price signal skip + j with the last text signal effective by its time.
  ghost predicate PairedAt(context: Context, family: Family, texts: seq<VariantSignal>, prices: seq<VariantSignal>,
                           out: seq<VariantSignal>, skip: nat, j: nat)
    requires j < |out| && skip + |out| == |prices|
  {
    var upTo := Leading(texts, prices[skip + j].effectiveAt);
    upTo > 0 && out[j] == Blend(context, family, texts[upTo - 1], prices[skip + j])
  }

  lemma PairsAfterSkip(context: Context, family: Family, texts: seq<VariantSignal>, prices: seq<VariantSignal>,
                       out: seq<VariantSignal>, before: nat, skip: nat)
    requires prices != [] && before + |out| == |prices[1..]| && skip == before + 1
    requires forall j :: 0 <= j < |out| ==> PairedAt(context, family, texts, prices[1..], out, before, j)
    ensures forall j :: 0 <= j < |out| ==> PairedAt(context, family, texts, prices, out, skip, j)
  {
    hide Blend;
    forall j | 0 <= j < |out|
      ensures PairedAt(context, family, texts, prices, out, skip, j)
    {
      assert PairedAt(context, family, texts, prices[1..], out, before, j);
      assert prices[skip + j] == prices[1..][before + j];
    }
  }

  lemma PairsAfterTake(context: Context, family: Family, texts: seq<VariantSignal>, prices: seq<VariantSignal>,
                       out: seq<VariantSignal>)
    requires prices != [] && |out| == |prices| && PairedAt(context, family, texts, prices, out, 0, 0)
    requires forall j :: 0 <= j < |out[1..]| ==> PairedAt(context, family, texts, prices[1..], out[1..], 0, j)
    ensures forall j :: 0 <= j < |out| ==> PairedAt(context, family, texts, prices, out, 0, j)
  {
    hide Blend;
    forall j | 0 < j < |out|
      ensures PairedAt(context, family, texts, prices, out, 0, j)
    {
      assert PairedAt(context, family, texts, prices[1..], out[1..], 0, j - 1);
      assert prices[j] == prices[1..][j - 1] && out[j] == out[1..][j - 1];
    }
  }

  lemma PairedFromHere(texts: seq<VariantSignal>, prices: seq<VariantSignal>)
    requires StrictlyLater(prices) && prices != [] && Leading(texts, prices[0].effectiveAt) > 0
    ensures Unpaired(texts, prices[1..]) == 0
  {
    if |prices| > 1 {
      LeadingMonotone(texts, prices[0].effectiveAt, prices[1].effectiveAt);
    }
  }

  lemma MergeStep(context: Context, family: Family, texts: seq<VariantSignal>, prices: seq<VariantSignal>, taken: nat)
    requires prices != [] && taken <= |texts|
    ensures
      var now := taken + Leading(texts[taken..], prices[0].effectiveAt);
      && now <= |texts|
      && Merge(context, family, texts, prices, taken)
         == (if now == 0 then [] else [Blend(context, family, texts[now - 1], prices[0])])
            + Merge(context, family, texts, prices[1..], now)
  {
    hide Blend, Leading;
  }

  lemma UnpairedStep(texts: seq<VariantSignal>, prices: seq<VariantSignal>)
    requires prices != []
    ensures Unpaired(texts, prices)
         == if Leading(texts, prices[0].effectiveAt) > 0 then 0 else 1 + Unpaired(texts, prices[1..])
  {
    hide Leading;
  }

  // What the pairing says of a list of outputs.
  ghost predicate AllPaired(context: Context, family: Family, texts: seq<VariantSignal>, prices: seq<VariantSignal>,
                            out: seq<VariantSignal>, skip: nat) {
    && skip + |out| == |prices|
    && (forall i :: 0 <= i < skip ==> Leading(texts, prices[i].effectiveAt) == 0)
    && (forall j :: 0 <= j < |out| ==> PairedAt(context, family, texts, prices, out, skip, j))
  }

  lemma NothingMerged(context: Context, family: Family, texts: seq<VariantSignal>, taken: nat)
    requires taken <= |texts|
    ensures AllPaired(context, family, texts, [], Merge(context, family, texts, [], taken), Unpaired(texts, []))
  {
  }

  lemma LaterTail(prices: seq<VariantSignal>)
    requires StrictlyLater(prices) && prices != []
    ensures StrictlyLater(prices[1..])
    ensures forall i :: 0 <= i < |prices[1..]| ==> prices[0].effectiveAt <= prices[1..][i].effectiveAt
  {
  }

  lemma PairedAfterSkip(context: Context, family: Family, texts: seq<VariantSignal>, prices: seq<VariantSignal>,
                        out: seq<VariantSignal>, before: nat)
    requires prices != [] && Leading(texts, prices[0].effectiveAt) == 0
    requires AllPaired(context, family, texts, prices[1..], out, before)
    ensures AllPaired(context, family, texts, prices, out, before + 1)
  {
    hide Leading, PairedAt;
    PairsAfterSkip(context, family, texts, prices, out, before, before + 1);
    assert forall i :: 1 <= i < |prices| ==> prices[i] == prices[1..][i - 1];
  }

  lemma PairedAfterTake(context: Context, family: Family, texts: seq<VariantSignal>, prices: seq<VariantSignal>,
                        out: seq<VariantSignal>, rest: seq<VariantSignal>)
    requires prices != [] && AllPaired(context, family, texts, prices[1..], rest, 0)
    requires
      var now := Leading(texts, prices[0].effectiveAt);
      now > 0 && out == [Blend(context, family, texts[now - 1], prices[0])] + rest
    ensures AllPaired(context, family, texts, prices, out, 0)
  {
    hide Leading, Blend;
    assert out[1..] == rest;
    PairsAfterTake(context, family, texts, prices, out);
  }

  /**
   Price signals that find no text form a prefix. Each later one is paired with the last text
   signal effective by its time, so outputs follow price time and the text index never falls.
   */
  lemma {:induction false} BlendPairs(context: Context, family: Family, texts: seq<VariantSignal>,
                                     prices: seq<VariantSignal>, taken: nat, t: Time)
    requires Sorted(texts, EarlierSignal) && StrictlyLater(prices)
    requires taken == Leading(texts, t) && forall i :: 0 <= i < |prices| ==> t <= prices[i].effectiveAt
    ensures AllPaired(context, family, texts, prices, Merge(context, family, texts, prices, taken), Unpaired(texts, prices))
    decreases |prices|
  {
    hide *;
    if prices == [] {
      NothingMerged(context, family, texts, taken);
    } else {
      var rest, first := prices[1..], prices[0].effectiveAt;
      var now := Leading(texts, first);
      LaterTail(prices);
      LeadingResumes(texts, taken, t, first);
      BlendPairs(context, family, texts, rest, now, first);
      MergeStep(context, family, texts, prices, taken);
      UnpairedStep(texts, prices);
      var out, later := Merge(context, family, texts, prices, taken), Merge(context, family, texts, rest, now);
      if now == 0 {
        assert out == later;
        PairedAfterSkip(context, family, texts, prices, out, Unpaired(texts, rest));
      } else {
        PairedFromHere(texts, prices);
        PairedAfterTake(context, family, texts, prices, out, later);
      }
    }
  }

  lemma {:induction false} LeadingIsLatest(texts: seq<VariantSignal>, t: Time)
    requires Sorted(texts, EarlierSignal)
    ensures forall i :: 0 <= i < |texts| ==> (texts[i].effectiveAt <= t <==> i < Leading(texts, t))
  {
    TextsByIsPrefix(texts, t);
    if texts != [] {
      if texts[0].effectiveAt > t {
        forall i | 0 < i < |texts|
          ensures texts[i].effectiveAt > t
        {
          assert EarlierSignal(texts[0], texts[i]);
        }
      } else {
        LeadingIsLatest(texts[1..], t);
        forall i | 0 < i < |texts|
          ensures texts[i].effectiveAt <= t <==> i < Leading(texts, t)
        {
          assert texts[i] == texts[1..][i - 1];
        }
      }
    }
  }

  /** The clamp on the blend never bites when the text score is already in range. */
  lemma BlendClampIdle(text: real, price: real)
    requires -1.0 <= text <= 1.0 && -1.0 <= price <= 1.0
    ensures BlendScore(text, price) == 0.5 * text + 0.5 * price
  {
  }

  // ---------- The blend as materialized ----------

  lemma EarlierTextPreorder()
    ensures TotalPreorder(EarlierText)
  {
  }

  /** The text signals of a slice are those effective from its first day's start to its last day's end, in order of time. */
  lemma SliceTextsExact(signals: seq<ResearchSignal>, slice: Slice)
    ensures forall s :: s in SliceTexts(signals, slice) <==>
              s in signals && slice.testStart * 86_400_000_000 <= s.effectiveAt < (slice.testEnd + 1) * 86_400_000_000
    ensures forall i, j :: 0 <= i < j < |SliceTexts(signals, slice)| ==>
              SliceTexts(signals, slice)[i].effectiveAt <= SliceTexts(signals, slice)[j].effectiveAt
  {
    EarlierTextPreorder();
    SortSorted(signals, EarlierText);
    FilterSorted(Sort(signals, EarlierText),
                 (s: ResearchSignal) => slice.testStart <= DayOf(s.effectiveAt) <= slice.testEnd, EarlierText);
    var notes := SliceTexts(signals, slice);
    forall i, j | 0 <= i < j < |notes|
      ensures notes[i].effectiveAt <= notes[j].effectiveAt
    {
      assert EarlierText(notes[i], notes[j]);
    }
    forall s | s in signals
      ensures s in notes
         <==> slice.testStart * 86_400_000_000 <= s.effectiveAt < (slice.testEnd + 1) * 86_400_000_000
    {
      DaysExact(s.effectiveAt, slice.testStart, slice.testEnd);
    }
  }

  /** Text signals effective at the same instant keep the order in which they were loaded. */
  lemma SliceTextsStable(signals: seq<ResearchSignal>, slice: Slice, t: Time)
    ensures
      var tie := (s: ResearchSignal) => s.effectiveAt == t;
      Filter(SliceTexts(signals, slice), tie)
      == if slice.testStart * 86_400_000_000 <= t < (slice.testEnd + 1) * 86_400_000_000 then Filter(signals, tie) else []
  {
    var tie := (s: ResearchSignal) => s.effectiveAt == t;
    var inSlice := (s: ResearchSignal) => slice.testStart <= DayOf(s.effectiveAt) <= slice.testEnd;
    DaysExact(t, slice.testStart, slice.testEnd);
    var tied := Filter(signals, tie);
    if slice.testStart <= DayOf(t) <= slice.testEnd {
      FilterAll(tied, inSlice);
    } else {
      FilterNone(tied, inSlice);
    }
    hide Filter, Sort;
    SortStable(signals, EarlierText, tie);
    FilterCommutes(Sort(signals, EarlierText), inSlice, tie);
  }

  /** The text variant reuses each text of the slice one for one, with its time, its score and itself as the source. */
  lemma TextExact(context: Context, family: Family, signals: seq<ResearchSignal>, slice: Slice, j: nat)
    requires j < |SliceTexts(signals, slice)|
    ensures |TextSignals(context, family, SliceTexts(signals, slice))| == |SliceTexts(signals, slice)|
    ensures
      var note, s := SliceTexts(signals, slice)[j], TextSignals(context, family, SliceTexts(signals, slice))[j];
      Carries(s, context, family, note.effectiveAt, [note.id], [context.textSnapshot], BySource(note.id))
      && s.score == note.score
  {
    hide SliceTexts, StanceOf, Carries;
    var note := SliceTexts(signals, slice)[j];
    EmitCarries(context, family, note.effectiveAt, note.score, [note.id], [context.textSnapshot], BySource(note.id));
  }

  /** The naive variant emits one neutral signal at the first bar. */
  lemma NaiveExact(context: Context, family: Family, bars: seq<Bar>)
    requires |bars| >= 1
    ensures |NaiveSignals(context, family, bars)| == 1
    ensures
      var s := NaiveSignals(context, family, bars)[0];
      Carries(s, context, family, bars[0].timestamp, [], [context.priceSnapshot], HoldCash)
      && s.score == 0.0 && s.stance == Monitor
  {
  }

  /** Sorting the adapted text signals a second time changes nothing: the slice already is in order. */
  lemma SecondSortIdle(context: Context, family: Family, signals: seq<ResearchSignal>, slice: Slice)
    ensures
      var texts := TextSignals(context, family, SliceTexts(signals, slice));
      Sorted(texts, EarlierSignal) && Sort(texts, EarlierSignal) == texts
  {
    EarlierTextPreorder();
    SortSorted(signals, EarlierText);
    FilterSorted(Sort(signals, EarlierText),
                 (s: ResearchSignal) => slice.testStart <= DayOf(s.effectiveAt) <= slice.testEnd, EarlierText);
    var inSlice := SliceTexts(signals, slice);
    var texts := TextSignals(context, family, inSlice);
    forall i, j | 0 <= i < j < |texts|
      ensures EarlierSignal(texts[i], texts[j])
    {
      assert EarlierText(inSlice[i], inSlice[j]);
    }
    SortIdentity(texts, EarlierSignal);
  }

  // Text x is the latest one effective by t, the last of those tied.
  ghost predicate LatestBy(texts: seq<VariantSignal>, x: nat, t: Time) {
    && x < |texts| && texts[x].effectiveAt <= t
    && forall y :: x < y < |texts| ==> texts[y].effectiveAt > t
  }

  lemma EmittedPairs(context: Context, family: Family, texts: seq<VariantSignal>, prices: seq<VariantSignal>)
    requires Sorted(texts, EarlierSignal) && StrictlyLater(prices)
    ensures
      var out, skip := Merge(context, family, texts, prices, 0), Unpaired(texts, prices);
      AllPaired(context, family, texts, prices, out, skip) && StrictlyLater(out)
  {
    hide Blend, PairedAt;
    if prices != [] {
      var first := if texts == [] || prices[0].effectiveAt < texts[0].effectiveAt then prices[0].effectiveAt
                   else texts[0].effectiveAt - 1;
      NoneLeadingBefore(texts, first);
      BlendPairs(context, family, texts, prices, 0, first);
    }
    PairsInOrder(context, family, texts, prices, Merge(context, family, texts, prices, 0), Unpaired(texts, prices));
  }

  lemma PairsInOrder(context: Context, family: Family, texts: seq<VariantSignal>, prices: seq<VariantSignal>,
                     out: seq<VariantSignal>, skip: nat)
    requires StrictlyLater(prices) && skip + |out| == |prices|
    requires forall j :: 0 <= j < |out| ==> PairedAt(context, family, texts, prices, out, skip, j)
    ensures StrictlyLater(out)
  {
    hide Blend;
    forall j | 0 <= j < |out|
      ensures out[j].effectiveAt == prices[skip + j].effectiveAt
    {
      assert PairedAt(context, family, texts, prices, out, skip, j);
      BlendTime(context, family, texts[Leading(texts, prices[skip + j].effectiveAt) - 1], prices[skip + j]);
    }
  }

  lemma NoneLeadingBefore(texts: seq<VariantSignal>, t: Time)
    requires texts == [] || t < texts[0].effectiveAt
    ensures Leading(texts, t) == 0
  {
  }

  lemma BlendTime(context: Context, family: Family, text: VariantSignal, price: VariantSignal)
    ensures Blend(context, family, text, price).effectiveAt == price.effectiveAt
  {
  }

  /** Which text each output blends, when the texts are in order and the prices strictly so. */
  lemma NestedBlendExact(context: Context, family: Family, texts: seq<VariantSignal>, prices: seq<VariantSignal>, j: nat)
    returns (x: nat)
    requires Sorted(texts, EarlierSignal) && StrictlyLater(prices)
    requires j < |NestedBlend(context, family, texts, prices, |prices|)|
    ensures
      var out := NestedBlend(context, family, texts, prices, |prices|);
      var skip := |prices| - |out|;
      && skip >= 0 && StrictlyLater(out)
      && (forall i, y :: 0 <= i < skip && 0 <= y < |texts| ==> texts[y].effectiveAt > prices[i].effectiveAt)
      && x == Leading(texts, prices[skip + j].effectiveAt) - 1 && LatestBy(texts, x, prices[skip + j].effectiveAt)
      && out[j] == Blend(context, family, texts[x], prices[skip + j])
  {
    hide Blend, Merge, NestedBlend, Leading;
    NestedIsMerge(context, family, texts, prices);
    EmittedPairs(context, family, texts, prices);
    var out, skip := Merge(context, family, texts, prices, 0), Unpaired(texts, prices);
    forall i, y | 0 <= i < skip && 0 <= y < |texts|
      ensures texts[y].effectiveAt > prices[i].effectiveAt
    {
      LeadingIsLatest(texts, prices[i].effectiveAt);
    }
    LeadingIsLatest(texts, prices[skip + j].effectiveAt);
    assert PairedAt(context, family, texts, prices, out, skip, j);
    x := Leading(texts, prices[skip + j].effectiveAt) - 1;
  }

  lemma BlendOrdered(context: Context, family: Family, inputs: StrategyInputs, slice: Slice)
    requires Priced(SliceBars(inputs.fixture, slice)) && Increasing(inputs.fixture)
    ensures
      var texts := TextSignals(context, family, SliceTexts(inputs.textSignals, slice));
      var prices := MomentumSignals(context, family, SliceBars(inputs.fixture, slice));
      && Sorted(texts, EarlierSignal) && StrictlyLater(prices)
      && BlendSignals(context, family, inputs, slice) == NestedBlend(context, family, texts, prices, |prices|)
  {
    hide SliceTexts, TextSignals, MomentumSignals, NestedBlend, Sort, Sorted, StrictlyLater, Increasing, Priced;
    SecondSortIdle(context, family, inputs.textSignals, slice);
    BarsBetweenIncreasing(inputs.fixture, slice.testStart, slice.testEnd);
    MomentumInOrder(context, family, SliceBars(inputs.fixture, slice));
  }

  lemma LeadingInOrder(texts: seq<VariantSignal>, prices: seq<VariantSignal>, skip: nat, i: nat, j: nat)
    requires StrictlyLater(prices) && i <= j && skip + j < |prices|
    ensures Leading(texts, prices[skip + i].effectiveAt) <= Leading(texts, prices[skip + j].effectiveAt)
  {
    assert i < j ==> prices[skip + i].effectiveAt < prices[skip + j].effectiveAt;
    LeadingMonotone(texts, prices[skip + i].effectiveAt, prices[skip + j].effectiveAt);
  }

  // Text x is the latest one effective by t, the last of those tied.
  ghost predicate LatestNote(notes: seq<ResearchSignal>, x: nat, t: Time) {
    && x < |notes| && notes[x].effectiveAt <= t
    && forall y :: x < y < |notes| ==> notes[y].effectiveAt > t
  }

  /** The signal is the even mix of a text and a momentum signal, at the latter's time and resting on the former. */
  ghost predicate Mixes(s: VariantSignal, context: Context, family: Family, note: ResearchSignal, move: VariantSignal) {
    var mix := 0.5 * note.score + 0.5 * move.score;
    && Carries(s, context, family, move.effectiveAt, [note.id], [context.textSnapshot, context.priceSnapshot],
               AtBar(move.effectiveAt))
    && (-1.0 <= mix <= 1.0 ==> s.score == mix)
    && (mix > 1.0 ==> s.score == 1.0)
    && (mix < -1.0 ==> s.score == -1.0)
  }

  lemma BlendMixes(context: Context, family: Family, note: ResearchSignal, move: VariantSignal)
    ensures Mixes(Blend(context, family, AdaptText(context, family, note), move), context, family, note, move)
  {
    hide StanceOf, Carries;
    EmitCarries(context, family, move.effectiveAt, BlendScore(note.score, move.score), [note.id],
                [context.textSnapshot, context.priceSnapshot], AtBar(move.effectiveAt));
  }

  lemma TextTime(context: Context, family: Family, notes: seq<ResearchSignal>, y: nat)
    requires y < |notes|
    ensures TextSignals(context, family, notes)[y].effectiveAt == notes[y].effectiveAt
  {
  }

  lemma NoteBehind(context: Context, family: Family, notes: seq<ResearchSignal>, x: nat, t: Time)
    requires LatestBy(TextSignals(context, family, notes), x, t)
    ensures LatestNote(notes, x, t)
    ensures TextSignals(context, family, notes)[x] == AdaptText(context, family, notes[x])
  {
    var texts := TextSignals(context, family, notes);
    TextTime(context, family, notes, x);
    forall y | x < y < |notes|
      ensures notes[y].effectiveAt > t
    {
      TextTime(context, family, notes, y);
      assert texts[y].effectiveAt > t;
    }
  }

  /** Output j is the mix of text x, the latest one by then, with the momentum signal at the same distance from the end. */
  ghost predicate MixedFrom(context: Context, family: Family, notes: seq<ResearchSignal>, moves: seq<VariantSignal>,
                            out: seq<VariantSignal>, j: nat, x: nat) {
    && j < |out| <= |moves|
    && var move := moves[|moves| - |out| + j];
       LatestNote(notes, x, move.effectiveAt) && Mixes(out[j], context, family, notes[x], move)
  }

  // The momentum signals without an output all come before the first text.
  ghost predicate UnmixedBefore(notes: seq<ResearchSignal>, moves: seq<VariantSignal>, out: seq<VariantSignal>) {
    && |out| <= |moves|
    && forall i, y :: 0 <= i < |moves| - |out| && 0 <= y < |notes| ==> notes[y].effectiveAt > moves[i].effectiveAt
  }

  // The text behind output j, which is a later one for a later output.
  lemma BlendPaired(context: Context, family: Family, inputs: StrategyInputs, slice: Slice, j: nat) returns (x: nat)
    requires Increasing(inputs.fixture) && Priced(SliceBars(inputs.fixture, slice))
    requires j < |BlendSignals(context, family, inputs, slice)|
    ensures
      var notes := SliceTexts(inputs.textSignals, slice);
      var moves := MomentumSignals(context, family, SliceBars(inputs.fixture, slice));
      var out := BlendSignals(context, family, inputs, slice);
      && StrictlyLater(moves) && StrictlyLater(out) && |out| <= |moves|
      && UnmixedBefore(notes, moves, out) && MixedFrom(context, family, notes, moves, out, j, x)
      && x == Leading(TextSignals(context, family, notes), moves[|moves| - |out| + j].effectiveAt) - 1
  {
    hide *;
    BlendOrdered(context, family, inputs, slice);
    var notes, out := SliceTexts(inputs.textSignals, slice), BlendSignals(context, family, inputs, slice);
    var texts := TextSignals(context, family, notes);
    var moves := MomentumSignals(context, family, SliceBars(inputs.fixture, slice));
    x := NestedBlendExact(context, family, texts, moves, j);
    MixedMeans(context, family, notes, moves, out, j, x);
  }

  lemma MixedMeans(context: Context, family: Family, notes: seq<ResearchSignal>, moves: seq<VariantSignal>,
                   out: seq<VariantSignal>, j: nat, x: nat)
    requires j < |out| <= |moves|
    requires
      var texts := TextSignals(context, family, notes);
      var move := moves[|moves| - |out| + j];
      && LatestBy(texts, x, move.effectiveAt) && x < |texts| && out[j] == Blend(context, family, texts[x], move)
      && forall i, y :: 0 <= i < |moves| - |out| && 0 <= y < |texts| ==> texts[y].effectiveAt > moves[i].effectiveAt
    ensures UnmixedBefore(notes, moves, out) && MixedFrom(context, family, notes, moves, out, j, x)
  {
    hide TextSignals, Blend, Mixes, LatestBy, AdaptText;
    var move := moves[|moves| - |out| + j];
    NoteBehind(context, family, notes, x, move.effectiveAt);
    BlendMixes(context, family, notes[x], move);
    forall i, y | 0 <= i < |moves| - |out| && 0 <= y < |notes|
      ensures notes[y].effectiveAt > moves[i].effectiveAt
    {
      TextTime(context, family, notes, y);
    }
  }

  /**
   What the combined variant emits, in full. Momentum signals before the first text emit
   nothing. Each later one emits one signal at its time that mixes its score evenly with that
   of the latest text of the slice effective by then, the last one in load order on a tie; the
   mix is cut off at one and minus one, and its source is that text.
   */
  lemma BlendExact(context: Context, family: Family, inputs: StrategyInputs, slice: Slice, j: nat)
    requires Increasing(inputs.fixture) && Priced(SliceBars(inputs.fixture, slice))
    requires j < |BlendSignals(context, family, inputs, slice)|
    ensures
      var notes := SliceTexts(inputs.textSignals, slice);
      var moves := MomentumSignals(context, family, SliceBars(inputs.fixture, slice));
      var out := BlendSignals(context, family, inputs, slice);
      && StrictlyLater(out) && UnmixedBefore(notes, moves, out)
      && exists x: nat :: MixedFrom(context, family, notes, moves, out, j, x)
  {
    hide *;
    var x := BlendPaired(context, family, inputs, slice, j);
  }

  /** From one emitted signal to a later one the text used never moves back. */
  lemma BlendTextNeverRecedes(context: Context, family: Family, inputs: StrategyInputs, slice: Slice, i: nat, j: nat)
    requires Increasing(inputs.fixture) && Priced(SliceBars(inputs.fixture, slice))
    requires i <= j < |BlendSignals(context, family, inputs, slice)|
    ensures
      var notes := SliceTexts(inputs.textSignals, slice);
      var moves := MomentumSignals(context, family, SliceBars(inputs.fixture, slice));
      var out := BlendSignals(context, family, inputs, slice);
      exists x: nat, y: nat :: x <= y
        && MixedFrom(context, family, notes, moves, out, i, x) && MixedFrom(context, family, notes, moves, out, j, y)
  {
    hide *;
    var x := BlendPaired(context, family, inputs, slice, i);
    var y := BlendPaired(context, family, inputs, slice, j);
    var texts := TextSignals(context, family, SliceTexts(inputs.textSignals, slice));
    var moves := MomentumSignals(context, family, SliceBars(inputs.fixture, slice));
    LeadingInOrder(texts, moves, |moves| - |BlendSignals(context, family, inputs, slice)|, i, j);
  }
}
