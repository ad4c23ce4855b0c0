/**
 The artifacts one backtest reads: price bars, research and variant signals, feature
 availability times, and the run configuration.

 Times are integers counting microseconds since the epoch in UTC; prices, cash and basis
 points are exact reals; identifiers are strings.
 */
module Market {
  import opened Wrappers
  import opened Sequences

  type Time = int

  const MINUTE: int := 60_000_000
  const DAY: int := 86_400_000_000

  // A number of bars between a decision and its fill.
  type Lag = k: int | 1 <= k witness 1

  function DayOf(t: Time): int {
    t / DAY
  }

  function Abs(x: real): (r: real)
    ensures r >= 0.0 && (r == x || r == -x)
  {
    if x < 0.0 then -x else x
  }

  // What one unit of traded notional costs.
  function RateOf(transactionBps: real, slippageBps: real): real {
    (transactionBps + slippageBps) / 10_000.0
  }

  /** One synthetic daily bar. `sessionOpen` is the exchange calendar's opening instant for the bar's date. */
  datatype Bar = Bar(timestamp: Time, sessionOpen: Time, open: real, close: real)

  ghost predicate ValidBars(bars: seq<Bar>) {
    && |bars| >= 2
    && Increasing(bars)
    && Priced(bars)
  }

  ghost predicate Increasing(bars: seq<Bar>) {
    forall i, j :: 0 <= i < j < |bars| ==> bars[i].timestamp < bars[j].timestamp
  }

  ghost predicate Priced(bars: seq<Bar>) {
    forall i :: 0 <= i < |bars| ==> bars[i].open > 0.0 && bars[i].close > 0.0
  }

  /** The bars dated first to last, both days included. */
  function BarsBetween(bars: seq<Bar>, first: int, last: int): seq<Bar> {
    Filter(bars, (b: Bar) => first <= DayOf(b.timestamp) <= last)
  }

  lemma DaysExact(t: Time, first: int, last: int)
    ensures first <= DayOf(t) <= last <==> first * 86_400_000_000 <= t < (last + 1) * 86_400_000_000
  {
  }

  /** A bar is kept exactly when it lies between the first day's start and the last day's end. */
  lemma BarsBetweenExact(bars: seq<Bar>, first: int, last: int, b: Bar)
    ensures b in BarsBetween(bars, first, last)
       <==> b in bars && first * 86_400_000_000 <= b.timestamp < (last + 1) * 86_400_000_000
  {
    DaysExact(b.timestamp, first, last);
    hide DayOf;
  }

  // How many bars of an ordered list come before t.
  function BarsBefore(bars: seq<Bar>, t: Time): (n: nat)
    requires Increasing(bars)
    ensures n <= |bars|
    ensures forall k :: 0 <= k < n ==> bars[k].timestamp < t
    ensures forall k :: n <= k < |bars| ==> t <= bars[k].timestamp
  {
    if bars == [] || t <= bars[0].timestamp then 0
    else
      assert forall k :: 1 <= k < |bars| ==> bars[1..][k - 1] == bars[k];
      1 + BarsBefore(bars[1..], t)
  }

  /**
   Of bars in increasing time the kept ones are one contiguous stretch: those before it are too
   early, those after it too late.
   */
  lemma BarsBetweenContiguous(bars: seq<Bar>, first: int, last: int) returns (low: nat, high: nat)
    requires Increasing(bars)
    ensures low <= high <= |bars| && BarsBetween(bars, first, last) == bars[low..high]
    ensures forall k :: 0 <= k < low ==> bars[k].timestamp < first * 86_400_000_000
    ensures forall k :: low <= k < |bars| ==> first * 86_400_000_000 <= bars[k].timestamp
    ensures forall k :: low <= k < high ==> bars[k].timestamp < (last + 1) * 86_400_000_000
    ensures forall k :: high <= k < |bars| ==> (last + 1) * 86_400_000_000 <= bars[k].timestamp
  {
    low := BarsBefore(bars, first * 86_400_000_000);
    var after := BarsBefore(bars, (last + 1) * 86_400_000_000);
    high := if after < low then low else after;
    Stretch(bars, first, last, low, high);
  }

  lemma SplitFilter(head: seq<Bar>, middle: seq<Bar>, tail: seq<Bar>, p: Bar -> bool)
    requires forall b :: b in head || b in tail ==> !p(b)
    requires forall b :: b in middle ==> p(b)
    ensures Filter(head + (middle + tail), p) == middle
  {
    hide Filter;
    FilterConcat(head, middle + tail, p);
    FilterConcat(middle, tail, p);
    FilterNone(head, p);
    FilterNone(tail, p);
    FilterAll(middle, p);
  }

  lemma Stretch(bars: seq<Bar>, first: int, last: int, low: nat, high: nat)
    requires low <= high <= |bars|
    requires forall k :: 0 <= k < low ==> bars[k].timestamp < first * 86_400_000_000
    requires forall k :: low <= k < high ==>
               first * 86_400_000_000 <= bars[k].timestamp < (last + 1) * 86_400_000_000
    requires forall k :: high <= k < |bars| ==> (last + 1) * 86_400_000_000 <= bars[k].timestamp
    ensures BarsBetween(bars, first, last) == bars[low..high]
  {
    var p := (b: Bar) => first <= DayOf(b.timestamp) <= last;
    var head, middle, tail := bars[..low], bars[low..high], bars[high..];
    forall b: Bar
      ensures p(b) <==> first * 86_400_000_000 <= b.timestamp < (last + 1) * 86_400_000_000
    {
      DaysExact(b.timestamp, first, last);
    }
    SplitFilter(head, middle, tail, p);
    hide DayOf, Filter;
    assert bars == head + (middle + tail);
  }

  lemma BarsBetweenIncreasing(bars: seq<Bar>, first: int, last: int)
    requires Increasing(bars)
    ensures Increasing(BarsBetween(bars, first, last))
  {
    var before := (a: Bar, b: Bar) => a.timestamp < b.timestamp;
    FilterSorted(bars, (b: Bar) => first <= DayOf(b.timestamp) <= last, before);
    var kept := BarsBetween(bars, first, last);
    forall i, j | 0 <= i < j < |kept|
      ensures kept[i].timestamp < kept[j].timestamp
    {
      assert before(kept[i], kept[j]);
    }
  }

  lemma BarsBetweenPriced(bars: seq<Bar>, first: int, last: int)
    requires Priced(bars)
    ensures Priced(BarsBetween(bars, first, last))
  {
    var kept := BarsBetween(bars, first, last);
    forall i | 0 <= i < |kept|
      ensures kept[i].open > 0.0 && kept[i].close > 0.0
    {
      assert kept[i] in bars;
    }
  }

  datatype Stance = Positive | Negative | Mixed | Monitor

  datatype SignalStatus = Candidate | Approved | Rejected | Expired

  datatype Family = NaiveBaseline | PriceOnlyBaseline | TextOnlyBaseline | CombinedBaseline

  datatype Window = Window(availableFrom: Time, availableUntil: Option<Time>)

  /** A research signal with the lineage fields the simulator revalidates. */
  datatype ResearchSignal = ResearchSignal(
    id: string,
    stance: Stance,
    score: real,
    effectiveAt: Time,
    window: Option<Window>,
    createdAt: Time,
    status: SignalStatus,
    featureIds: seq<string>,
    evidenceIds: seq<string>)

  /** A comparable signal emitted by a strategy variant. */
  datatype VariantSignal = VariantSignal(
    id: string,
    family: Family,
    stance: Stance,
    score: real,
    effectiveAt: Time,
    window: Option<Window>,
    createdAt: Time,
    status: SignalStatus,
    sourceIds: seq<string>,
    snapshotIds: seq<string>)

  datatype Signal = Research(research: ResearchSignal) | Variant(variant: VariantSignal) {
    function Id(): string {
      match this case Research(r) => r.id case Variant(v) => v.id
    }

    function Stance(): Stance {
      match this case Research(r) => r.stance case Variant(v) => v.stance
    }

    function Score(): real {
      match this case Research(r) => r.score case Variant(v) => v.score
    }

    function EffectiveAt(): Time {
      match this case Research(r) => r.effectiveAt case Variant(v) => v.effectiveAt
    }

    function Window(): Option<Window> {
      match this case Research(r) => r.window case Variant(v) => v.window
    }

    function CreatedAt(): Time {
      match this case Research(r) => r.createdAt case Variant(v) => v.createdAt
    }

    function Status(): SignalStatus {
      match this case Research(r) => r.status case Variant(v) => v.status
    }
  }

  /** Everything loaded for one company: signals, the lineage lookups, and the price fixture. */
  datatype Inputs = Inputs(
    signals: seq<Signal>,
    researchById: map<string, ResearchSignal>,
    featureAvailableAt: map<string, Time>,
    fixture: seq<Bar>)

  datatype Config = Config(
    testStart: int,
    testEnd: int,
    allowlist: set<SignalStatus>,
    startingCash: real,
    transactionBps: real,
    slippageBps: real,
    lag: Lag,
    bufferMinutes: Option<nat>)
  {
    function Buffer(): (b: int)
      ensures b >= 0
    {
      if bufferMinutes.Some? then bufferMinutes.value * MINUTE else 0
    }

    function Rate(): real {
      RateOf(transactionBps, slippageBps)
    }
  }

  /** The buffer is given in minutes and applied in microseconds; without one there is none. */
  lemma BufferExact(config: Config)
    ensures config.Buffer() == if config.bufferMinutes.Some? then config.bufferMinutes.value * 60_000_000 else 0
  {
  }

  ghost predicate ValidConfig(config: Config) {
    && config.startingCash > 0.0
    && config.transactionBps >= 0.0
    && config.slippageBps >= 0.0
  }
}
