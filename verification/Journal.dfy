/**
 The decision list and the event log of one run, as functions of the bars and of the signal
 picked at each bar, with what the log alone lets a reader reconstruct.
 */
module Journal {
  import opened Wrappers
  import opened Market
  import opened Timing
  import opened Schedule
  import opened Ledger

  datatype Action = OpenLong | OpenShort | ClosePosition | HoldPosition | HoldCash | SkipSignal

  // Canonical identifiers, as injective constructors over the parts they are hashed from.
  datatype DecisionBasis = BySignal(signalId: string) | ByAction(action: Action)
  datatype DecisionId = DecisionId(time: Time, basis: DecisionBasis)

  datatype BenchmarkKind = FlatBaseline | BuyAndHold

  datatype EventId =
    | RunStartedId
    | RunCompletedId
    | FillId(decision: DecisionId)
    | DecisionEventId(decision: DecisionId)
    | MarkId(time: Time)
    | BenchmarkId(benchmark: BenchmarkKind)

  datatype Decision = Decision(
    id: DecisionId,
    signalId: Option<string>,
    signalEffectiveAt: Option<Time>,
    cutoff: Cutoff,
    action: Action,
    targetUnits: int)

  datatype EventKind = RunStarted | FillEvent | DecisionEvent | MarkEvent | BenchmarkMark | RunCompleted

  datatype Event = Event(
    id: EventId,
    kind: EventKind,
    decision: Option<DecisionId>,
    time: Time,
    quantity: Option<int>,
    price: real,
    transactionCost: real,
    slippage: real,
    cashDelta: real,
    positionAfter: Option<int>)

  datatype Benchmark = Benchmark(kind: BenchmarkKind, startingValue: real, endingValue: real, simpleReturn: real)

  // ---------- Decisions ----------

  function TargetOf(stance: Stance): (u: int)
    ensures -1 <= u <= 1
  {
    match stance
    case Positive => 1
    case Negative => -1
    case Mixed => 0
    case Monitor => 0
  }

  function ActionFor(current: int, target: int): Action {
    if target == current then (if target == 0 then HoldCash else HoldPosition)
    else if target == 0 then ClosePosition
    else if target > 0 then OpenLong
    else OpenShort
  }

  function Proposal(pick: Option<Signal>): (u: int)
    ensures -1 <= u <= 1
  {
    if pick.Some? then TargetOf(pick.value.Stance()) else 0
  }

  function Proposals(picks: seq<Option<Signal>>): (p: seq<int>)
    ensures |p| == |picks|
    ensures forall i :: 0 <= i < |p| ==> p[i] == Proposal(picks[i])
    ensures UnitTargets(p)
  {
    seq(|picks|, i requires 0 <= i < |picks| => Proposal(picks[i]))
  }

  function TapeOf(bars: seq<Bar>, picks: seq<Option<Signal>>, config: Config): (t: Tape)
    ensures t.bars == bars && t.lag == config.lag
    ensures |bars| == |picks| >= 1 ==> t.Valid()
  {
    Tape(bars, Proposals(picks), config.lag, config.transactionBps, config.slippageBps, config.startingCash)
  }

  function DecisionIdOf(time: Time, pick: Option<Signal>, action: Action): DecisionId {
    DecisionId(time, if pick.Some? then BySignal(pick.value.Id()) else ByAction(action))
  }

  function ActionAt(picks: seq<Option<Signal>>, lag: Lag, i: nat): Action
    requires i < |picks|
  {
    var p := Proposals(picks);
    if Skipped(p, lag, i) then SkipSignal else ActionFor(Position(p, lag, i), p[i])
  }

  function DecisionAt(bars: seq<Bar>, picks: seq<Option<Signal>>, lag: Lag, i: nat): Decision
    requires i < |bars| == |picks|
  {
    var pick := picks[i];
    Decision(
      DecisionIdOf(bars[i].timestamp, pick, ActionAt(picks, lag, i)),
      if pick.Some? then Some(pick.value.Id()) else None,
      if pick.Some? then Some(pick.value.EffectiveAt()) else None,
      BuildCutoff(bars[i].timestamp),
      ActionAt(picks, lag, i),
      Target(Proposals(picks), lag, i))
  }

  function Decisions(bars: seq<Bar>, picks: seq<Option<Signal>>, lag: Lag, k: nat): (ds: seq<Decision>)
    requires k <= |bars| == |picks|
    ensures |ds| == k
    ensures forall i :: 0 <= i < k ==> ds[i] == DecisionAt(bars, picks, lag, i)
  {
    seq(k, i requires 0 <= i < k => DecisionAt(bars, picks, lag, i))
  }

  /** The action recorded says exactly how the decision moves the position it found. */
  lemma ActionMeaning(bars: seq<Bar>, picks: seq<Option<Signal>>, lag: Lag, i: nat)
    requires i < |bars| == |picks|
    ensures
      var d := DecisionAt(bars, picks, lag, i);
      var held := Position(Proposals(picks), lag, i);
      && (d.action.OpenLong? <==> d.targetUnits == 1 && held != 1)
      && (d.action.OpenShort? <==> d.targetUnits == -1 && held != -1)
      && (d.action.ClosePosition? <==> d.targetUnits == 0 && held != 0)
      && (d.action.SkipSignal? <==> Proposal(picks[i]) != held && i + lag >= |bars|)
      && (d.action.HoldPosition? <==> Proposal(picks[i]) == held != 0)
      && (d.action.HoldCash? <==> Proposal(picks[i]) == held == 0)
      && (d.action.SkipSignal? || d.action.HoldPosition? || d.action.HoldCash? <==> d.targetUnits == held)
  {
    UnitBounds(Proposals(picks), lag, i);
  }

  // ---------- Events ----------

  function StartEvent(bar: Bar): Event {
    Event(RunStartedId, RunStarted, None, bar.timestamp, Some(0), bar.open, 0.0, 0.0, 0.0, Some(0))
  }

  function FillAt(bars: seq<Bar>, picks: seq<Option<Signal>>, config: Config, i: nat): Event
    requires i < |bars| == |picks| && i >= config.lag
  {
    var tape := TapeOf(bars, picks, config);
    var origin := DecisionAt(bars, picks, config.lag, i - config.lag).id;
    Event(FillId(origin), FillEvent, Some(origin), bars[i].sessionOpen, Some(tape.FillQuantity(i)), bars[i].open,
          tape.TransactionCost(i), tape.Slippage(i), tape.CashDelta(i), Some(tape.Held(i + 1)))
  }

  function DecisionEventAt(bars: seq<Bar>, picks: seq<Option<Signal>>, config: Config, i: nat): Event
    requires i < |bars| == |picks|
  {
    var d := DecisionAt(bars, picks, config.lag, i);
    Event(DecisionEventId(d.id), DecisionEvent, Some(d.id), bars[i].timestamp, Some(d.targetUnits), bars[i].close,
          0.0, 0.0, 0.0, Some(TapeOf(bars, picks, config).Held(i + 1)))
  }

  function MarkAt(bars: seq<Bar>, picks: seq<Option<Signal>>, config: Config, i: nat): Event
    requires i < |bars| == |picks|
  {
    var held := TapeOf(bars, picks, config).Held(i + 1);
    Event(MarkId(bars[i].timestamp), MarkEvent, None, bars[i].timestamp, Some(held), bars[i].close,
          0.0, 0.0, 0.0, Some(held))
  }

  function FillEvents(bars: seq<Bar>, picks: seq<Option<Signal>>, config: Config, i: nat): seq<Event>
    requires i < |bars| == |picks|
  {
    if TapeOf(bars, picks, config).FilledAt(i) then [FillAt(bars, picks, config, i)] else []
  }

  // The log after k bars.
  function Events(bars: seq<Bar>, picks: seq<Option<Signal>>, config: Config, k: nat): seq<Event>
    requires k <= |bars| == |picks| && |bars| >= 1
  {
    if k == 0 then [StartEvent(bars[0])]
    else
      Events(bars, picks, config, k - 1)
      + FillEvents(bars, picks, config, k - 1)
      + [DecisionEventAt(bars, picks, config, k - 1), MarkAt(bars, picks, config, k - 1)]
  }

  // The bar buy-and-hold buys at: the first executable one, or the last when the lag reaches past the window.
  function FirstHeldBar(bars: seq<Bar>, lag: Lag): Bar
    requires bars != []
  {
    if lag < |bars| then bars[lag] else bars[|bars| - 1]
  }

  function Benchmarks(bars: seq<Bar>, config: Config): (bs: seq<Benchmark>)
    requires |bars| >= 1 && config.startingCash > 0.0
    ensures |bs| == 2 && bs[0].kind == FlatBaseline && bs[1].kind == BuyAndHold
  {
    var start := config.startingCash;
    var held := start + (bars[|bars| - 1].close - FirstHeldBar(bars, config.lag).open);
    [Benchmark(FlatBaseline, start, start, (start - start) / start),
     Benchmark(BuyAndHold, start, held, (held - start) / start)]
  }

  /**
   The two benchmarks of a run: staying in cash, and one unit from the open of the first
   executable bar, or of the last bar if there is none, to the final close. Each return is the
   change in value relative to the starting cash.
   */
  lemma BenchmarksExact(bars: seq<Bar>, config: Config)
    requires |bars| >= 1 && config.startingCash > 0.0
    ensures
      var flat, held := Benchmarks(bars, config)[0], Benchmarks(bars, config)[1];
      && flat.kind == FlatBaseline && held.kind == BuyAndHold
      && flat.startingValue == held.startingValue == flat.endingValue == config.startingCash
      && held.endingValue - held.startingValue
         == bars[|bars| - 1].close - (if config.lag < |bars| then bars[config.lag].open else bars[|bars| - 1].open)
      && flat.simpleReturn * flat.startingValue == flat.endingValue - flat.startingValue
      && held.simpleReturn * held.startingValue == held.endingValue - held.startingValue
  {
  }

  function BenchmarkEvent(bar: Bar, b: Benchmark): Event {
    Event(BenchmarkId(b.kind), BenchmarkMark, None, bar.timestamp, None, b.endingValue, 0.0, 0.0, 0.0, None)
  }

  function EndEvent(bar: Bar, held: int): Event {
    Event(RunCompletedId, RunCompleted, None, bar.timestamp, Some(held), bar.close, 0.0, 0.0, 0.0, Some(held))
  }

  function FullLog(bars: seq<Bar>, picks: seq<Option<Signal>>, config: Config): seq<Event>
    requires |bars| == |picks| >= 1 && config.startingCash > 0.0
  {
    var last := bars[|bars| - 1];
    var bs := Benchmarks(bars, config);
    Events(bars, picks, config, |bars|)
    + [BenchmarkEvent(last, bs[0]), BenchmarkEvent(last, bs[1]),
       EndEvent(last, TapeOf(bars, picks, config).Held(|bars|))]
  }

  // ---------- Prefixes of the log ----------

  lemma {:induction false} LogGrows(bars: seq<Bar>, picks: seq<Option<Signal>>, config: Config, j: nat, k: nat)
    requires j <= k <= |bars| == |picks| && |bars| >= 1
    ensures Events(bars, picks, config, j) <= Events(bars, picks, config, k)
    decreases k - j
  {
    hide FillEvents, DecisionEventAt, MarkAt;
    if j < k {
      LogGrows(bars, picks, config, j, k - 1);
    }
  }

  // ---------- What the log says of one bar ----------

  lemma {:induction false} EventsKept(bars: seq<Bar>, picks: seq<Option<Signal>>, config: Config, i: nat, k: nat)
    requires i < k <= |bars| == |picks|
    ensures forall e :: e in FillEvents(bars, picks, config, i) ==> e in Events(bars, picks, config, k)
    ensures DecisionEventAt(bars, picks, config, i) in Events(bars, picks, config, k)
    ensures MarkAt(bars, picks, config, i) in Events(bars, picks, config, k)
    decreases k
  {
    hide FillEvents, DecisionEventAt, MarkAt;
    if i < k - 1 {
      EventsKept(bars, picks, config, i, k - 1);
    } else {
      var d, m := DecisionEventAt(bars, picks, config, i), MarkAt(bars, picks, config, i);
      assert d in [d, m] && m in [d, m];
    }
  }

  lemma InFullLog(bars: seq<Bar>, picks: seq<Option<Signal>>, config: Config, i: nat)
    requires i < |bars| == |picks| && config.startingCash > 0.0
    ensures
      var log := FullLog(bars, picks, config);
      && (forall e :: e in FillEvents(bars, picks, config, i) ==> e in log)
      && DecisionEventAt(bars, picks, config, i) in log && MarkAt(bars, picks, config, i) in log
  {
    EventsKept(bars, picks, config, i, |bars|);
    hide Events, Benchmarks, DecisionEventAt, MarkAt, FillEvents;
  }

  lemma BarEventsExact(bars: seq<Bar>, picks: seq<Option<Signal>>, config: Config, i: nat)
    requires i < |bars| == |picks|
    ensures
      var held, d := Position(Proposals(picks), config.lag, i), DecisionAt(bars, picks, config.lag, i);
      && DecisionEventAt(bars, picks, config, i)
         == Event(DecisionEventId(d.id), DecisionEvent, Some(d.id), bars[i].timestamp, Some(d.targetUnits),
                  bars[i].close, 0.0, 0.0, 0.0, Some(held))
      && MarkAt(bars, picks, config, i)
         == Event(MarkId(bars[i].timestamp), MarkEvent, None, bars[i].timestamp, Some(held), bars[i].close,
                  0.0, 0.0, 0.0, Some(held))
  {
    hide DecisionAt, Proposals, Position;
  }

  /** The event of a fill at bar i: its quantity at the open, each charge on the notional at its own rate, the cash moved. */
  ghost predicate FillAsReported(e: Event, bars: seq<Bar>, picks: seq<Option<Signal>>, config: Config, i: nat)
    requires config.lag <= i < |bars| == |picks|
  {
    var p, origin := Proposals(picks), DecisionAt(bars, picks, config.lag, i - config.lag).id;
    var q := Quantity(p, config.lag, i);
    var notional := q as real * bars[i].open;
    && e.id == FillId(origin) && e.kind == FillEvent && e.decision == Some(origin)
    && e.time == bars[i].sessionOpen && e.quantity == Some(q) && e.price == bars[i].open
    && e.transactionCost == Abs(notional) * (config.transactionBps / 10_000.0)
    && e.slippage == Abs(notional) * (config.slippageBps / 10_000.0)
    && e.cashDelta == -(notional + e.transactionCost + e.slippage)
    && e.positionAfter == Some(Position(p, config.lag, i))
  }

  lemma FillExact(bars: seq<Bar>, picks: seq<Option<Signal>>, config: Config, i: nat)
    requires i < |bars| == |picks| && Filled(Proposals(picks), config.lag, i)
    ensures i >= config.lag && FillAsReported(FillAt(bars, picks, config, i), bars, picks, config, i)
    ensures FillAt(bars, picks, config, i) in FillEvents(bars, picks, config, i)
  {
    hide DecisionAt, Proposals, Position, Ordered, Abs, Quantity;
    var tape, e := TapeOf(bars, picks, config), FillAt(bars, picks, config, i);
    var notional := Quantity(Proposals(picks), config.lag, i) as real * bars[i].open;
    assert tape.Notional(i) == notional;
    hide Worth;
    assert e.transactionCost == Abs(notional) * (config.transactionBps / 10_000.0);
    assert e.slippage == Abs(notional) * (config.slippageBps / 10_000.0);
    hide Charge;
    assert e.cashDelta == -(notional + e.transactionCost + e.slippage);
    assert e in [e];
  }

  /**
   The log of a run says of each bar: if a fill was due, its quantity at the bar's open with the
   two charges on its notional at their own rates and the cash it moved; the decision at the
   close with the recorded target; and the position marked at the close.
   */
  lemma LogContents(bars: seq<Bar>, picks: seq<Option<Signal>>, config: Config, i: nat)
    requires i < |bars| == |picks| && config.startingCash > 0.0
    ensures
      var p, lag, log := Proposals(picks), config.lag, FullLog(bars, picks, config);
      var held, d := Position(p, lag, i), DecisionAt(bars, picks, lag, i);
      && (Filled(p, lag, i) ==> i >= lag && exists e :: e in log && FillAsReported(e, bars, picks, config, i))
      && Event(DecisionEventId(d.id), DecisionEvent, Some(d.id), bars[i].timestamp, Some(d.targetUnits), bars[i].close,
               0.0, 0.0, 0.0, Some(held)) in log
      && Event(MarkId(bars[i].timestamp), MarkEvent, None, bars[i].timestamp, Some(held), bars[i].close,
               0.0, 0.0, 0.0, Some(held)) in log
  {
    hide *;
    InFullLog(bars, picks, config, i);
    BarEventsExact(bars, picks, config, i);
    if Filled(Proposals(picks), config.lag, i) {
      FillExact(bars, picks, config, i);
    }
  }

  /** The log opens flat at the first open and closes with both benchmarks and the final position at the last close. */
  lemma LogEnds(bars: seq<Bar>, picks: seq<Option<Signal>>, config: Config)
    requires |bars| == |picks| >= 1 && config.startingCash > 0.0
    ensures
      var log, bs, last := FullLog(bars, picks, config), Benchmarks(bars, config), bars[|bars| - 1];
      var held := Position(Proposals(picks), config.lag, |bars| - 1);
      var n := |log|;
      && n >= 4
      && log[0] == Event(RunStartedId, RunStarted, None, bars[0].timestamp, Some(0), bars[0].open, 0.0, 0.0, 0.0, Some(0))
      && log[n - 3] == Event(BenchmarkId(FlatBaseline), BenchmarkMark, None, last.timestamp, None, bs[0].endingValue,
                             0.0, 0.0, 0.0, None)
      && log[n - 2] == Event(BenchmarkId(BuyAndHold), BenchmarkMark, None, last.timestamp, None, bs[1].endingValue,
                             0.0, 0.0, 0.0, None)
      && log[n - 1] == Event(RunCompletedId, RunCompleted, None, last.timestamp, Some(held), last.close,
                             0.0, 0.0, 0.0, Some(held))
  {
    LogGrows(bars, picks, config, 0, |bars|);
    BenchmarksExact(bars, config);
    hide Proposals, Position, Benchmarks, FillEvents, DecisionEventAt, MarkAt;
    assert Events(bars, picks, config, 0) == [StartEvent(bars[0])];
    hide Events;
  }

  // ---------- Replaying the log ----------

  function CashFlow(log: seq<Event>): real {
    if log == [] then 0.0 else CashFlow(log[..|log| - 1]) + log[|log| - 1].cashDelta
  }

  function FillFlow(log: seq<Event>): int {
    if log == [] then 0
    else FillFlow(log[..|log| - 1]) + FillPart(log[|log| - 1])
  }

  function CostFlow(log: seq<Event>): real {
    if log == [] then 0.0
    else CostFlow(log[..|log| - 1]) + log[|log| - 1].transactionCost + log[|log| - 1].slippage
  }

  // Every position the log states is the sum of the fills logged up to there.
  ghost predicate PositionsReplay(log: seq<Event>) {
    forall i :: 0 <= i < |log| && log[i].positionAfter.Some? ==>
      log[i].positionAfter.value == FillFlow(log[..i + 1])
  }

  function FillPart(e: Event): int {
    if e.kind.FillEvent? && e.quantity.Some? then e.quantity.value else 0
  }

  // The log accounts for the cash, the costs and the position reached, and for every position stated on the way.
  ghost predicate Replays(log: seq<Event>, start: real, cash: real, costs: real, held: int) {
    && start + CashFlow(log) == cash
    && CostFlow(log) == costs
    && FillFlow(log) == held
    && PositionsReplay(log)
  }

  lemma AppendReplays(log: seq<Event>, e: Event, start: real, cash: real, costs: real, held: int)
    requires Replays(log, start, cash, costs, held)
    requires e.positionAfter.Some? ==> e.positionAfter.value == held + FillPart(e)
    ensures Replays(log + [e], start, cash + e.cashDelta, costs + (e.transactionCost + e.slippage), held + FillPart(e))
  {
    var longer := log + [e];
    assert longer[..|longer| - 1] == log;
    forall i | 0 <= i < |longer| && longer[i].positionAfter.Some?
      ensures longer[i].positionAfter.value == FillFlow(longer[..i + 1])
    {
      if i < |log| {
        assert longer[..i + 1] == log[..i + 1];
        assert longer[i] == log[i];
      } else {
        assert longer[..i + 1] == longer;
      }
    }
  }

  // The event moves no cash, costs or units and states the position held, if any.
  ghost predicate Neutral(e: Event, held: int) {
    && e.cashDelta == 0.0 && e.transactionCost == 0.0 && e.slippage == 0.0 && FillPart(e) == 0
    && (e.positionAfter.Some? ==> e.positionAfter.value == held)
  }

  lemma AppendNeutral(log: seq<Event>, e: Event, start: real, cash: real, costs: real, held: int)
    requires Replays(log, start, cash, costs, held) && Neutral(e, held)
    ensures Replays(log + [e], start, cash, costs, held)
  {
    hide Replays;
    AppendReplays(log, e, start, cash, costs, held);
  }

  // What bar i's fill event carries is what the books move by.
  lemma FillMoves(bars: seq<Bar>, picks: seq<Option<Signal>>, config: Config, i: nat)
    requires i < |bars| == |picks|
    ensures
      var t := TapeOf(bars, picks, config);
      if FillEvents(bars, picks, config, i) == [] then
        t.Held(i + 1) == t.Held(i) && t.Cash(i + 1) == t.Cash(i) && t.Costs(i + 1) == t.Costs(i)
      else
        var e := FillEvents(bars, picks, config, i)[0];
        && FillEvents(bars, picks, config, i) == [e]
        && t.Held(i + 1) == t.Held(i) + FillPart(e) && e.positionAfter == Some(t.Held(i + 1))
        && t.Cash(i + 1) == t.Cash(i) + e.cashDelta
        && t.Costs(i + 1) == t.Costs(i) + (e.transactionCost + e.slippage)
  {
    NoFillOrFill(TapeOf(bars, picks, config), i);
    hide Proposals, DecisionAt, Tape.Held, Tape.FilledAt, Tape.FillQuantity, Tape.TransactionCost, Tape.Slippage,
         Tape.CashDelta;
  }

  lemma ReplayFill(bars: seq<Bar>, picks: seq<Option<Signal>>, config: Config, i: nat, log: seq<Event>)
    requires i < |bars| == |picks|
    requires
      var tape := TapeOf(bars, picks, config);
      Replays(log, config.startingCash, tape.Cash(i), tape.Costs(i), tape.Held(i))
    ensures
      var tape := TapeOf(bars, picks, config);
      Replays(log + FillEvents(bars, picks, config, i), config.startingCash, tape.Cash(i + 1), tape.Costs(i + 1),
              tape.Held(i + 1))
  {
    hide *;
    var tape, fills := TapeOf(bars, picks, config), FillEvents(bars, picks, config, i);
    FillMoves(bars, picks, config, i);
    if fills == [] {
      assert log + fills == log;
    } else {
      AppendReplays(log, fills[0], config.startingCash, tape.Cash(i), tape.Costs(i), tape.Held(i));
    }
  }

  lemma BarNeutral(bars: seq<Bar>, picks: seq<Option<Signal>>, config: Config, i: nat)
    requires i < |bars| == |picks|
    ensures
      var held := TapeOf(bars, picks, config).Held(i + 1);
      Neutral(DecisionEventAt(bars, picks, config, i), held) && Neutral(MarkAt(bars, picks, config, i), held)
  {
    hide Proposals, DecisionAt, Tape.Held;
  }

  lemma ReplayBar(bars: seq<Bar>, picks: seq<Option<Signal>>, config: Config, i: nat, log: seq<Event>)
    requires i < |bars| == |picks|
    requires
      var tape := TapeOf(bars, picks, config);
      Replays(log, config.startingCash, tape.Cash(i), tape.Costs(i), tape.Held(i))
    ensures
      var tape := TapeOf(bars, picks, config);
      var next := log + FillEvents(bars, picks, config, i)
                + [DecisionEventAt(bars, picks, config, i), MarkAt(bars, picks, config, i)];
      Replays(next, config.startingCash, tape.Cash(i + 1), tape.Costs(i + 1), tape.Held(i + 1))
  {
    hide *;
    var tape, start := TapeOf(bars, picks, config), config.startingCash;
    var filled := log + FillEvents(bars, picks, config, i);
    var cash, costs, held := tape.Cash(i + 1), tape.Costs(i + 1), tape.Held(i + 1);
    var d, m := DecisionEventAt(bars, picks, config, i), MarkAt(bars, picks, config, i);
    ReplayFill(bars, picks, config, i, log);
    BarNeutral(bars, picks, config, i);
    AppendNeutral(filled, d, start, cash, costs, held);
    AppendNeutral(filled + [d], m, start, cash, costs, held);
    assert filled + [d] + [m] == filled + [d, m];
  }

  lemma EventsStep(bars: seq<Bar>, picks: seq<Option<Signal>>, config: Config, i: nat)
    requires i < |bars| == |picks|
    ensures Events(bars, picks, config, i + 1)
         == Events(bars, picks, config, i) + FillEvents(bars, picks, config, i)
            + [DecisionEventAt(bars, picks, config, i), MarkAt(bars, picks, config, i)]
  {
    hide FillEvents, DecisionEventAt, MarkAt;
  }

  lemma ReplayStart(bars: seq<Bar>, picks: seq<Option<Signal>>, config: Config)
    requires |bars| == |picks| >= 1
    ensures
      var tape := TapeOf(bars, picks, config);
      Replays(Events(bars, picks, config, 0), config.startingCash, tape.Cash(0), tape.Costs(0), tape.Held(0))
  {
    AppendReplays([], StartEvent(bars[0]), config.startingCash, config.startingCash, 0.0, 0);
    assert [] + [StartEvent(bars[0])] == Events(bars, picks, config, 0);
  }

  lemma {:induction false} ReplayPrefix(bars: seq<Bar>, picks: seq<Option<Signal>>, config: Config, k: nat)
    requires k <= |bars| == |picks| && |bars| >= 1
    ensures
      var tape := TapeOf(bars, picks, config);
      Replays(Events(bars, picks, config, k), config.startingCash, tape.Cash(k), tape.Costs(k), tape.Held(k))
    decreases k
  {
    hide *;
    if k == 0 {
      ReplayStart(bars, picks, config);
    } else {
      var i := k - 1;
      ReplayPrefix(bars, picks, config, i);
      ReplayBar(bars, picks, config, i, Events(bars, picks, config, i));
      EventsStep(bars, picks, config, i);
      assert i + 1 == k;
    }
  }

  lemma {:induction false} LogLength(bars: seq<Bar>, picks: seq<Option<Signal>>, config: Config, k: nat)
    requires k <= |bars| == |picks| && |bars| >= 1
    ensures |Events(bars, picks, config, k)| == 1 + 2 * k + TapeOf(bars, picks, config).Trades(k)
  {
    if k > 0 {
      LogLength(bars, picks, config, k - 1);
    }
  }

  lemma ClosingNeutral(bar: Bar, b: Benchmark, held: int)
    ensures Neutral(BenchmarkEvent(bar, b), held) && Neutral(EndEvent(bar, held), held)
  {
  }

  lemma FullLogParts(bars: seq<Bar>, picks: seq<Option<Signal>>, config: Config)
    requires |bars| == |picks| >= 1 && config.startingCash > 0.0
    ensures
      var last, bs := bars[|bars| - 1], Benchmarks(bars, config);
      FullLog(bars, picks, config)
      == Events(bars, picks, config, |bars|)
         + [BenchmarkEvent(last, bs[0]), BenchmarkEvent(last, bs[1]),
            EndEvent(last, TapeOf(bars, picks, config).Held(|bars|))]
  {
    hide Events, Benchmarks, BenchmarkEvent, EndEvent, TapeOf;
  }

  /**
   The event log determines the account: its cash deltas lead from the starting to the final
   cash, its costs add up, its fills give every position it states, and its length is fixed by
   the number of bars and of trades.
   */
  lemma ReplayFullLog(bars: seq<Bar>, picks: seq<Option<Signal>>, config: Config)
    requires |bars| == |picks| >= 1 && config.startingCash > 0.0
    ensures
      var log := FullLog(bars, picks, config);
      var tape := TapeOf(bars, picks, config);
      && Replays(log, config.startingCash, tape.Cash(|bars|), tape.Costs(|bars|), tape.Held(|bars|))
      && |log| == 2 * |bars| + tape.Trades(|bars|) + 4
  {
    hide *;
    var n := |bars|;
    ReplayPrefix(bars, picks, config, n);
    LogLength(bars, picks, config, n);
    var tape := TapeOf(bars, picks, config);
    var start, cash, costs, held := config.startingCash, tape.Cash(n), tape.Costs(n), tape.Held(n);
    var last, bs := bars[n - 1], Benchmarks(bars, config);
    var log := Events(bars, picks, config, n);
    var e0, e1, e2 := BenchmarkEvent(last, bs[0]), BenchmarkEvent(last, bs[1]), EndEvent(last, held);
    ClosingNeutral(last, bs[0], held);
    ClosingNeutral(last, bs[1], held);
    AppendNeutral(log, e0, start, cash, costs, held);
    AppendNeutral(log + [e0], e1, start, cash, costs, held);
    AppendNeutral(log + [e0] + [e1], e2, start, cash, costs, held);
    FullLogParts(bars, picks, config);
    assert log + [e0] + [e1] + [e2] == log + [e0, e1, e2];
  }

  // ---------- Identifiers ----------

  ghost predicate DistinctEventIds(log: seq<Event>) {
    forall i, j :: 0 <= i < j < |log| ==> log[i].id != log[j].id
  }

  // The identifier can have been used by bar k: its decision or mark lies in an earlier bar.
  ghost predicate UsedBy(bars: seq<Bar>, lag: Lag, k: nat, id: EventId) {
    match id
    case RunStartedId => true
    case RunCompletedId => false
    case BenchmarkId(_) => false
    case MarkId(t) => exists i :: 0 <= i < k && i < |bars| && t == bars[i].timestamp
    case DecisionEventId(d) => exists i :: 0 <= i < k && i < |bars| && d.time == bars[i].timestamp
    case FillId(d) => exists i :: 0 <= i < k - lag && i < |bars| && d.time == bars[i].timestamp
  }

  ghost predicate AllUsedBy(log: seq<Event>, bars: seq<Bar>, lag: Lag, k: nat) {
    forall e :: e in log ==> UsedBy(bars, lag, k, e.id)
  }

  lemma StartIdUsed(bars: seq<Bar>, lag: Lag, log: seq<Event>)
    requires bars != [] && log == [StartEvent(bars[0])]
    ensures DistinctEventIds(log) && AllUsedBy(log, bars, lag, 0)
  {
  }

  lemma UsedLater(bars: seq<Bar>, lag: Lag, i: nat, id: EventId)
    requires UsedBy(bars, lag, i, id)
    ensures UsedBy(bars, lag, i + 1, id)
  {
  }

  lemma AllUsedLater(log: seq<Event>, bars: seq<Bar>, lag: Lag, i: nat)
    requires AllUsedBy(log, bars, lag, i)
    ensures AllUsedBy(log, bars, lag, i + 1)
  {
    forall e | e in log
      ensures UsedBy(bars, lag, i + 1, e.id)
    {
      UsedLater(bars, lag, i, e.id);
    }
  }

  ghost predicate NewTo(log: seq<Event>, e: Event) {
    forall f :: f in log ==> f.id != e.id
  }

  lemma UnusedIsNew(log: seq<Event>, e: Event, bars: seq<Bar>, lag: Lag, i: nat)
    requires AllUsedBy(log, bars, lag, i) && !UsedBy(bars, lag, i, e.id)
    ensures NewTo(log, e)
  {
    hide UsedBy;
  }

  lemma StillNew(log: seq<Event>, other: Event, e: Event)
    requires NewTo(log, e) && other.id != e.id
    ensures NewTo(log + [other], e)
  {
  }

  lemma AppendFresh(log: seq<Event>, e: Event, bars: seq<Bar>, lag: Lag, k: nat)
    requires DistinctEventIds(log) && AllUsedBy(log, bars, lag, k)
    requires UsedBy(bars, lag, k, e.id) && NewTo(log, e)
    ensures DistinctEventIds(log + [e]) && AllUsedBy(log + [e], bars, lag, k)
  {
    hide UsedBy;
  }

  // The identifiers of bar i's own events: new at bar i, used by bar i + 1, and different from one another.
  lemma BarIdsFresh(bars: seq<Bar>, picks: seq<Option<Signal>>, config: Config, i: nat)
    requires i < |bars| == |picks| && Increasing(bars)
    ensures
      var fills, d, m := FillEvents(bars, picks, config, i), DecisionEventAt(bars, picks, config, i),
                         MarkAt(bars, picks, config, i);
      && |fills| <= 1 && d.id != m.id
      && !UsedBy(bars, config.lag, i, d.id) && UsedBy(bars, config.lag, i + 1, d.id)
      && !UsedBy(bars, config.lag, i, m.id) && UsedBy(bars, config.lag, i + 1, m.id)
      && forall f :: f in fills ==>
           && f.id != d.id && f.id != m.id
           && !UsedBy(bars, config.lag, i, f.id) && UsedBy(bars, config.lag, i + 1, f.id)
  {
    hide ActionAt, Tape.FillQuantity, Tape.TransactionCost, Tape.Slippage, Tape.CashDelta, Tape.Held, Target;
    var fills := FillEvents(bars, picks, config, i);
    forall f | f in fills
      ensures f.id.FillId? && f.id.decision.time == bars[i - config.lag].timestamp
    {
    }
    assert DecisionEventAt(bars, picks, config, i).id.decision.time == bars[i].timestamp;
  }

  lemma BarIdsNew(bars: seq<Bar>, picks: seq<Option<Signal>>, config: Config, i: nat, log: seq<Event>)
    requires i < |bars| == |picks| && Increasing(bars)
    requires DistinctEventIds(log) && AllUsedBy(log, bars, config.lag, i)
    ensures
      var next := log + FillEvents(bars, picks, config, i)
                + [DecisionEventAt(bars, picks, config, i), MarkAt(bars, picks, config, i)];
      DistinctEventIds(next) && AllUsedBy(next, bars, config.lag, i + 1)
  {
    var fills, lag := FillEvents(bars, picks, config, i), config.lag;
    var d, m := DecisionEventAt(bars, picks, config, i), MarkAt(bars, picks, config, i);
    hide *;
    AllUsedLater(log, bars, lag, i);
    BarIdsFresh(bars, picks, config, i);
    UnusedIsNew(log, d, bars, lag, i);
    UnusedIsNew(log, m, bars, lag, i);
    var filled := log + fills;
    if fills == [] {
      assert filled == log;
    } else {
      var f := fills[0];
      assert f in fills;
      UnusedIsNew(log, f, bars, lag, i);
      AppendFresh(log, f, bars, lag, i + 1);
      StillNew(log, f, d);
      StillNew(log, f, m);
      assert fills == [f];
      assert filled == log + [f];
    }
    assert DistinctEventIds(filled) && AllUsedBy(filled, bars, lag, i + 1) && NewTo(filled, d) && NewTo(filled, m);
    AppendFresh(filled, d, bars, lag, i + 1);
    StillNew(filled, d, m);
    AppendFresh(filled + [d], m, bars, lag, i + 1);
    assert filled + [d] + [m] == filled + [d, m];
  }

  lemma {:induction false} EventIdsUsed(bars: seq<Bar>, picks: seq<Option<Signal>>, config: Config, k: nat)
    requires k <= |bars| == |picks| && |bars| >= 1 && Increasing(bars)
    ensures DistinctEventIds(Events(bars, picks, config, k))
    ensures AllUsedBy(Events(bars, picks, config, k), bars, config.lag, k)
    decreases k
  {
    if k == 0 {
      hide DistinctEventIds, AllUsedBy, StartEvent;
      StartIdUsed(bars, config.lag, Events(bars, picks, config, 0));
    } else {
      hide *;
      var i := k - 1;
      EventIdsUsed(bars, picks, config, i);
      BarIdsNew(bars, picks, config, i, Events(bars, picks, config, i));
      EventsStep(bars, picks, config, i);
      assert i + 1 == k;
    }
  }

  /** With strictly increasing bar times no event identifier of a run is used twice. */
  lemma EventIdsDistinct(bars: seq<Bar>, picks: seq<Option<Signal>>, config: Config)
    requires |bars| == |picks| >= 1 && config.startingCash > 0.0 && Increasing(bars)
    ensures DistinctEventIds(FullLog(bars, picks, config))
  {
    hide Events, Increasing, Tape.Held;
    EventIdsUsed(bars, picks, config, |bars|);
    var log := Events(bars, picks, config, |bars|);
    forall e | e in log
      ensures !e.id.RunCompletedId? && !e.id.BenchmarkId?
    {
      assert UsedBy(bars, config.lag, |bars|, e.id);
    }
  }
}
