/**
 The simulation loop as a machine over explicit states, dictionary of pending fills included,
 and the proof that it steps exactly through the states the dictionary-free recurrence gives.
 */
module Machine {
  import opened Wrappers
  import opened Market
  import opened Timing
  import opened Schedule
  import opened Ledger
  import opened Journal

  /** A scheduled fill created by one decision. */
  datatype PendingFill = PendingFill(decision: DecisionId, targetUnits: int)

  datatype State = State(
    units: int,
    cash: real,
    costs: real,
    turnover: real,
    trades: nat,
    pending: map<nat, PendingFill>,
    decisions: seq<Decision>,
    events: seq<Event>)

  // ---------- Steps ----------

  // Execute the fill scheduled for this bar, if any, at its open.
  function Fill(s: State, bar: Bar, config: Config, i: nat): State {
    if i !in s.pending then s
    else
      var fill := s.pending[i];
      var quantity := fill.targetUnits - s.units;
      var notional := Worth(quantity, bar.open);
      var transactionCost := Charge(notional, config.transactionBps);
      var slippage := Charge(notional, config.slippageBps);
      var cashDelta := -(notional + transactionCost + slippage);
      State(
        fill.targetUnits,
        s.cash + cashDelta,
        s.costs + (transactionCost + slippage),
        s.turnover + Abs(notional),
        s.trades + 1,
        s.pending - {i},
        s.decisions,
        s.events + [Event(FillId(fill.decision), FillEvent, Some(fill.decision), bar.sessionOpen, Some(quantity),
                          bar.open, transactionCost, slippage, cashDelta, Some(fill.targetUnits))])
  }

  lemma FillFields(s: State, bar: Bar, config: Config, i: nat)
    ensures i !in s.pending ==> Fill(s, bar, config, i) == s
    ensures i in s.pending ==>
      var fill := s.pending[i];
      var quantity := fill.targetUnits - s.units;
      var notional := Worth(quantity, bar.open);
      var transactionCost, slippage := Charge(notional, config.transactionBps), Charge(notional, config.slippageBps);
      var cashDelta := -(notional + transactionCost + slippage);
      Fill(s, bar, config, i)
      == State(fill.targetUnits, s.cash + cashDelta, s.costs + (transactionCost + slippage), s.turnover + Abs(notional),
               s.trades + 1, s.pending - {i}, s.decisions,
               s.events + [Event(FillId(fill.decision), FillEvent, Some(fill.decision), bar.sessionOpen,
                                 Some(quantity), bar.open, transactionCost, slippage, cashDelta,
                                 Some(fill.targetUnits))])
  {
  }

  // Record the decision drawn from the picked signal and schedule its fill.
  function Decide(s: State, bar: Bar, config: Config, i: nat, count: nat, pick: Option<Signal>): State {
    var proposed := Proposal(pick);
    var fillBar := i + config.lag;
    var skip := proposed != s.units && fillBar >= count;
    var action := if skip then SkipSignal else ActionFor(s.units, proposed);
    var target := if skip then s.units else proposed;
    var id := DecisionIdOf(bar.timestamp, pick, action);
    var decision := Decision(
      id,
      if pick.Some? then Some(pick.value.Id()) else None,
      if pick.Some? then Some(pick.value.EffectiveAt()) else None,
      BuildCutoff(bar.timestamp),
      action,
      target);
    s.(decisions := s.decisions + [decision],
       events := s.events + [Event(DecisionEventId(id), DecisionEvent, Some(id), bar.timestamp, Some(target),
                                   bar.close, 0.0, 0.0, 0.0, Some(s.units))],
       pending := if target != s.units && action != SkipSignal then s.pending[fillBar := PendingFill(id, target)]
                  else s.pending)
  }

  lemma DecideFields(s: State, bar: Bar, config: Config, i: nat, count: nat, pick: Option<Signal>,
                     action: Action, target: int)
    requires
      if Proposal(pick) != s.units && i + config.lag >= count then action == SkipSignal && target == s.units
      else action == ActionFor(s.units, Proposal(pick)) && target == Proposal(pick)
    ensures
      var id := DecisionIdOf(bar.timestamp, pick, action);
      Decide(s, bar, config, i, count, pick)
      == State(s.units, s.cash, s.costs, s.turnover, s.trades,
               if target != s.units && action != SkipSignal then s.pending[i + config.lag := PendingFill(id, target)]
               else s.pending,
               s.decisions + [Decision(id, if pick.Some? then Some(pick.value.Id()) else None,
                                       if pick.Some? then Some(pick.value.EffectiveAt()) else None,
                                       BuildCutoff(bar.timestamp), action, target)],
               s.events + [Event(DecisionEventId(id), DecisionEvent, Some(id), bar.timestamp, Some(target), bar.close,
                                 0.0, 0.0, 0.0, Some(s.units))])
  {
  }

  function Mark(s: State, bar: Bar): State {
    s.(events := s.events + [Event(MarkId(bar.timestamp), MarkEvent, None, bar.timestamp, Some(s.units), bar.close,
                                   0.0, 0.0, 0.0, Some(s.units))])
  }

  lemma MarkFields(s: State, bar: Bar)
    ensures Mark(s, bar)
         == State(s.units, s.cash, s.costs, s.turnover, s.trades, s.pending, s.decisions,
                  s.events + [Event(MarkId(bar.timestamp), MarkEvent, None, bar.timestamp, Some(s.units), bar.close,
                                    0.0, 0.0, 0.0, Some(s.units))])
  {
  }

  function StepBar(s: State, bars: seq<Bar>, config: Config, i: nat, pick: Option<Signal>): State
    requires i < |bars|
  {
    Mark(Decide(Fill(s, bars[i], config, i), bars[i], config, i, |bars|, pick), bars[i])
  }

  function Initial(bars: seq<Bar>, config: Config): State
    requires |bars| >= 1
  {
    State(0, config.startingCash, 0.0, 0.0, 0, map[], [], [StartEvent(bars[0])])
  }

  // The machine after k bars.
  function Reached(bars: seq<Bar>, picks: seq<Option<Signal>>, config: Config, k: nat): State
    requires k <= |bars| == |picks| && |bars| >= 1
  {
    if k == 0 then Initial(bars, config)
    else StepBar(Reached(bars, picks, config, k - 1), bars, config, k - 1, picks[k - 1])
  }

  // ---------- The same states without stepping ----------

  function FillOrder(bars: seq<Bar>, picks: seq<Option<Signal>>, lag: Lag, j: nat): PendingFill
    requires lag <= j < |bars| == |picks|
  {
    PendingFill(DecisionAt(bars, picks, lag, j - lag).id, Target(Proposals(picks), lag, j - lag))
  }

  function ScheduledFills(bars: seq<Bar>, picks: seq<Option<Signal>>, lag: Lag, k: nat): (m: map<nat, PendingFill>)
    requires k <= |bars| == |picks|
    ensures m.Keys == Pending(Proposals(picks), lag, k).Keys
  {
    map j: nat | j in Pending(Proposals(picks), lag, k) :: FillOrder(bars, picks, lag, j)
  }

  function Specified(bars: seq<Bar>, picks: seq<Option<Signal>>, config: Config, k: nat): State
    requires k <= |bars| == |picks| && |bars| >= 1
  {
    var t := TapeOf(bars, picks, config);
    State(t.Held(k), t.Cash(k), t.Costs(k), t.Turnover(k), t.Trades(k),
          ScheduledFills(bars, picks, config.lag, k),
          Decisions(bars, picks, config.lag, k),
          Events(bars, picks, config, k))
  }

  // ---------- The refinement ----------

  lemma DictionaryStep(before: map<nat, PendingFill>, after: map<nat, PendingFill>, i: nat, key: nat, ordered: bool)
    requires after.Keys == before.Keys - {i} + (if ordered then {key} else {})
    requires key !in before
    requires forall j :: j in before && j in after ==> before[j] == after[j]
    ensures ordered ==> after == (before - {i})[key := after[key]]
    ensures !ordered ==> after == before - {i}
  {
  }

  lemma ScheduledStep(bars: seq<Bar>, picks: seq<Option<Signal>>, lag: Lag, i: nat)
    requires i < |bars| == |picks|
    ensures i + lag !in ScheduledFills(bars, picks, lag, i)
    ensures Ordered(Proposals(picks), lag, i) ==>
              && i + lag < |bars|
              && ScheduledFills(bars, picks, lag, i + 1)
                 == (ScheduledFills(bars, picks, lag, i) - {i})[i + lag := FillOrder(bars, picks, lag, i + lag)]
    ensures !Ordered(Proposals(picks), lag, i) ==>
              ScheduledFills(bars, picks, lag, i + 1) == ScheduledFills(bars, picks, lag, i) - {i}
  {
    hide Pending, Ordered, FillOrder, Proposals;
    var p := Proposals(picks);
    PendingStep(p, lag, i);
    var before, after := ScheduledFills(bars, picks, lag, i), ScheduledFills(bars, picks, lag, i + 1);
    DictionaryStep(before, after, i, i + lag, Ordered(p, lag, i));
  }

  lemma ScheduledDue(bars: seq<Bar>, picks: seq<Option<Signal>>, lag: Lag, i: nat)
    requires i < |bars| == |picks|
    ensures i in ScheduledFills(bars, picks, lag, i) <==> Filled(Proposals(picks), lag, i)
    ensures Filled(Proposals(picks), lag, i) ==>
              && ScheduledFills(bars, picks, lag, i)[i] == FillOrder(bars, picks, lag, i)
              && FillOrder(bars, picks, lag, i).targetUnits == Position(Proposals(picks), lag, i)
  {
    PendingStep(Proposals(picks), lag, i);
  }

  // The state between the fill and the decision of bar i.
  function Opened(bars: seq<Bar>, picks: seq<Option<Signal>>, config: Config, i: nat): State
    requires i < |bars| == |picks|
  {
    var t := TapeOf(bars, picks, config);
    State(t.Held(i + 1), t.Cash(i + 1), t.Costs(i + 1), t.Turnover(i + 1), t.Trades(i + 1),
          ScheduledFills(bars, picks, config.lag, i) - {i},
          Decisions(bars, picks, config.lag, i),
          Events(bars, picks, config, i) + FillEvents(bars, picks, config, i))
  }

  ghost predicate OnTerms(t: Tape, config: Config) {
    t.transactionBps == config.transactionBps && t.slippageBps == config.slippageBps
  }

  lemma FillBooks(t: Tape, config: Config, s: State, i: nat)
    requires t.Valid() && i < |t.bars| && OnTerms(t, config) && t.FilledAt(i)
    requires s.units == t.Held(i) && s.cash == t.Cash(i) && s.costs == t.Costs(i)
    requires s.turnover == t.Turnover(i) && s.trades == t.Trades(i)
    requires i in s.pending && s.pending[i].targetUnits == t.Held(i + 1)
    ensures
      var id := s.pending[i].decision;
      Fill(s, t.bars[i], config, i)
      == State(t.Held(i + 1), t.Cash(i + 1), t.Costs(i + 1), t.Turnover(i + 1), t.Trades(i + 1),
               s.pending - {i}, s.decisions,
               s.events + [Event(FillId(id), FillEvent, Some(id), t.bars[i].sessionOpen, Some(t.FillQuantity(i)),
                                 t.bars[i].open, t.TransactionCost(i), t.Slippage(i), t.CashDelta(i),
                                 Some(t.Held(i + 1)))])
  {
    NoFillOrFill(t, i);
    hide Worth, Charge, Tape.Held, Tape.FilledAt, Tape.FillQuantity;
    var next := Fill(s, t.bars[i], config, i);
    assert s.pending[i].targetUnits - s.units == t.FillQuantity(i);
    assert next.turnover == t.Turnover(i + 1);
    assert next.costs == t.Costs(i + 1);
    assert next.cash == t.Cash(i + 1);
    assert next.trades == t.Trades(i + 1);
    assert next.pending == s.pending - {i};
    var e := next.events[|s.events|];
    assert e.quantity == Some(t.FillQuantity(i));
    assert e.transactionCost == t.TransactionCost(i);
    assert e.slippage == t.Slippage(i);
    assert e.cashDelta == t.CashDelta(i);
    assert next.events == s.events + [e];
  }

  lemma FillRefines(bars: seq<Bar>, picks: seq<Option<Signal>>, config: Config, i: nat)
    requires i < |bars| == |picks|
    ensures Fill(Specified(bars, picks, config, i), bars[i], config, i) == Opened(bars, picks, config, i)
  {
    var t := TapeOf(bars, picks, config);
    ScheduledDue(bars, picks, config.lag, i);
    if t.FilledAt(i) {
      LoggedFill(bars, picks, config, i);
      hide Fill, ScheduledFills, Decisions, Proposals, Events, FillEvents, FillOrder,
           Tape.Cash, Tape.Costs, Tape.Turnover, Tape.Trades, Tape.TransactionCost, Tape.Slippage, Tape.CashDelta,
           Position, Filled;
      FillBooks(t, config, Specified(bars, picks, config, i), i);
    } else {
      UnfilledOpens(bars, picks, config, i);
    }
  }

  lemma LoggedFill(bars: seq<Bar>, picks: seq<Option<Signal>>, config: Config, i: nat)
    requires i < |bars| == |picks| && TapeOf(bars, picks, config).FilledAt(i)
    ensures
      var t, id := TapeOf(bars, picks, config), FillOrder(bars, picks, config.lag, i).decision;
      FillEvents(bars, picks, config, i)
      == [Event(FillId(id), FillEvent, Some(id), bars[i].sessionOpen, Some(t.FillQuantity(i)), bars[i].open,
                t.TransactionCost(i), t.Slippage(i), t.CashDelta(i), Some(t.Held(i + 1)))]
  {
    hide Proposals, Position, Ordered, DecisionAt, Worth;
  }

  lemma QuietBooks(t: Tape, i: nat)
    requires t.Valid() && i < |t.bars| && !t.FilledAt(i)
    ensures t.Held(i + 1) == t.Held(i) && t.Cash(i + 1) == t.Cash(i) && t.Costs(i + 1) == t.Costs(i)
    ensures t.Turnover(i + 1) == t.Turnover(i) && t.Trades(i + 1) == t.Trades(i)
  {
    NoFillOrFill(t, i);
    hide Tape.Held, Position, Ordered;
  }

  lemma UnfilledOpens(bars: seq<Bar>, picks: seq<Option<Signal>>, config: Config, i: nat)
    requires i < |bars| == |picks| && !TapeOf(bars, picks, config).FilledAt(i)
    requires i !in ScheduledFills(bars, picks, config.lag, i)
    ensures Opened(bars, picks, config, i) == Specified(bars, picks, config, i)
  {
    QuietBooks(TapeOf(bars, picks, config), i);
    hide ScheduledFills, Decisions, Proposals, Events,
         Tape.Held, Tape.FilledAt, Tape.Cash, Tape.Costs, Tape.Turnover, Tape.Trades;
    var before := Specified(bars, picks, config, i);
    assert before.pending - {i} == before.pending;
    assert before.events + [] == before.events;
  }

  // What a decision adds, in terms of the recurrence.
  lemma DecideBooks(p: seq<int>, config: Config, s: State, bar: Bar, i: nat, pick: Option<Signal>)
    requires i < |p| && p[i] == Proposal(pick) && s.units == Position(p, config.lag, i)
    ensures
      var lag := config.lag;
      var action := if Skipped(p, lag, i) then SkipSignal else ActionFor(s.units, p[i]);
      var id := DecisionIdOf(bar.timestamp, pick, action);
      var next := Decide(s, bar, config, i, |p|, pick);
      && next == s.(pending := next.pending, decisions := next.decisions, events := next.events)
      && next.decisions
         == s.decisions + [Decision(id, if pick.Some? then Some(pick.value.Id()) else None,
                                    if pick.Some? then Some(pick.value.EffectiveAt()) else None,
                                    BuildCutoff(bar.timestamp), action, Target(p, lag, i))]
      && next.events
         == s.events + [Event(DecisionEventId(id), DecisionEvent, Some(id), bar.timestamp, Some(Target(p, lag, i)),
                              bar.close, 0.0, 0.0, 0.0, Some(s.units))]
      && next.pending
         == if Ordered(p, lag, i) then s.pending[i + lag := PendingFill(id, Target(p, lag, i))] else s.pending
  {
  }

  lemma DecisionsExtend(bars: seq<Bar>, picks: seq<Option<Signal>>, lag: Lag, i: nat)
    requires i < |bars| == |picks|
    ensures Decisions(bars, picks, lag, i + 1)
         == Decisions(bars, picks, lag, i) + [DecisionAt(bars, picks, lag, i)]
  {
  }

  // The state between the decision and the mark of bar i.
  function Decided(bars: seq<Bar>, picks: seq<Option<Signal>>, config: Config, i: nat): State
    requires i < |bars| == |picks|
  {
    Opened(bars, picks, config, i).(
      pending := ScheduledFills(bars, picks, config.lag, i + 1),
      decisions := Decisions(bars, picks, config.lag, i + 1),
      events := Events(bars, picks, config, i) + FillEvents(bars, picks, config, i)
                + [DecisionEventAt(bars, picks, config, i)])
  }

  lemma DecideRefines(bars: seq<Bar>, picks: seq<Option<Signal>>, config: Config, i: nat)
    requires i < |bars| == |picks|
    ensures Decide(Opened(bars, picks, config, i), bars[i], config, i, |bars|, picks[i])
         == Decided(bars, picks, config, i)
  {
    hide Decide, ScheduledFills, Decisions, Position, Target, Skipped, Ordered, Proposals, Events, FillEvents, DecisionIdOf,
         Tape.Cash, Tape.Costs, Tape.Turnover, Tape.Trades;
    var p, s := Proposals(picks), Opened(bars, picks, config, i);
    DecideBooks(p, config, s, bars[i], i, picks[i]);
    DecisionsExtend(bars, picks, config.lag, i);
    ScheduledStep(bars, picks, config.lag, i);
    var decided := Decide(s, bars[i], config, i, |bars|, picks[i]);
    var next := Decided(bars, picks, config, i);
    assert decided.pending == next.pending;
    assert decided.decisions == next.decisions;
    assert decided.events == s.events + [DecisionEventAt(bars, picks, config, i)];
  }

  lemma MarkRefines(bars: seq<Bar>, picks: seq<Option<Signal>>, config: Config, i: nat)
    requires i < |bars| == |picks|
    ensures Mark(Decided(bars, picks, config, i), bars[i]) == Specified(bars, picks, config, i + 1)
  {
    hide ScheduledFills, Decisions, Proposals, FillEvents, DecisionEventAt,
         Tape.Held, Tape.Cash, Tape.Costs, Tape.Turnover, Tape.Trades;
    var s := Decided(bars, picks, config, i);
    var d, m := DecisionEventAt(bars, picks, config, i), MarkAt(bars, picks, config, i);
    assert Events(bars, picks, config, i) + FillEvents(bars, picks, config, i) + [d] + [m]
        == Events(bars, picks, config, i) + FillEvents(bars, picks, config, i) + [d, m];
  }

  lemma StartAgrees(bars: seq<Bar>, picks: seq<Option<Signal>>, config: Config)
    requires |bars| == |picks| >= 1
    ensures Reached(bars, picks, config, 0) == Specified(bars, picks, config, 0)
  {
    PendingInitially(Proposals(picks), config.lag);
  }

  lemma ReachedStep(bars: seq<Bar>, picks: seq<Option<Signal>>, config: Config, i: nat)
    requires i < |bars| == |picks|
    ensures
      var s := Reached(bars, picks, config, i);
      Reached(bars, picks, config, i + 1)
      == Mark(Decide(Fill(s, bars[i], config, i), bars[i], config, i, |bars|, picks[i]), bars[i])
  {
    hide Fill, Decide, Mark;
  }

  /**
   After any number of bars the machine, with its dictionary of pending fills, is in exactly
   the state that the closed recurrence for positions and targets prescribes.
   */
  lemma {:induction false} MachineRefinesSchedule(bars: seq<Bar>, picks: seq<Option<Signal>>, config: Config, k: nat)
    requires k <= |bars| == |picks| && |bars| >= 1
    ensures Reached(bars, picks, config, k) == Specified(bars, picks, config, k)
    decreases k
  {
    hide *;
    if k == 0 {
      StartAgrees(bars, picks, config);
    } else {
      var i := k - 1;
      MachineRefinesSchedule(bars, picks, config, i);
      FillRefines(bars, picks, config, i);
      DecideRefines(bars, picks, config, i);
      MarkRefines(bars, picks, config, i);
      ReachedStep(bars, picks, config, i);
      assert i + 1 == k;
    }
  }

  // The fill of the dictionary that comes due last.
  ghost predicate LastScheduled(pending: map<nat, PendingFill>, j: nat)
    ensures LastScheduled(pending, j) ==> j in pending
  {
    j in pending && forall k :: k in pending ==> k <= j
  }

  /** Where the account is heading without further decisions: the target of its last scheduled fill, else what it holds. */
  ghost function HeadingOf(s: State): int {
    if exists j :: LastScheduled(s.pending, j) then
      var j :| LastScheduled(s.pending, j);
      s.pending[j].targetUnits
    else s.units
  }

  lemma SpecifiedUnits(bars: seq<Bar>, picks: seq<Option<Signal>>, config: Config, k: nat)
    requires k < |bars| == |picks|
    ensures Specified(bars, picks, config, k).units == Units(Proposals(picks), config.lag, k)
    ensures Opened(bars, picks, config, k).units == Position(Proposals(picks), config.lag, k)
    ensures Specified(bars, picks, config, k + 1).units == Position(Proposals(picks), config.lag, k)
  {
    hide Proposals, ScheduledFills, Decisions, Events, FillEvents, Tape.Cash, Tape.Costs, Tape.Turnover, Tape.Trades;
  }

  // What the dictionary holds at key j when bar i decides: an order in flight.
  ghost predicate CarriesAt(pending: map<nat, PendingFill>, p: seq<int>, lag: Lag, i: nat, j: nat) {
    && (j in pending <==> lag <= j && i < j < i + lag && j < |p| && Ordered(p, lag, j - lag))
    && (j in pending ==> lag <= j < |p| + lag && pending[j].targetUnits == Target(p, lag, j - lag))
  }

  lemma OpenedPending(bars: seq<Bar>, picks: seq<Option<Signal>>, config: Config, i: nat, j: nat)
    requires i < |bars| == |picks|
    ensures CarriesAt(Opened(bars, picks, config, i).pending, Proposals(picks), config.lag, i, j)
  {
    hide Pending, Proposals, Ordered, Decisions, Events, FillEvents, DecisionAt, Tape.Cash, Tape.Costs, Tape.Turnover,
         Tape.Trades, Tape.Held;
    PendingAt(Proposals(picks), config.lag, i, j);
  }

  lemma LatestCarried(pending: map<nat, PendingFill>, p: seq<int>, lag: Lag, i: nat)
    requires i < |p| && forall j: nat :: CarriesAt(pending, p, lag, i, j)
    ensures
      var last := InFlight(p, lag, i);
      && (last.None? ==> pending == map[])
      && (last.Some? ==>
            && LastScheduled(pending, last.value + lag)
            && pending[last.value + lag].targetUnits == Target(p, lag, last.value))
  {
    hide Ordered, LastOrder, Target;
    var last := InFlight(p, lag, i);
    if last.Some? {
      OrderFits(p, lag, last.value);
      assert CarriesAt(pending, p, lag, i, last.value + lag);
    }
    forall j | j in pending
      ensures last.Some? && j <= last.value + lag
    {
      assert CarriesAt(pending, p, lag, i, j);
      assert Ordered(p, lag, j - lag);
    }
  }

  lemma HeadingOfLast(s: State)
    ensures s.pending == map[] ==> HeadingOf(s) == s.units
    ensures forall j :: LastScheduled(s.pending, j) ==> HeadingOf(s) == s.pending[j].targetUnits
  {
  }

  lemma HeadingCases(p: seq<int>, lag: Lag, i: nat)
    requires i < |p|
    ensures
      var last := InFlight(p, lag, i);
      Heading(p, lag, i) == if last.Some? then Target(p, lag, last.value) else Position(p, lag, i)
  {
  }

  /** The dictionary knows where the account is heading: the last scheduled fill is the latest order in flight. */
  lemma HeadingAgrees(bars: seq<Bar>, picks: seq<Option<Signal>>, config: Config, i: nat)
    requires i < |bars| == |picks|
    ensures HeadingOf(Opened(bars, picks, config, i)) == Heading(Proposals(picks), config.lag, i)
  {
    var p, lag, s := Proposals(picks), config.lag, Opened(bars, picks, config, i);
    SpecifiedUnits(bars, picks, config, i);
    hide *;
    forall j: nat
      ensures CarriesAt(s.pending, p, lag, i, j)
    {
      OpenedPending(bars, picks, config, i, j);
    }
    LatestCarried(s.pending, p, lag, i);
    HeadingOfLast(s);
    HeadingCases(p, lag, i);
  }

  lemma FilledOrCarried(p: seq<int>, lag: Lag, i: nat)
    requires i + lag < |p|
    ensures Position(p, lag, i + lag)
         == if Target(p, lag, i) != Position(p, lag, i) then Target(p, lag, i) else Units(p, lag, i + lag)
  {
  }

  lemma RecordedTarget(bars: seq<Bar>, picks: seq<Option<Signal>>, lag: Lag, i: nat)
    requires i < |bars| == |picks|
    ensures DecisionAt(bars, picks, lag, i).targetUnits == Target(Proposals(picks), lag, i)
  {
  }

  /**
   What becomes of a recorded decision, read off the state it was made in. Just before its fill
   is due the position is where that state was heading. The recorded target is therefore reached
   exactly when the decision asked for a move or the state was already heading for it; and a
   move asked for trades nothing exactly when the state was already heading there.
   */
  lemma DecisionOutcome(bars: seq<Bar>, picks: seq<Option<Signal>>, config: Config, i: nat)
    requires i + config.lag < |bars| == |picks|
    ensures
      var s := Fill(Reached(bars, picks, config, i), bars[i], config, i);
      var target := DecisionAt(bars, picks, config.lag, i).targetUnits;
      var before := Reached(bars, picks, config, i + config.lag);
      var after := Reached(bars, picks, config, i + config.lag + 1);
      && before.units == HeadingOf(s)
      && (after.units == target <==> target != s.units || HeadingOf(s) == target)
      && (target != s.units ==> (after.units == before.units <==> HeadingOf(s) == target))
  {
    hide *;
    var p, lag := Proposals(picks), config.lag;
    MachineRefinesSchedule(bars, picks, config, i);
    MachineRefinesSchedule(bars, picks, config, i + lag);
    MachineRefinesSchedule(bars, picks, config, i + lag + 1);
    FillRefines(bars, picks, config, i);
    SpecifiedUnits(bars, picks, config, i);
    SpecifiedUnits(bars, picks, config, i + lag);
    HeadingAgrees(bars, picks, config, i);
    HeadingReached(p, lag, i);
    FilledOrCarried(p, lag, i);
    RecordedTarget(bars, picks, lag, i);
  }

  ghost predicate WithinReach(pending: map<nat, PendingFill>, low: int, high: int) {
    forall j :: j in pending ==> low <= j < high
  }

  /**
   The pending-fill discipline, on the machine itself: every key left after bar k lies within
   the next `lag` bars and inside the window, the key a decision writes was free, and no order
   is left when the bars run out.
   */
  lemma PendingDiscipline(bars: seq<Bar>, picks: seq<Option<Signal>>, config: Config, k: nat)
    requires k < |bars| == |picks|
    ensures WithinReach(Reached(bars, picks, config, k + 1).pending, k + 1, k + 1 + config.lag)
    ensures WithinReach(Reached(bars, picks, config, k + 1).pending, 0, |bars|)
    ensures k + config.lag !in Reached(bars, picks, config, k).pending
    ensures Reached(bars, picks, config, |bars|).pending == map[]
  {
    hide Reached, Pending, Ordered, Filled, Proposals, KeysWithin;
    var p := Proposals(picks);
    ReachedKeys(bars, picks, config, k);
    ReachedKeys(bars, picks, config, k + 1);
    ReachedKeys(bars, picks, config, |bars|);
    PendingStep(p, config.lag, k);
    PendingFinally(p, config.lag);
    var pending := Reached(bars, picks, config, k + 1).pending;
    ReachFromKeys(pending, Pending(p, config.lag, k + 1), k + 1, k + 1 + config.lag);
    ReachFromKeys(pending, Pending(p, config.lag, k + 1), 0, |bars|);
    assert Reached(bars, picks, config, |bars|).pending.Keys == {};
  }

  lemma ReachedKeys(bars: seq<Bar>, picks: seq<Option<Signal>>, config: Config, k: nat)
    requires k <= |bars| == |picks| && |bars| >= 1
    ensures Reached(bars, picks, config, k).pending.Keys == Pending(Proposals(picks), config.lag, k).Keys
  {
    hide Reached, Pending, Proposals, Decisions, Events, TapeOf;
    MachineRefinesSchedule(bars, picks, config, k);
  }

  lemma ReachFromKeys(pending: map<nat, PendingFill>, keys: map<nat, nat>, low: int, high: int)
    requires pending.Keys == keys.Keys && KeysWithin(keys, low, high)
    ensures WithinReach(pending, low, high)
  {
    forall j | j in pending
      ensures low <= j < high
    {
      assert j in keys;
    }
  }
}
