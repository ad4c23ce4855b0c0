/** Comparing a backtest with the paper-trading path: detected mismatches, their severities, and the verdict. */
module Reconciliation {
  import opened Wrappers
  import opened Sequences
  import opened Market
  import opened Timing

  datatype Severity = Info | Low | Medium | High | Critical

  function Rank(s: Severity): nat {
    match s
    case Info => 0
    case Low => 1
    case Medium => 2
    case High => 3
    case Critical => 4
  }

  datatype MismatchKind =
    | ProposalBeforeSignal
    | TradeBeforeSignal
    | ApprovalAfterWindow
    | BacktestTimingInconsistency
    | ExecutionAnchorMismatch
    | LagMismatch
    | CostModelMismatch
    | FillPriceBasisMismatch
    | QuantityBasisMismatch
    | ApprovalRequirementMismatch

  datatype Mismatch = Mismatch(kind: MismatchKind, required: Option<Time>, observed: Option<Time>,
                               severity: Severity, blocking: bool)

  datatype Idea = Idea(id: string, signalId: string)

  datatype PaperOrder = PaperOrder(ideaId: string, submittedAt: Time, referencePrice: Option<real>,
                                   quantity: Option<real>, slippageBps: Option<real>)

  /** One comparison: the proposal and its trades, the mapped signals, and the two optional decision times. */
  datatype Case = Case(
    asOf: Time,
    ideas: seq<Idea>,
    orders: seq<PaperOrder>,
    signalIds: seq<string>,
    effectiveAt: map<string, Time>,
    backtestCutoff: Option<Time>,
    reviewedAt: Option<Time>)

  // ---------- Availability mismatches ----------

  function ResolvedTimes(ids: seq<string>, effectiveAt: map<string, Time>): (r: seq<Time>)
    ensures forall t :: t in r <==> exists id :: id in ids && id in effectiveAt && effectiveAt[id] == t
  {
    if ids == [] then []
    else
      assert forall id :: id in ids <==> id == ids[0] || id in ids[1..];
      (if ids[0] in effectiveAt then [effectiveAt[ids[0]]] else []) + ResolvedTimes(ids[1..], effectiveAt)
  }

  function IdeaSignal(ideas: seq<Idea>, ideaId: string): Option<string> {
    if ideas == [] then None
    else if ideas[0].id == ideaId then Some(ideas[0].signalId)
    else IdeaSignal(ideas[1..], ideaId)
  }

  // The effective time of the signal behind an order, when both lookups succeed.
  function OrderSignalTime(c: Case, o: PaperOrder): Option<Time> {
    var id := IdeaSignal(c.ideas, o.ideaId);
    if id.Some? && id.value in c.effectiveAt then Some(c.effectiveAt[id.value]) else None
  }

  function ProposalPart(c: Case): seq<Mismatch> {
    var latest := Latest(ResolvedTimes(c.signalIds, c.effectiveAt));
    if latest.Some? && c.asOf < latest.value
    then [Mismatch(ProposalBeforeSignal, latest, Some(c.asOf), Critical, true)] else []
  }

  function OrderPart(c: Case, o: PaperOrder): seq<Mismatch> {
    var required := OrderSignalTime(c, o);
    if required.Some? && o.submittedAt < required.value
    then [Mismatch(TradeBeforeSignal, required, Some(o.submittedAt), High, true)] else []
  }

  function OrdersPart(c: Case, k: nat): seq<Mismatch>
    requires k <= |c.orders|
  {
    if k == 0 then [] else OrdersPart(c, k - 1) + OrderPart(c, c.orders[k - 1])
  }

  function ReviewPart(c: Case, nextOpen: Time -> Time): seq<Mismatch> {
    if c.reviewedAt.Some? && c.reviewedAt.value > nextOpen(c.asOf)
    then [Mismatch(ApprovalAfterWindow, Some(nextOpen(c.asOf)), c.reviewedAt, High, false)] else []
  }

  function CutoffPart(c: Case): seq<Mismatch> {
    var latest := Latest(ResolvedTimes(c.signalIds, c.effectiveAt));
    if latest.Some? && c.backtestCutoff.Some? && latest.value > c.backtestCutoff.value
    then [Mismatch(BacktestTimingInconsistency, latest, c.backtestCutoff, High, true)] else []
  }

  function AvailabilityMismatches(c: Case, nextOpen: Time -> Time): seq<Mismatch> {
    ProposalPart(c) + OrdersPart(c, |c.orders|) + ReviewPart(c, nextOpen) + CutoffPart(c)
  }

  ghost predicate Blocked(mismatches: seq<Mismatch>) {
    exists m :: m in mismatches && m.blocking
  }

  // Idea k is the first one with this identifier.
  ghost predicate FirstIdea(ideas: seq<Idea>, ideaId: string, k: nat) {
    k < |ideas| && ideas[k].id == ideaId && forall j :: 0 <= j < k ==> ideas[j].id != ideaId
  }

  // Some signal the order rests on, through the first idea it names, is effective only after it was submitted.
  ghost predicate OrderEarly(c: Case, o: PaperOrder) {
    exists k: nat :: FirstIdea(c.ideas, o.ideaId, k)
      && c.ideas[k].signalId in c.effectiveAt && c.effectiveAt[c.ideas[k].signalId] > o.submittedAt
  }

  /**
   What must hold for the two paths to be consistent in time: no mapped signal is effective
   after the proposal or after the backtest cutoff, and no order was submitted before the signal
   of the first idea it names.
   */
  ghost predicate InTime(c: Case) {
    && (forall id :: id in c.signalIds && id in c.effectiveAt ==> c.effectiveAt[id] <= c.asOf)
    && (forall o :: o in c.orders ==> !OrderEarly(c, o))
    && (c.backtestCutoff.Some? ==>
          forall id :: id in c.signalIds && id in c.effectiveAt ==> c.effectiveAt[id] <= c.backtestCutoff.value)
  }

  lemma {:induction false} IdeaSignalExact(ideas: seq<Idea>, ideaId: string)
    ensures IdeaSignal(ideas, ideaId).None? <==> forall k :: 0 <= k < |ideas| ==> ideas[k].id != ideaId
    ensures forall k: nat :: FirstIdea(ideas, ideaId, k) ==> IdeaSignal(ideas, ideaId) == Some(ideas[k].signalId)
    ensures IdeaSignal(ideas, ideaId).Some? ==> exists k: nat :: FirstIdea(ideas, ideaId, k)
  {
    if ideas != [] && ideas[0].id != ideaId {
      var rest := ideas[1..];
      IdeaSignalExact(rest, ideaId);
      assert forall k :: 1 <= k < |ideas| ==> ideas[k] == rest[k - 1];
      forall k: nat | FirstIdea(ideas, ideaId, k)
        ensures IdeaSignal(ideas, ideaId) == Some(ideas[k].signalId)
      {
        assert FirstIdea(rest, ideaId, k - 1);
      }
      if k: nat :| FirstIdea(rest, ideaId, k) {
        assert FirstIdea(ideas, ideaId, k + 1);
      }
    } else if ideas != [] {
      assert FirstIdea(ideas, ideaId, 0);
    }
  }

  lemma OrderPartExact(c: Case, o: PaperOrder)
    ensures OrderPart(c, o) != [] <==> OrderEarly(c, o)
    ensures forall k: nat :: FirstIdea(c.ideas, o.ideaId, k) && OrderEarly(c, o) ==>
              && c.ideas[k].signalId in c.effectiveAt
              && OrderPart(c, o) == [Mismatch(TradeBeforeSignal, Some(c.effectiveAt[c.ideas[k].signalId]),
                                              Some(o.submittedAt), High, true)]
  {
    IdeaSignalExact(c.ideas, o.ideaId);
    hide IdeaSignal, FirstIdea;
    if IdeaSignal(c.ideas, o.ideaId).Some? {
      var k: nat :| FirstIdea(c.ideas, o.ideaId, k);
    }
  }

  lemma {:induction false} OrdersPartEmpty(c: Case, k: nat)
    requires k <= |c.orders|
    ensures OrdersPart(c, k) == [] <==> forall i :: 0 <= i < k ==> OrderPart(c, c.orders[i]) == []
  {
    hide OrderPart;
    if k > 0 {
      OrdersPartEmpty(c, k - 1);
      assert |OrdersPart(c, k)| == |OrdersPart(c, k - 1)| + |OrderPart(c, c.orders[k - 1])|;
    }
  }

  lemma {:induction false} OrdersPartShape(c: Case, k: nat)
    requires k <= |c.orders|
    ensures forall m :: m in OrdersPart(c, k) ==> m.blocking && m.severity == High
  {
    hide OrderSignalTime;
    if k > 0 {
      OrdersPartShape(c, k - 1);
    }
  }

  lemma LatestBounds(ids: seq<string>, effectiveAt: map<string, Time>, bound: Time)
    ensures
      var latest := Latest(ResolvedTimes(ids, effectiveAt));
      (latest.Some? ==> latest.value <= bound)
      <==> forall id :: id in ids && id in effectiveAt ==> effectiveAt[id] <= bound
  {
    var times := ResolvedTimes(ids, effectiveAt);
    var latest := Latest(times);
    if latest.Some? ==> latest.value <= bound {
      forall id | id in ids && id in effectiveAt
        ensures effectiveAt[id] <= bound
      {
        assert effectiveAt[id] in times;
      }
    } else {
      var id :| id in ids && id in effectiveAt && effectiveAt[id] == latest.value;
    }
  }

  lemma OrdersInTime(c: Case)
    ensures (forall i :: 0 <= i < |c.orders| ==> OrderPart(c, c.orders[i]) == [])
       <==> forall o :: o in c.orders ==> !OrderEarly(c, o)
  {
    forall o: PaperOrder
      ensures OrderPart(c, o) == [] <==> !OrderEarly(c, o)
    {
      OrderPartExact(c, o);
    }
    hide OrderPart, OrderEarly;
    if forall i :: 0 <= i < |c.orders| ==> OrderPart(c, c.orders[i]) == [] {
      forall o | o in c.orders
        ensures !OrderEarly(c, o)
      {
        var i :| 0 <= i < |c.orders| && c.orders[i] == o;
        assert OrderPart(c, c.orders[i]) == [];
      }
    }
  }

  /**
   Nothing blocking is detected exactly when the proposal, every traceable order and the
   backtest cutoff each come no earlier than the signals they rest on, an order resting on the
   signal of the first idea it names.
   */
  lemma VerdictExact(c: Case, nextOpen: Time -> Time)
    ensures !Blocked(AvailabilityMismatches(c, nextOpen)) <==> InTime(c)
    ensures InTime(c) <==>
              && (forall id :: id in c.signalIds && id in c.effectiveAt ==> c.effectiveAt[id] <= c.asOf)
              && (forall o, k: nat ::
                    o in c.orders && FirstIdea(c.ideas, o.ideaId, k) && c.ideas[k].signalId in c.effectiveAt ==>
                      c.effectiveAt[c.ideas[k].signalId] <= o.submittedAt)
              && (c.backtestCutoff.Some? ==>
                    forall id :: id in c.signalIds && id in c.effectiveAt ==> c.effectiveAt[id] <= c.backtestCutoff.value)
  {
    LatestBounds(c.signalIds, c.effectiveAt, c.asOf);
    if c.backtestCutoff.Some? {
      LatestBounds(c.signalIds, c.effectiveAt, c.backtestCutoff.value);
    }
    OrdersPartShape(c, |c.orders|);
    OrdersPartEmpty(c, |c.orders|);
    OrdersInTime(c);
    hide ResolvedTimes, Latest, OrderSignalTime, OrderPart, OrdersPart, OrderEarly;
    var orders, all := OrdersPart(c, |c.orders|), AvailabilityMismatches(c, nextOpen);
    if ProposalPart(c) != [] {
      assert ProposalPart(c)[0] in all;
    }
    if CutoffPart(c) != [] {
      assert CutoffPart(c)[0] in all;
    }
    if orders != [] {
      assert orders[0] in orders && orders[0] in all;
    }
  }

  // The mapping as the reconciliation service builds it: each idea's signal, first mention first.
  function IdeaSignals(ideas: seq<Idea>): (r: seq<string>)
    ensures |r| == |ideas|
    ensures forall i :: 0 <= i < |r| ==> r[i] == ideas[i].signalId
  {
    seq(|ideas|, i requires 0 <= i < |ideas| => ideas[i].signalId)
  }

  /**
   When the mapping comes from the proposal's own ideas and every order was submitted no
   earlier than a proposal that is itself in time, no order can be out of time.
   */
  lemma MappedOrdersNeverBlock(c: Case)
    requires c.signalIds == Dedup(IdeaSignals(c.ideas))
    requires forall id :: id in c.signalIds && id in c.effectiveAt ==> c.effectiveAt[id] <= c.asOf
    requires forall o :: o in c.orders ==> c.asOf <= o.submittedAt
    ensures forall o :: o in c.orders ==> !OrderEarly(c, o)
    ensures OrdersPart(c, |c.orders|) == []
  {
    AppendAllUniqueContents([], IdeaSignals(c.ideas));
    forall k: nat | k < |c.ideas|
      ensures c.ideas[k].signalId in c.signalIds
    {
      assert IdeaSignals(c.ideas)[k] == c.ideas[k].signalId;
    }
    OrdersInTime(c);
    OrdersPartEmpty(c, |c.orders|);
  }

  // The latest effective time among the mapped signals that were found.
  ghost predicate LatestMapped(c: Case, t: Time) {
    && (exists id :: id in c.signalIds && id in c.effectiveAt && c.effectiveAt[id] == t)
    && forall id :: id in c.signalIds && id in c.effectiveAt ==> c.effectiveAt[id] <= t
  }

  lemma LatestMappedExact(c: Case, t: Time)
    ensures Latest(ResolvedTimes(c.signalIds, c.effectiveAt)) == Some(t) <==> LatestMapped(c, t)
  {
    var times := ResolvedTimes(c.signalIds, c.effectiveAt);
    if LatestMapped(c, t) {
      assert t in times;
    } else if Latest(times) == Some(t) {
      assert forall id :: id in c.signalIds && id in c.effectiveAt ==> c.effectiveAt[id] in times;
    }
  }

  lemma {:induction false} OrdersPartMembers(c: Case, k: nat, m: Mismatch)
    requires k <= |c.orders|
    ensures m in OrdersPart(c, k) <==> exists i :: 0 <= i < k && m in OrderPart(c, c.orders[i])
  {
    hide OrderPart;
    if k > 0 {
      OrdersPartMembers(c, k - 1, m);
      assert m in OrdersPart(c, k) <==> m in OrdersPart(c, k - 1) || m in OrderPart(c, c.orders[k - 1]);
    }
  }

  // The mismatch that order o calls for through idea k.
  ghost predicate EarlyTrade(c: Case, o: PaperOrder, k: nat, m: Mismatch) {
    && o in c.orders && FirstIdea(c.ideas, o.ideaId, k) && c.ideas[k].signalId in c.effectiveAt
    && o.submittedAt < c.effectiveAt[c.ideas[k].signalId]
    && m == Mismatch(TradeBeforeSignal, Some(c.effectiveAt[c.ideas[k].signalId]), Some(o.submittedAt), High, true)
  }

  lemma EarlyTrades(c: Case, m: Mismatch)
    ensures m in OrdersPart(c, |c.orders|) <==> exists o, k: nat :: EarlyTrade(c, o, k, m)
  {
    OrdersPartMembers(c, |c.orders|, m);
    forall o: PaperOrder
      ensures OrderPart(c, o) != [] <==> OrderEarly(c, o)
      ensures forall k: nat :: FirstIdea(c.ideas, o.ideaId, k) && OrderEarly(c, o) ==>
                && c.ideas[k].signalId in c.effectiveAt
                && OrderPart(c, o) == [Mismatch(TradeBeforeSignal, Some(c.effectiveAt[c.ideas[k].signalId]),
                                                Some(o.submittedAt), High, true)]
    {
      OrderPartExact(c, o);
    }
    hide OrderPart, OrdersPart, FirstIdea;
    if m in OrdersPart(c, |c.orders|) {
      var i :| 0 <= i < |c.orders| && m in OrderPart(c, c.orders[i]);
      var o := c.orders[i];
      var k: nat :| FirstIdea(c.ideas, o.ideaId, k)
        && c.ideas[k].signalId in c.effectiveAt && c.effectiveAt[c.ideas[k].signalId] > o.submittedAt;
      assert EarlyTrade(c, o, k, m);
    }
    if o, k: nat :| EarlyTrade(c, o, k, m) {
      var i :| 0 <= i < |c.orders| && c.orders[i] == o;
      assert OrderEarly(c, o);
      assert m in OrderPart(c, c.orders[i]);
    }
  }

  /**
   The availability mismatches reported, one by one: the proposal against the latest mapped
   signal, each order against the signal of the first idea it names, the review against the
   next open after the proposal, and the backtest cutoff against the latest mapped signal.
   */
  lemma AvailabilityReported(c: Case, nextOpen: Time -> Time, m: Mismatch)
    ensures m in AvailabilityMismatches(c, nextOpen) <==>
              match m.kind
              case ProposalBeforeSignal =>
                exists t :: LatestMapped(c, t) && c.asOf < t
                  && m == Mismatch(ProposalBeforeSignal, Some(t), Some(c.asOf), Critical, true)
              case TradeBeforeSignal => exists o, k: nat :: EarlyTrade(c, o, k, m)
              case ApprovalAfterWindow =>
                && c.reviewedAt.Some? && c.reviewedAt.value > nextOpen(c.asOf)
                && m == Mismatch(ApprovalAfterWindow, Some(nextOpen(c.asOf)), c.reviewedAt, High, false)
              case BacktestTimingInconsistency =>
                c.backtestCutoff.Some?
                && exists t :: LatestMapped(c, t) && t > c.backtestCutoff.value
                     && m == Mismatch(BacktestTimingInconsistency, Some(t), c.backtestCutoff, High, true)
              case _ => false
  {
    EarlyTrades(c, m);
    forall t: Time
      ensures Latest(ResolvedTimes(c.signalIds, c.effectiveAt)) == Some(t) <==> LatestMapped(c, t)
    {
      LatestMappedExact(c, t);
    }
    hide OrdersPart, EarlyTrade, LatestMapped, Latest, ResolvedTimes;
    var latest := Latest(ResolvedTimes(c.signalIds, c.effectiveAt));
    assert latest.Some? ==> LatestMapped(c, latest.value);
    assert m in AvailabilityMismatches(c, nextOpen)
      <==> m in ProposalPart(c) || m in OrdersPart(c, |c.orders|) || m in ReviewPart(c, nextOpen) || m in CutoffPart(c);
    assert (exists o, k: nat :: EarlyTrade(c, o, k, m)) ==> m.kind == TradeBeforeSignal by {
      TradeKind(c, m);
    }
  }

  lemma TradeKind(c: Case, m: Mismatch)
    ensures (exists o, k: nat :: EarlyTrade(c, o, k, m)) ==> m.kind == TradeBeforeSignal
  {
  }

  // The loop over the submitted orders.
  method DetectOrderMismatches(c: Case) returns (mismatches: seq<Mismatch>)
    ensures mismatches == OrdersPart(c, |c.orders|)
  {
    hide OrderSignalTime;
    mismatches := [];
    for k := 0 to |c.orders|
      invariant mismatches == OrdersPart(c, k)
    {
      var order := c.orders[k];
      var required := OrderSignalTime(c, order);
      if required.None? {
        continue;
      }
      if order.submittedAt < required.value {
        mismatches := mismatches + [Mismatch(TradeBeforeSignal, required, Some(order.submittedAt), High, true)];
      }
    }
  }

  /** The detection in its four stages, with the verdict its result amounts to. */
  method DetectAvailabilityMismatches(c: Case, nextOpen: Time -> Time) returns (mismatches: seq<Mismatch>)
    ensures mismatches == AvailabilityMismatches(c, nextOpen)
    ensures !Blocked(mismatches) <==> InTime(c)
  {
    hide ResolvedTimes, Latest, InTime, OrderSignalTime, OrdersPart, Blocked;
    VerdictExact(c, nextOpen);
    mismatches := [];
    var latest := Latest(ResolvedTimes(c.signalIds, c.effectiveAt));
    if latest.Some? && c.asOf < latest.value {
      mismatches := mismatches + [Mismatch(ProposalBeforeSignal, latest, Some(c.asOf), Critical, true)];
    }
    var late := DetectOrderMismatches(c);
    mismatches := mismatches + late;
    assert mismatches == ProposalPart(c) + OrdersPart(c, |c.orders|);
    if c.reviewedAt.Some? {
      var window := nextOpen(c.asOf);
      if c.reviewedAt.value > window {
        mismatches := mismatches + [Mismatch(ApprovalAfterWindow, Some(window), c.reviewedAt, High, false)];
      }
    }
    assert mismatches == ProposalPart(c) + OrdersPart(c, |c.orders|) + ReviewPart(c, nextOpen);
    if latest.Some? && c.backtestCutoff.Some? && latest.value > c.backtestCutoff.value {
      mismatches := mismatches + [Mismatch(BacktestTimingInconsistency, latest, c.backtestCutoff, High, true)];
    }
  }

  // ---------- Assumption mismatches ----------

  datatype Anchor = SignalDecisionClose | NextSessionOpen | NoAutomaticExecution
  datatype PriceSource = SyntheticNextBarOpen | AssumedReferencePrice | NoPriceMaterialized
  datatype QuantityBasis = UnitPosition | NotionalByReferencePrice | NotMaterialized

  datatype TimingTerms = TimingTerms(executionAnchor: Anchor, lagBars: Option<nat>, humanApproval: bool)
  datatype FillTerms = FillTerms(priceSource: PriceSource, quantityBasis: QuantityBasis)
  datatype CostTerms = CostTerms(transactionBps: Option<real>, slippageBps: Option<real>)

  /** The assumptions one side makes about timing, fills and costs. */
  datatype Terms = Terms(timing: TimingTerms, fill: FillTerms, cost: CostTerms)

  function BacktestTerms(config: Config): Terms {
    Terms(TimingTerms(NextSessionOpen, Some(config.lag), false),
          FillTerms(SyntheticNextBarOpen, UnitPosition),
          CostTerms(Some(config.transactionBps), Some(config.slippageBps)))
  }

  // Present values: their common value, else their maximum.
  function UniformValue(values: seq<Option<real>>): Option<real> {
    var present := Present(values);
    if present == [] then None
    else if forall x :: x in present ==> x == present[0] then Some(present[0])
    else Some(Largest(present))
  }

  function Present(values: seq<Option<real>>): seq<real> {
    if values == [] then []
    else (if values[0].Some? then [values[0].value] else []) + Present(values[1..])
  }

  function Largest(xs: seq<real>): (r: real)
    requires xs != []
    ensures r in xs && forall x :: x in xs ==> x <= r
  {
    assert xs == [xs[0]] + xs[1..];
    if |xs| == 1 then xs[0]
    else
      var rest := Largest(xs[1..]);
      if rest > xs[0] then rest else xs[0]
  }

  function SlippageOf(orders: seq<PaperOrder>): (r: seq<Option<real>>)
    ensures |r| == |orders|
    ensures forall i :: 0 <= i < |r| ==> r[i] == orders[i].slippageBps
  {
    seq(|orders|, i requires 0 <= i < |orders| => orders[i].slippageBps)
  }

  function PaperTerms(orders: seq<PaperOrder>): Terms {
    Terms(TimingTerms(NoAutomaticExecution, None, true),
          FillTerms(
            if exists o :: o in orders && o.referencePrice.Some? then AssumedReferencePrice else NoPriceMaterialized,
            if exists o :: o in orders && o.quantity.Some? then NotionalByReferencePrice else NotMaterialized),
          CostTerms(None, UniformValue(SlippageOf(orders))))
  }

  function Assumption(kind: MismatchKind, severity: Severity): Mismatch {
    Mismatch(kind, None, None, severity, false)
  }

  // ---------- Which assumptions are compared, and when they differ ----------

  function LagOf(timing: TimingTerms): nat {
    if timing.lagBars.Some? then timing.lagBars.value else 0
  }

  function When(condition: bool, m: Mismatch): seq<Mismatch> {
    if condition then [m] else []
  }

  function AssumptionMismatches(b: Terms, p: Terms): seq<Mismatch> {
    When(b.timing.executionAnchor != p.timing.executionAnchor, Assumption(ExecutionAnchorMismatch, High))
    + When(LagOf(b.timing) != 0, Assumption(LagMismatch, Medium))
    + When(b.cost != p.cost, Assumption(CostModelMismatch, Medium))
    + When(b.fill.priceSource != p.fill.priceSource, Assumption(FillPriceBasisMismatch, High))
    + When(b.fill.quantityBasis != p.fill.quantityBasis, Assumption(QuantityBasisMismatch, Medium))
    + When(b.timing.humanApproval != p.timing.humanApproval, Assumption(ApprovalRequirementMismatch, High))
  }

  ghost predicate Reported(mismatches: seq<Mismatch>, kind: MismatchKind) {
    exists m :: m in mismatches && m.kind == kind
  }

  lemma ReportedAppend(a: seq<Mismatch>, condition: bool, m: Mismatch, kind: MismatchKind)
    ensures Reported(a + When(condition, m), kind) <==> Reported(a, kind) || (condition && m.kind == kind)
  {
    assert forall x :: x in a + When(condition, m) <==> x in a || (condition && x == m);
  }

  /**
   A mismatch of a kind is reported exactly when the two sides' terms of that kind differ; for
   the lag, exactly when the backtest has one, the paper side having none to compare it with.
   */
  lemma AssumptionReported(b: Terms, p: Terms, kind: MismatchKind)
    ensures Reported(AssumptionMismatches(b, p), kind) <==>
              match kind
              case ExecutionAnchorMismatch => b.timing.executionAnchor != p.timing.executionAnchor
              case LagMismatch => b.timing.lagBars.Some? && b.timing.lagBars.value > 0
              case CostModelMismatch =>
                b.cost.transactionBps != p.cost.transactionBps || b.cost.slippageBps != p.cost.slippageBps
              case FillPriceBasisMismatch => b.fill.priceSource != p.fill.priceSource
              case QuantityBasisMismatch => b.fill.quantityBasis != p.fill.quantityBasis
              case ApprovalRequirementMismatch => b.timing.humanApproval != p.timing.humanApproval
              case _ => false
  {
    hide When, Reported;
    var c0, m0 := b.timing.executionAnchor != p.timing.executionAnchor, Assumption(ExecutionAnchorMismatch, High);
    var c1, m1 := LagOf(b.timing) != 0, Assumption(LagMismatch, Medium);
    var c2, m2 := b.cost != p.cost, Assumption(CostModelMismatch, Medium);
    var c3, m3 := b.fill.priceSource != p.fill.priceSource, Assumption(FillPriceBasisMismatch, High);
    var c4, m4 := b.fill.quantityBasis != p.fill.quantityBasis, Assumption(QuantityBasisMismatch, Medium);
    var c5, m5 := b.timing.humanApproval != p.timing.humanApproval, Assumption(ApprovalRequirementMismatch, High);
    var r0 := When(c0, m0);
    var r1 := r0 + When(c1, m1);
    var r2 := r1 + When(c2, m2);
    var r3 := r2 + When(c3, m3);
    var r4 := r3 + When(c4, m4);
    ReportedFirst(c0, m0, kind);
    ReportedAppend(r0, c1, m1, kind);
    ReportedAppend(r1, c2, m2, kind);
    ReportedAppend(r2, c3, m3, kind);
    ReportedAppend(r3, c4, m4, kind);
    ReportedAppend(r4, c5, m5, kind);
  }

  lemma ReportedFirst(condition: bool, m: Mismatch, kind: MismatchKind)
    ensures Reported(When(condition, m), kind) <==> condition && m.kind == kind
  {
    ReportedAppend([], condition, m, kind);
    assert [] + When(condition, m) == When(condition, m);
  }

  lemma BlockedAppend(a: seq<Mismatch>, condition: bool, m: Mismatch)
    requires !Blocked(a) && !m.blocking
    ensures !Blocked(a + When(condition, m))
  {
  }

  lemma NoneBlocks(b: Terms, p: Terms)
    ensures !Blocked(AssumptionMismatches(b, p))
  {
    hide When, Blocked;
    var r0 := When(b.timing.executionAnchor != p.timing.executionAnchor, Assumption(ExecutionAnchorMismatch, High));
    var r1 := r0 + When(LagOf(b.timing) != 0, Assumption(LagMismatch, Medium));
    var r2 := r1 + When(b.cost != p.cost, Assumption(CostModelMismatch, Medium));
    var r3 := r2 + When(b.fill.priceSource != p.fill.priceSource, Assumption(FillPriceBasisMismatch, High));
    var r4 := r3 + When(b.fill.quantityBasis != p.fill.quantityBasis, Assumption(QuantityBasisMismatch, Medium));
    FirstUnblocked(b.timing.executionAnchor != p.timing.executionAnchor, Assumption(ExecutionAnchorMismatch, High));
    BlockedAppend(r0, LagOf(b.timing) != 0, Assumption(LagMismatch, Medium));
    BlockedAppend(r1, b.cost != p.cost, Assumption(CostModelMismatch, Medium));
    BlockedAppend(r2, b.fill.priceSource != p.fill.priceSource, Assumption(FillPriceBasisMismatch, High));
    BlockedAppend(r3, b.fill.quantityBasis != p.fill.quantityBasis, Assumption(QuantityBasisMismatch, Medium));
    BlockedAppend(r4, b.timing.humanApproval != p.timing.humanApproval, Assumption(ApprovalRequirementMismatch, High));
  }

  lemma FirstUnblocked(condition: bool, m: Mismatch)
    requires !m.blocking
    ensures !Blocked(When(condition, m))
  {
  }

  lemma AppendWhen(a: seq<Mismatch>, condition: bool, m: Mismatch)
    ensures a + When(condition, m) == if condition then a + [m] else a
  {
  }

  lemma FirstWhen(condition: bool, m: Mismatch)
    ensures When(condition, m) == if condition then [] + [m] else []
  {
  }

  /**
   The detected assumption mismatches: none unless all three backtest assumptions are present;
   then each kind exactly when its terms differ, in a fixed order; never a blocking one.
   */
  method DetectAssumptionMismatches(timing: Option<TimingTerms>, fill: Option<FillTerms>, cost: Option<CostTerms>,
                                    paper: Terms) returns (mismatches: seq<Mismatch>)
    ensures timing.None? || fill.None? || cost.None? ==> mismatches == []
    ensures timing.Some? && fill.Some? && cost.Some? ==>
              mismatches == AssumptionMismatches(Terms(timing.value, fill.value, cost.value), paper)
    ensures !Blocked(mismatches)
  {
    mismatches := [];
    if timing.None? || fill.None? || cost.None? {
      return;
    }
    ghost var b := Terms(timing.value, fill.value, cost.value);
    NoneBlocks(b, paper);
    hide When, Assumption, Blocked;
    if timing.value.executionAnchor != paper.timing.executionAnchor {
      mismatches := mismatches + [Assumption(ExecutionAnchorMismatch, High)];
    }
    FirstWhen(timing.value.executionAnchor != paper.timing.executionAnchor, Assumption(ExecutionAnchorMismatch, High));
    AppendWhen(mismatches, LagOf(timing.value) != 0, Assumption(LagMismatch, Medium));
    if (if timing.value.lagBars.Some? then timing.value.lagBars.value else 0) != 0 {
      mismatches := mismatches + [Assumption(LagMismatch, Medium)];
    }
    AppendWhen(mismatches, cost.value != paper.cost, Assumption(CostModelMismatch, Medium));
    if cost.value.transactionBps != paper.cost.transactionBps || cost.value.slippageBps != paper.cost.slippageBps {
      mismatches := mismatches + [Assumption(CostModelMismatch, Medium)];
    }
    AppendWhen(mismatches, fill.value.priceSource != paper.fill.priceSource, Assumption(FillPriceBasisMismatch, High));
    if fill.value.priceSource != paper.fill.priceSource {
      mismatches := mismatches + [Assumption(FillPriceBasisMismatch, High)];
    }
    AppendWhen(mismatches, fill.value.quantityBasis != paper.fill.quantityBasis, Assumption(QuantityBasisMismatch, Medium));
    if fill.value.quantityBasis != paper.fill.quantityBasis {
      mismatches := mismatches + [Assumption(QuantityBasisMismatch, Medium)];
    }
    AppendWhen(mismatches, timing.value.humanApproval != paper.timing.humanApproval,
               Assumption(ApprovalRequirementMismatch, High));
    if timing.value.humanApproval != paper.timing.humanApproval {
      mismatches := mismatches + [Assumption(ApprovalRequirementMismatch, High)];
    }
  }

  // ---------- Severity of the report ----------

  function HighestSeverity(severities: seq<Severity>): (r: Severity)
    ensures severities == [] ==> r == Info
    ensures severities != [] ==> r in severities
    ensures forall s :: s in severities ==> Rank(s) <= Rank(r)
  {
    if severities == [] then Info
    else
      assert severities == [severities[0]] + severities[1..];
      var rest := HighestSeverity(severities[1..]);
      if Rank(rest) > Rank(severities[0]) then rest else severities[0]
  }

  function Severities(mismatches: seq<Mismatch>): (r: seq<Severity>)
    ensures |r| == |mismatches|
    ensures forall i :: 0 <= i < |r| ==> r[i] == mismatches[i].severity
  {
    seq(|mismatches|, i requires 0 <= i < |mismatches| => mismatches[i].severity)
  }

  /**
   Built from the two sides' own terms, the comparison always reports all six assumption
   mismatches, so its severity is never below high; together with the availability mismatches
   and warnings of at most high severity it is critical exactly when the proposal precedes a
   signal it rests on.
   */
  lemma ReportSeverity(c: Case, config: Config, nextOpen: Time -> Time, warnings: seq<Severity>)
    requires forall s :: s in warnings ==> Rank(s) <= Rank(High)
    ensures
      var assumed := AssumptionMismatches(BacktestTerms(config), PaperTerms(c.orders));
      var found := AvailabilityMismatches(c, nextOpen);
      && |assumed| == 6
      && HighestSeverity(Severities(assumed + found) + warnings)
         == if exists id :: id in c.signalIds && id in c.effectiveAt && c.effectiveAt[id] > c.asOf
            then Critical else High
  {
    hide PaperTerms, ResolvedTimes, OrdersPart;
    SixAssumptions(config, c.orders);
    LatestBounds(c.signalIds, c.effectiveAt, c.asOf);
    AvailabilitySeverity(c, nextOpen);
    WorstOf(AssumptionMismatches(BacktestTerms(config), PaperTerms(c.orders)), AvailabilityMismatches(c, nextOpen),
            warnings);
  }

  lemma SixAssumptions(config: Config, orders: seq<PaperOrder>)
    ensures
      var assumed := AssumptionMismatches(BacktestTerms(config), PaperTerms(orders));
      && |assumed| == 6 && assumed[0].severity == High
      && forall m :: m in assumed ==> Rank(m.severity) <= Rank(High)
  {
    hide UniformValue, AssumptionMismatches;
    AllTermsDiffer(BacktestTerms(config), PaperTerms(orders));
  }

  lemma AllTermsDiffer(b: Terms, p: Terms)
    requires b.timing.executionAnchor != p.timing.executionAnchor && b.timing.humanApproval != p.timing.humanApproval
    requires b.timing.lagBars.Some? && b.timing.lagBars.value != 0 && b.cost != p.cost
    requires b.fill.priceSource != p.fill.priceSource && b.fill.quantityBasis != p.fill.quantityBasis
    ensures AssumptionMismatches(b, p)
         == [Assumption(ExecutionAnchorMismatch, High), Assumption(LagMismatch, Medium),
             Assumption(CostModelMismatch, Medium), Assumption(FillPriceBasisMismatch, High),
             Assumption(QuantityBasisMismatch, Medium), Assumption(ApprovalRequirementMismatch, High)]
  {
  }

  lemma AvailabilitySeverity(c: Case, nextOpen: Time -> Time)
    ensures
      var found := AvailabilityMismatches(c, nextOpen);
      && (ProposalPart(c) != [] ==> exists m :: m in found && m.severity == Critical)
      && (ProposalPart(c) == [] ==> forall m :: m in found ==> Rank(m.severity) <= Rank(High))
  {
    OrdersPartShape(c, |c.orders|);
    if ProposalPart(c) != [] {
      assert ProposalPart(c)[0] in AvailabilityMismatches(c, nextOpen);
    }
  }

  lemma SeverityPresent(mismatches: seq<Mismatch>, warnings: seq<Severity>, m: Mismatch)
    requires m in mismatches
    ensures m.severity in Severities(mismatches) + warnings
  {
    var i :| 0 <= i < |mismatches| && mismatches[i] == m;
    assert Severities(mismatches)[i] == m.severity;
  }

  lemma SeverityBounded(mismatches: seq<Mismatch>, warnings: seq<Severity>)
    requires forall m :: m in mismatches ==> Rank(m.severity) <= Rank(High)
    requires forall s :: s in warnings ==> Rank(s) <= Rank(High)
    ensures forall s :: s in Severities(mismatches) + warnings ==> Rank(s) <= Rank(High)
  {
    forall s | s in Severities(mismatches)
      ensures Rank(s) <= Rank(High)
    {
      var i :| 0 <= i < |mismatches| && Severities(mismatches)[i] == s;
      assert mismatches[i] in mismatches;
    }
  }

  lemma WorstOf(assumed: seq<Mismatch>, found: seq<Mismatch>, warnings: seq<Severity>)
    requires assumed != [] && assumed[0].severity == High
    requires forall m :: m in assumed ==> Rank(m.severity) <= Rank(High)
    requires forall s :: s in warnings ==> Rank(s) <= Rank(High)
    ensures (exists m :: m in found && m.severity == Critical)
        ==> HighestSeverity(Severities(assumed + found) + warnings) == Critical
    ensures (forall m :: m in found ==> Rank(m.severity) <= Rank(High))
        ==> HighestSeverity(Severities(assumed + found) + warnings) == High
  {
    hide Severities, HighestSeverity;
    var both := assumed + found;
    SeverityPresent(both, warnings, both[0]);
    if exists m :: m in found && m.severity == Critical {
      var m :| m in found && m.severity == Critical;
      SeverityPresent(both, warnings, m);
    }
    if forall m :: m in found ==> Rank(m.severity) <= Rank(High) {
      SeverityBounded(both, warnings);
    }
  }

  lemma {:induction false} PresentMembers(values: seq<Option<real>>, x: real)
    ensures x in Present(values) <==> Some(x) in values
  {
    if values != [] {
      PresentMembers(values[1..], x);
      assert Some(x) in values <==> values[0] == Some(x) || Some(x) in values[1..];
    }
  }

  /**
   The special case for equal values is redundant: the reported value is the largest one
   present, and there is none exactly when none is present.
   */
  lemma UniformIsLargest(values: seq<Option<real>>)
    ensures UniformValue(values).None? <==> forall v :: v in values ==> v.None?
    ensures UniformValue(values).Some? ==>
              && UniformValue(values) in values
              && forall v :: v in values && v.Some? ==> v.value <= UniformValue(values).value
  {
    forall v | v in values && v.Some?
      ensures v.value in Present(values)
    {
      PresentMembers(values, v.value);
    }
    if Present(values) != [] {
      PresentMembers(values, Present(values)[0]);
      PresentMembers(values, Largest(Present(values)));
    }
    hide Present;
  }

  /**
   What each side of a reconciliation assumes: the backtest fills at the next session's open
   after its own lag, at its own rates; the paper side never fills by itself, and its prices,
   quantities and slippage are those its orders state, if any does.
   */
  lemma TermsCompared(config: Config, orders: seq<PaperOrder>)
    ensures
      var b, p := BacktestTerms(config), PaperTerms(orders);
      && b.timing == TimingTerms(NextSessionOpen, Some(config.lag), false)
      && b.fill == FillTerms(SyntheticNextBarOpen, UnitPosition)
      && b.cost == CostTerms(Some(config.transactionBps), Some(config.slippageBps))
      && p.timing == TimingTerms(NoAutomaticExecution, None, true)
      && p.cost.transactionBps == None
      && (p.fill.priceSource == AssumedReferencePrice <==> exists o :: o in orders && o.referencePrice.Some?)
      && (p.fill.quantityBasis == NotionalByReferencePrice <==> exists o :: o in orders && o.quantity.Some?)
      && (p.cost.slippageBps.Some? <==> exists o :: o in orders && o.slippageBps.Some?)
      && (forall o :: o in orders && o.slippageBps.Some? ==> o.slippageBps.value <= p.cost.slippageBps.value)
  {
    var values := SlippageOf(orders);
    UniformIsLargest(values);
    hide UniformValue, SlippageOf;
    forall o | o in orders
      ensures o.slippageBps in values
    {
      var i :| 0 <= i < |orders| && orders[i] == o;
      assert values[i] == o.slippageBps;
    }
    if UniformValue(values).Some? {
      var i :| 0 <= i < |values| && values[i] == UniformValue(values);
      assert orders[i] in orders && orders[i].slippageBps.Some?;
    }
  }
}
