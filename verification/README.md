# Backtest simulation, verified model

This project models the exploratory backtest engine of the repository in Dafny and proves what
the engine promises: conservation of money, no look-ahead, the discipline of scheduled fills,
exact signal selection, a replayable event log, and equivalence with its own benchmarks. Around
the engine it models the strategy variants that feed it, the reconciliation of a backtest with
the paper-trading path, the review lifecycle, the completeness lists of the quality gates, and
the text canonical identifiers are hashed from.

## How it is built

- `Market`, `Timing`: bars, signals, inputs, configuration; decision cutoffs and availability.
- `Eligibility`: which signal drives a decision, and the log entries refusals leave.
- `Schedule`: positions and recorded targets as a closed recurrence over the proposals, for any
  lag; `Ledger`: cash, costs and profit as prefix sums over it; `Journal`: decisions, events,
  benchmarks and replay.
- `Machine`: the bar loop over explicit states with its dictionary of pending fills, and the
  proof that it passes exactly through the states the recurrence gives.
- `Audit`, `Snapshots`, `Backtest`: the audit trail, the snapshots a run opens with, and the
  whole run as a function (`Backtest.Run`), errors included.
- `Simulator`: the engine as a class whose methods update those fields and logs in place.
  `Simulator.RunBacktest` returns exactly `Backtest.Run`, so every theorem about that function
  is a theorem about the loop. Theorems about reports speak of `Backtest.Completed`, which by
  `Backtest.RunOutcome` is what a run returns unless it is refused.
- `Causality`, `AuditCausality`, `Equivalences`: theorems about one run, about two runs, and
  about a run and its benchmarks.
- `Variants`, `VariantRuns`, `Comparison`: the strategy variants, their composition with the
  engine, and the ordering of results.
- `Examples`: concrete runs behind the conditions that can fail.
- `Reconciliation`, `ReviewTransitions`, `Completeness`, `CanonicalIds`: the supporting rules.
- `Sequences`, `Wrappers`: stable sorting, filtering, append-if-absent, option and result.

Prices, cash and basis points are exact reals. Times are integers (microseconds, UTC). The clock
is read once and passed in; the exchange calendar's opening instant is a field of the bar in the
simulation and a parameter in the reconciliation. Identifiers hashed from several parts are
injective constructors over those parts; signal and feature identifiers are strings ordered
lexicographically. The bar fixture is assumed as its schema guarantees it: at least two bars,
strictly increasing times, positive prices. The lag is any number of bars from one up.

## What the proofs found

Each of these is a statement about the code as written, proved in the member named.

- A recorded target need not be reached. With a lag above one, a decision that already holds its
  target does not cancel an order still in flight. The target is reached exactly when the decision
  orders, nothing is in flight, or the latest order in flight has the same target
  (`TargetReached`, and `DecisionOutcome` in terms of the dictionary of pending fills).
  `TargetMissed` is a run of the repository's own momentum variant that misses one.
- Fills can move nothing and still count as trades: exactly those whose target the latest order
  in flight already had (`IdleFill`). A constant view with lag `L` counts up to `L` fills of which
  only the first trades (`ConstantRun`). With lag one every fill trades (`LagOne`).
- Availability is not monotone in the cutoff, because a window can close: it lasts exactly until
  then (`AvailabilityPersists`, `AvailabilityEnds`), although the architecture notes say that
  signals do not expire.
- The up-front lineage check is weaker than the one made at each decision (`TraceabilityGap`).
- The buy-and-hold benchmark buys at the last bar's open when the lag reaches past the window,
  where no fill could happen. An always positive run then trails it by the last bar's move and not
  by the cost of one fill; the two agree exactly when the fill fits or the move happens to equal
  that cost (`BenchmarkEquivalence`; `BenchmarkMissed` is a run where they do not). A buy-and-hold
  value that is not positive refuses the run (`RunOutcome`).
- Approval does not clear a proposal's blocking issues (`ApprovedWithIssues`). Reviewing stamps the
  decision's time without revalidating: an idea or proposal breaks its schema exactly when its last
  decision, whatever the outcome, predates its creation (`UpdateOrderKept`,
  `ReviewedProposalCoherent`), and a trade exactly when that happens or its last approval predates
  its submission (`ReviewedTradeCoherent`; `ReviewBreaksTrade` has an input for each half).
- Built from the two sides' own terms, a reconciliation always reports all six assumption
  mismatches, so its severity is high or critical, never less (`ReportSeverity`).
- The completeness validator refuses a field listed both ways (`ConflictRefused`) and, up to 999
  names, a present name repeated without any conflict exactly when some other field is missing
  (`RepeatedNameRefused`); on longer lists its six-digit rounding can hide the repetition
  (`LargeListsAccepted`). `AcceptedByRounding` has the condition for any list and rounding.
- In the combined variant the second sort of the text signals changes nothing (`SecondSortIdle`).

## Model

| member | source | states |
|---|---|---|
| Simulator.RunBacktest | services/backtesting/simulation.py:92-491 | the in-place engine returns exactly the specified report, or the first error met; everything proved of Backtest.Run holds of it |
| Causality.ReportWindow | services/backtesting/simulation.py:495-509 | a completed run decides once at each fixture bar from the start of the first test day to the end of the last, at its close, and at no other |
| Causality.DecisionsFollowBest | services/backtesting/simulation.py:241-272 | each decision names a qualifying signal none surpasses, or none when none qualifies, and unless skipped records long, short or flat by its stance |
| Market.BarsBetweenContiguous | services/backtesting/simulation.py:502-506 | the bars kept are one contiguous stretch of an ordered fixture, all before it too early and all after it too late |
| Simulator.Engine.constructor | services/backtesting/simulation.py:168-197 | the run opens flat, with the starting cash, no pending fill, one started event and the opening checks on record |
| Simulator.Engine.Step | services/backtesting/simulation.py:199-353 | one bar takes account and audit trail from the specified state before the bar to the specified state after it |
| Simulator.Engine.RunBars | services/backtesting/simulation.py:199-353 | all bars together reach the specified final state |
| Simulator.Engine.FillPending | services/backtesting/simulation.py:203-239 | from the state the closed form prescribes before the bar, the fill phase reaches the one it prescribes after it: position, cash, costs, turnover, trades, dictionary and log |
| Simulator.Engine.RecordDecision | services/backtesting/simulation.py:251-334 | deciding carries that state on to the one with the prescribed decision, event and scheduled fill |
| Simulator.Engine.MarkToMarket | services/backtesting/simulation.py:336-353 | marking completes the bar: the account is the one the closed form prescribes after it |
| Simulator.Engine.SelectSignal | services/backtesting/simulation.py:649-707 | returns the specified choice and extends the leakage, anomaly and timing-safe records by exactly this decision's entries |
| Simulator.Engine.ValidateSignal | services/backtesting/simulation.py:963-1030 | passes exactly when lineage is closed and every feature was available, and records each refusal once |
| Simulator.Engine.AppendLeak | services/backtesting/simulation.py:913-917 | appends an entry only if absent, keeping order |
| Machine.MachineRefinesSchedule | services/backtesting/simulation.py:172-217 | after any number of bars the loop with its pending dictionary is in exactly the state the closed recurrence for positions and targets prescribes, for every lag |
| Machine.PendingDiscipline | services/backtesting/simulation.py:203-216 | pending keys lie within the next lag bars and inside the window, the key a decision writes is free, and none is left at the end |
| Schedule.FillsMatchOrders | services/backtesting/simulation.py:330-334 | fills are the orders shifted by the lag, one to one, each landing on its decision's target |
| Schedule.FillBounds | services/backtesting/simulation.py:753-760 | positions stay within one unit, fills within two, a bar without a fill moves nothing, and a fill lands on its decision's target |
| Schedule.LagOne | services/backtesting/simulation.py:267-272 | with lag one the position trails the recorded targets and every fill trades |
| Schedule.TargetReached | services/backtesting/simulation.py:330-334 | a recorded target is reached lag bars later exactly when its decision ordered, no order was in flight, or the latest one in flight had the same target |
| Schedule.IdleFill | services/backtesting/simulation.py:203-217 | the fill of an order moves nothing exactly when the latest order in flight at its decision had the same target |
| Machine.HeadingAgrees | services/backtesting/simulation.py:330-334 | the last fill in the dictionary is the latest order in flight, so the state itself tells where the account is heading |
| Machine.DecisionOutcome | services/backtesting/simulation.py:199-353 | read off the state a decision was made in: the position just before its fill is due, whether its target is reached, and whether its fill trades |
| Examples.TargetMissed | services/backtesting/simulation.py:267-334 | a run of the momentum variant with lag two whose fifth decision records a target the run never reaches |
| Schedule.ScheduleTruncated | services/backtesting/simulation.py:267-272 | a shorter window changes no position, and a target exactly where it must skip a move the longer one executes |
| Ledger.CostsAreTurnover | services/backtesting/simulation.py:207-214 | accumulated costs are turnover at the sum of the two rates, after any number of bars |
| Ledger.GrossPnlByFills | services/backtesting/simulation.py:360-379 | gross profit is the sum over fills of quantity times final close less fill price |
| Ledger.GrossPnlByBars | services/backtesting/simulation.py:360-379 | gross profit is also the bar-by-bar sum of exposure times price change |
| Ledger.GrossPnlWithinVariation | services/backtesting/simulation.py:360-379 | no run earns or loses more than the total variation of the price path |
| Equivalences.ReportConservation | services/backtesting/simulation.py:360-397 | the reported summary of every completed run obeys all the conservation laws together |
| Journal.ReplayFullLog | services/backtesting/simulation.py:181-197 | folding the log gives cash, costs and every position it states, and its length is 2 bars + trades + 4 |
| Equivalences.ReportReplay | services/backtesting/simulation.py:399-438 | the reported events reproduce the reported ending value, costs and trade count, and no event identifier repeats |
| Journal.EventIdsDistinct | services/backtesting/simulation.py:274-279 | with increasing bar times all event identifiers of a run differ |
| Journal.LogContents | services/backtesting/simulation.py:203-353 | the log says of each bar its fill, with both charges at their own rates and the cash moved, its decision and its mark |
| Journal.LogEnds | services/backtesting/simulation.py:181-438 | the log opens flat at the first open and closes with both benchmarks and the final position |
| Journal.ActionMeaning | services/backtesting/simulation.py:763-774 | each of the six recorded actions exactly characterised by the proposal, the position found, the target and the window's end |
| Eligibility.ValidationExact | services/backtesting/simulation.py:963-1030 | a signal passes exactly when lineage is closed and all features it rests on were available; every recorded refusal names it |
| Eligibility.RefusalsExact | services/backtesting/simulation.py:972-1030 | exactly which entries a refusal records: the first lineage rule broken, or all features never loaded, or else all that come too late |
| Eligibility.FeatureIdsMembers | services/backtesting/simulation.py:944-960 | the resolved features are exactly those the signal rests on, directly or through known sources |
| Eligibility.TraceabilityGap | services/backtesting/simulation.py:926-941 | what the up-front lineage check asks for, and what it overlooks compared with the per-decision one |
| Eligibility.SelectionExact | services/backtesting/simulation.py:662-707 | the choice is a qualifying signal, in terms of status, window, buffer in minutes, lineage and features, that no other surpasses by time, then absolute score, then identifier; there is none exactly when none qualifies |
| Sequences.TextLeqExact | services/backtesting/simulation.py:700-707 | the identifier order is code-point order: a prefix first, else by the first difference |
| Eligibility.SelectionIgnoresOrder | services/backtesting/simulation.py:697-707 | with distinct identifiers the load order of signals does not matter |
| Eligibility.SelectionAdvances | services/backtesting/simulation.py:681-707 | over time the choice is never surpassed by an earlier one whose window is still open |
| Eligibility.SelectionCausal | services/backtesting/simulation.py:662-707 | a decision cannot tell apart worlds that agree on what was out by a later time |
| Timing.AvailabilityPersists | services/timing/service.py:338-352 | an available artifact stays available exactly until its window closes |
| Timing.AvailabilityEnds | services/timing/service.py:338-352 | whatever has a closing time and was available is unavailable at every bar after it |
| Timing.AvailabilityIsPast | services/timing/service.py:303-352 | whatever the cutoff lets in was visible when the decision was made |
| Causality.NoLookAhead | services/backtesting/simulation.py:199-353 | worlds that agree on bars and knowledge through bar k leave the simulator in the same state after bar k, whatever comes later |
| Causality.NoLookAheadInReports | services/backtesting/simulation.py:306-353 | the completed reports then share their first k + 1 decisions and the log up to that bar |
| AuditCausality.NoLookAheadInAudit | services/backtesting/simulation.py:649-750 | such worlds also refuse the same signals, record the same entries except those naming a feature not yet available, and note the same anomalies |
| Causality.TruncationEffect | services/backtesting/simulation.py:267-272 | an earlier window end changes no position, fill or cash inside it, and a decision exactly where a move no longer fits |
| Causality.PicksAdvance | services/backtesting/simulation.py:649-707 | with open-ended windows a run never drops back to a weaker or older signal or to none |
| Causality.DecisionsLookBack | docs/research/temporal_correctness.md:40-46 | every decision naming a signal obeys the documented temporal rules on status, buffer, lineage and features |
| Equivalences.TermsIndependence | services/backtesting/simulation.py:207-217 | costs and capital change no decision, position, fill or gross result; net falls by turnover times the rise in rate |
| Equivalences.ConstantRun | services/backtesting/simulation.py:251-272 | ending value, fill count and fill quantities of a run whose view never changes, long, short or neutral, for every lag |
| Equivalences.BenchmarkEquivalence | services/backtesting/simulation.py:777-814 | always positive trails buy-and-hold by the cost of one fill when the fill fits and by the last bar's move when it does not, with the exact condition for the former; always neutral or nothing equals the flat baseline |
| Journal.BenchmarksExact | services/backtesting/simulation.py:777-830 | both benchmarks start from the starting cash, and each return times it is the change in value |
| Examples.BenchmarkMissed | services/backtesting/simulation.py:777-814 | a free, always positive run with the lag past the window that ends flat while buy-and-hold gains |
| Audit.LeakageExact | services/backtesting/simulation.py:664-695 | the leakage checks hold each opening check, each refusal of a timely signal and the pass marker once, and nothing else |
| Audit.OpeningExact | services/backtesting/simulation.py:124-166 | which opening checks are on record: the window check by the days of the bars, and each signal without its lineage by name, or that all have it |
| Audit.RefusalsAreRecorded | services/backtesting/simulation.py:688-694 | a timely signal refused at any decision is named to the end of the run |
| Audit.RecordedRefusalsHappened | services/backtesting/simulation.py:972-1030 | every refusal on record was made by some decision |
| Audit.AnomaliesExact | services/backtesting/simulation.py:668-679 | however many bars run, the anomalies are exactly the allowed signals without a window, each once |
| Audit.AnomalyCount | services/backtesting/simulation.py:710-750 | with distinct identifiers their number is the number of such signals |
| Backtest.ReportAudit | services/backtesting/simulation.py:440-469 | the completed report carries these records |
| Backtest.RunOutcome | services/backtesting/simulation.py:355-358 | which of the four refusals a run meets, or that it completes, in terms of the loaded inputs |
| Snapshots.PriceSnapshotOrdered | services/backtesting/simulation.py:594-611 | the price snapshot always satisfies the schema's time order |
| Snapshots.PriceSnapshotExact | services/backtesting/simulation.py:594-611 | the price snapshot spans the first to the last bar and is taken at the latest of now, the last bar and the last decision |
| Backtest.ReportSnapshots | services/backtesting/simulation.py:107-122 | the completed report carries the last decision time and the snapshots of its own inputs |
| Snapshots.SignalSnapshotOrdered | services/backtesting/simulation.py:530-547 | the signal snapshot does exactly when its signals were created in time, or, without signals, when the last cutoff has passed |
| Variants.MaterializeMomentum | services/backtesting/ablation.py:1203-1238 | the bar loop emits exactly the specified signal for each bar from the fourth on, or refuses a slice of fewer than two bars |
| Variants.MomentumStance | services/backtesting/ablation.py:1016-1029 | through scaling, clamping and thresholds the stance flips exactly at a 1.25% move |
| Variants.MomentumShape | services/backtesting/ablation.py:1204-1219 | times strictly increase; each score is twenty times the three-bar relative move, cut off at one and minus one; stances flip at 1.25%; and every other field of the signal |
| Variants.MaterializeBlend | services/backtesting/ablation.py:1254-1323 | the combined executor emits exactly the specified blend |
| Variants.NestedIsMerge | services/backtesting/ablation.py:1273-1286 | the quadratic search emits the same signals as one pass over both lists |
| Variants.BlendExact | services/backtesting/ablation.py:1273-1313 | outputs are a time-increasing suffix; each mixes a momentum score evenly with that of the latest text effective by then, cut off at one and minus one, with stance, source, snapshots, status and window |
| Variants.BlendTextNeverRecedes | services/backtesting/ablation.py:1274-1281 | of two emitted signals the later one never uses an earlier text |
| Variants.BlendClampIdle | services/backtesting/ablation.py:1282-1286 | the clamp does not bite when the text score is in range |
| Variants.SliceTextsStable | services/backtesting/ablation.py:990-1001 | text signals of one instant inside the slice keep their load order, and outside it none is kept |
| Variants.SliceTextsExact | services/backtesting/ablation.py:990-1001 | the texts of a slice are those effective from its first day to its last, in order of time |
| Variants.SecondSortIdle | services/backtesting/ablation.py:1270-1270 | sorting the adapted text signals again changes nothing |
| VariantRuns.VariantCausality | services/backtesting/ablation.py:1203-1234 | for every variant, changing prices after bar k, in signals and fills alike, leaves the simulator's state after bar k unchanged |
| VariantRuns.PriceOnlyPick | services/backtesting/ablation.py:1204-1234 | the momentum signal picked is that of the latest bar from the fourth on whose close was out, buffer included |
| VariantRuns.PriceOnlyProposals | services/backtesting/simulation.py:251-255 | end to end, for any slice, window and buffer, a momentum run follows the 1.25% rule on the latest slice bar out by each decision, and proposes nothing before the fourth one is out |
| VariantRuns.PlainPriceOnly | services/backtesting/simulation.py:251-255 | without a buffer and with the slice as window the rule compares each bar with the one three before it |
| VariantRuns.MaterializedExact | services/backtesting/ablation.py:1112-1186 | the naive variant emits one neutral signal at the first bar, the text variant one per text with its time, score and itself as source |
| VariantRuns.LatestPick | services/backtesting/simulation.py:681-707 | where every signal qualifies once it is out, a decision picks the latest out |
| VariantRuns.CombinedProposals | services/backtesting/ablation.py:1244-1323 | end to end, over texts with known lineage and timely features, a combined run follows the latest mixed signal out at each decision |
| VariantRuns.NaiveHoldsCash | services/backtesting/ablation.py:1112-1143 | the naive variant never trades and equals the flat baseline; among runs with enough bars and dated signals it is refused for missing timing safety exactly when candidates are not allowed |
| Comparison.RowsOrdered | services/backtesting/ablation.py:424-437 | the same rows, by each of the four figures a result can be ordered by, equal figures by identifier in code points, independent of run order for distinct variants |
| Reconciliation.DetectAvailabilityMismatches | services/backtest_reconciliation/rules.py:627-735 | returns the specified mismatches, none blocking exactly when proposal, orders and cutoff are in time |
| Reconciliation.VerdictExact | services/backtest_reconciliation/rules.py:642-735 | nothing blocks exactly when proposal and cutoff come no earlier than any mapped signal and each order no earlier than the signal of the first idea it names |
| Reconciliation.AvailabilityReported | services/backtest_reconciliation/rules.py:642-735 | exactly which availability mismatches are reported, with their times, severities and blocking |
| Reconciliation.MappedOrdersNeverBlock | services/backtest_reconciliation/service.py:629-629 | with the mapping built from the ideas, orders no earlier than a proposal in time never block |
| Reconciliation.DetectAssumptionMismatches | services/backtest_reconciliation/rules.py:500-624 | each assumption mismatch is reported exactly when the terms differ, in order, none blocking |
| Reconciliation.AssumptionReported | services/backtest_reconciliation/rules.py:516-622 | a mismatch of each kind is reported exactly when the two sides differ in those terms |
| Reconciliation.ReportSeverity | services/backtest_reconciliation/rules.py:738-748 | all six assumption mismatches always appear, and the report is critical exactly when the proposal precedes a mapped signal, otherwise high |
| Reconciliation.UniformIsLargest | services/backtest_reconciliation/rules.py:905-912 | the reported slippage is the largest present, and missing exactly when none is present |
| Reconciliation.TermsCompared | services/backtest_reconciliation/rules.py:33-335 | the terms compared: the backtest side from its configuration, the paper side from what its orders state |
| ReviewTransitions.HistoryStatus | libraries/utils/review_transitions.py:13-45 | after any history each status is the one its last outcome stands for, the update time is the last decision's, and the identifiers list the whole history |
| ReviewTransitions.UpdateOrderKept | libraries/schemas/base.py:54-60 | a reviewed record is not updated before it was created exactly when its last decision is not dated before then |
| ReviewTransitions.IssuesAccumulate | libraries/utils/review_transitions.py:67-95 | the issues are the initial ones with those of all non-approving decisions |
| ReviewTransitions.IssuesSorted | libraries/utils/review_transitions.py:74-83 | a decision other than approval leaves them in ascending code-point order, each once |
| ReviewTransitions.ReviewedProposalCoherent | libraries/schemas/portfolio.py:283-294 | a reviewed proposal satisfies its schema exactly when its last decision is not dated before its creation |
| ReviewTransitions.ApprovedWithIssues | libraries/utils/review_transitions.py:74-83 | an approved proposal still carries issues exactly when it started with some or a decision raised some |
| ReviewTransitions.ApprovalFromLast | libraries/utils/review_transitions.py:97-116 | approval time and approver come from the last approval |
| ReviewTransitions.ReviewedTradeCoherent | libraries/schemas/portfolio.py:366-386 | a reviewed trade satisfies its schema exactly when its last decision is not dated before its creation and its last approval not before its submission |
| ReviewTransitions.ReviewBreaksTrade | libraries/utils/review_transitions.py:97-116 | one reviewed trade updated before it was created without an approval, one approved before it was submitted |
| Completeness.ListsPartition | services/data_quality/rules.py:140-149 | with distinct names, present and missing partition the required fields |
| Completeness.ListsExact | services/data_quality/rules.py:131-149 | the lists field by field, in order, and the ratio of present entries |
| Completeness.ListsAccepted | libraries/schemas/data_quality.py:205-224 | with distinct names the validator accepts the lists, whatever its rounding |
| Completeness.AcceptedByRounding | libraries/schemas/data_quality.py:205-224 | for any fields and any rounding, exactly when the validator accepts the lists |
| Completeness.AcceptedExactly | services/data_quality/rules.py:131-149 | with entries times names below a million, exactly when the validator accepts the lists, for every six-digit rounding |
| Completeness.ConflictRefused | libraries/schemas/data_quality.py:221-222 | a field listed both ways is always refused |
| Completeness.RepeatedNameRefused | libraries/schemas/data_quality.py:223-224 | a present name repeated without conflict is refused exactly when another field is missing, for every six-digit rounding and up to 999 names |
| Completeness.LargeListsAccepted | libraries/schemas/data_quality.py:223-224 | with 1499 names, one missing and one repeated, rounding to the nearest six digits accepts the lists although the ratios differ |
| CanonicalIds.NormalizeIdempotent | libraries/utils/ids.py:7-10 | normalizing is idempotent on ASCII text |
| CanonicalIds.NormalizeOnePass | libraries/utils/ids.py:7-10 | stripping, lowering, splitting and joining is one pass that single-spaces words and lowers letters |
| CanonicalIds.KeyExact | libraries/utils/ids.py:23-34 | the hashed text part by part: blank parts add nothing, others follow two bars |
| CanonicalIds.KeyInjective | libraries/utils/ids.py:23-34 | part lists free of the separator share a key exactly when they normalize alike |

## Left out

- Floating-point rounding: amounts are exact reals, so equalities hold without tolerance.
- Notes, reasons, messages, provenance records and symbols carried by decisions and events.
- Storage, JSON loading, path resolution, settings, HTTP and command line.
- The exchange calendar: session opens and the next open are inputs.
- Time zones: every date is the UTC date of an instant.
- SHA-256 and the identifier prefixes: only the text that is hashed is modelled. Leakage-check messages are constructors, not formatted text.
- AuditCausality.NoLookAheadInAudit: entries naming a feature not yet available are left out of the comparison, since one world may load the feature with a later time and the other not at all.
- The configuration's list of benchmark kinds: the engine never reads it and always emits both, as `Journal.Benchmarks` does.
- Simulator.Engine.SelectSignal: the turn of one signal is its own method, where `_select_signal_for_decision` has one loop body.
- CanonicalIds.NormalizeIdempotent: ASCII letters and whitespace only, no Unicode case mapping.
- Strategy specifications, experiment records, portfolio construction, paper ledger and daily orchestration.
