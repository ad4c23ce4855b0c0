/**
 What a run leaves in its audit trail: leakage-check entries, timing anomalies, and the set
 of signals whose timing could be established.
 */
module Audit {
  import opened Sequences
  import opened Market
  import opened Timing
  import opened Eligibility

  /** A signal excluded because it carries no availability window. */
  datatype Anomaly = Anomaly(targetId: string, internalAvailableAt: Time)

  // ---------- Leakage checks ----------

  function UntraceableEntries(inputs: Inputs, j: nat): seq<Leak>
    requires j <= |inputs.signals|
  {
    if j == 0 then []
    else
      var s := inputs.signals[j - 1];
      UntraceableEntries(inputs, j - 1) + (if Traceable(inputs, s) then [] else [LineageFailed(s.Id())])
  }

  function InitialEntries(inputs: Inputs, config: Config, bars: seq<Bar>): seq<Leak>
    requires |bars| >= 1
  {
    var untraceable := UntraceableEntries(inputs, |inputs.signals|);
    [SignalSnapshotCutoffPassed, PriceSnapshotCutoffPassed]
    + (if config.testStart < DayOf(bars[0].timestamp) || config.testEnd > DayOf(bars[|bars| - 1].timestamp)
       then [PriceWindowOutsideBars] else [PriceWindowPassed])
    + (if untraceable != [] then untraceable else [LineagePassed])
  }

  // Refusals at one decision, over the first j signals.
  function TimelyRefusals(inputs: Inputs, config: Config, cutoff: Cutoff, j: nat): seq<Leak>
    requires j <= |inputs.signals|
  {
    if j == 0 then []
    else
      var s := inputs.signals[j - 1];
      TimelyRefusals(inputs, config, cutoff, j - 1)
      + (if Timely(config, s, cutoff) then Refusals(inputs, s, cutoff.decisionTime) else [])
  }

  function DecisionEntries(inputs: Inputs, config: Config, cutoff: Cutoff): seq<Leak> {
    TimelyRefusals(inputs, config, cutoff, |inputs.signals|)
    + (if EligibleSignals(inputs, config, cutoff) != [] then [FeatureAvailabilityPassed] else [])
  }

  function RunEntries(inputs: Inputs, config: Config, bars: seq<Bar>, k: nat): seq<Leak>
    requires k <= |bars|
  {
    if k == 0 then []
    else
      RunEntries(inputs, config, bars, k - 1)
      + DecisionEntries(inputs, config, BuildCutoff(bars[k - 1].timestamp))
  }

  // The leakage checks on record after k bars.
  function Leakage(inputs: Inputs, config: Config, bars: seq<Bar>, k: nat): seq<Leak>
    requires |bars| >= 1 && k <= |bars|
  {
    AppendAllUnique([], InitialEntries(inputs, config, bars) + RunEntries(inputs, config, bars, k))
  }

  lemma LeakageStart(inputs: Inputs, config: Config, bars: seq<Bar>)
    requires |bars| >= 1
    ensures Leakage(inputs, config, bars, 0) == AppendAllUnique([], InitialEntries(inputs, config, bars))
  {
    assert InitialEntries(inputs, config, bars) + [] == InitialEntries(inputs, config, bars);
  }

  lemma LeakageStep(inputs: Inputs, config: Config, bars: seq<Bar>, k: nat)
    requires k < |bars|
    ensures Leakage(inputs, config, bars, k + 1)
         == AppendAllUnique(Leakage(inputs, config, bars, k),
                            DecisionEntries(inputs, config, BuildCutoff(bars[k].timestamp)))
  {
    hide InitialEntries, DecisionEntries, AppendAllUnique;
    var first := InitialEntries(inputs, config, bars) + RunEntries(inputs, config, bars, k);
    var more := DecisionEntries(inputs, config, BuildCutoff(bars[k].timestamp));
    AppendAllUniqueConcat([], first, more);
    assert RunEntries(inputs, config, bars, k + 1) == RunEntries(inputs, config, bars, k) + more;
    assert InitialEntries(inputs, config, bars) + RunEntries(inputs, config, bars, k + 1) == first + more;
  }

  // ---------- What the leakage checks contain ----------

  ghost predicate RefusedAt(inputs: Inputs, config: Config, t: Time, s: Signal, e: Leak) {
    && s in inputs.signals
    && Timely(config, s, BuildCutoff(t))
    && e in Refusals(inputs, s, t)
  }

  lemma {:induction false} TimelyRefusalsMembers(inputs: Inputs, config: Config, t: Time, j: nat, e: Leak)
    requires j <= |inputs.signals|
    ensures e in TimelyRefusals(inputs, config, BuildCutoff(t), j)
       <==> exists i :: 0 <= i < j && RefusedAt(inputs, config, t, inputs.signals[i], e)
  {
    hide Timely, Refusals;
    if j > 0 {
      TimelyRefusalsMembers(inputs, config, t, j - 1, e);
      assert inputs.signals[j - 1] in inputs.signals;
      assert e in TimelyRefusals(inputs, config, BuildCutoff(t), j)
        <==> e in TimelyRefusals(inputs, config, BuildCutoff(t), j - 1)
             || RefusedAt(inputs, config, t, inputs.signals[j - 1], e);
    }
  }

  ghost predicate EntryAt(inputs: Inputs, config: Config, t: Time, e: Leak) {
    || (exists s :: RefusedAt(inputs, config, t, s, e))
    || (e == FeatureAvailabilityPassed && EligibleSignals(inputs, config, BuildCutoff(t)) != [])
  }

  lemma DecisionEntriesMembers(inputs: Inputs, config: Config, t: Time, e: Leak)
    ensures e in DecisionEntries(inputs, config, BuildCutoff(t)) <==> EntryAt(inputs, config, t, e)
  {
    hide Timely, Refusals, TimelyRefusals, EligibleSignals;
    TimelyRefusalsMembers(inputs, config, t, |inputs.signals|, e);
    if exists s :: RefusedAt(inputs, config, t, s, e) {
      var s :| RefusedAt(inputs, config, t, s, e);
      var i :| 0 <= i < |inputs.signals| && inputs.signals[i] == s;
      assert RefusedAt(inputs, config, t, inputs.signals[i], e);
    }
  }

  lemma {:induction false} RunEntriesMembers(inputs: Inputs, config: Config, bars: seq<Bar>, k: nat, e: Leak)
    requires k <= |bars|
    ensures e in RunEntries(inputs, config, bars, k)
       <==> exists i :: 0 <= i < k && EntryAt(inputs, config, bars[i].timestamp, e)
  {
    hide DecisionEntries, EntryAt;
    if k > 0 {
      RunEntriesMembers(inputs, config, bars, k - 1, e);
      DecisionEntriesMembers(inputs, config, bars[k - 1].timestamp, e);
      assert e in RunEntries(inputs, config, bars, k)
        <==> e in RunEntries(inputs, config, bars, k - 1)
             || EntryAt(inputs, config, bars[k - 1].timestamp, e);
    }
  }

  ghost predicate RecordedBy(inputs: Inputs, config: Config, bars: seq<Bar>, k: nat, e: Leak)
    requires |bars| >= 1 && k <= |bars|
  {
    || e in InitialEntries(inputs, config, bars)
    || exists i :: 0 <= i < k && EntryAt(inputs, config, bars[i].timestamp, e)
  }

  /**
   After k bars the leakage checks hold, each once, the run's opening checks, every refusal
   of a timely signal at one of those bars, and the pass marker if any decision had an
   eligible signal; nothing else.
   */
  lemma LeakageExact(inputs: Inputs, config: Config, bars: seq<Bar>, k: nat)
    requires |bars| >= 1 && k <= |bars|
    ensures NoDuplicates(Leakage(inputs, config, bars, k))
    ensures forall e :: e in Leakage(inputs, config, bars, k) <==> RecordedBy(inputs, config, bars, k, e)
  {
    AppendAllUniqueContents([], InitialEntries(inputs, config, bars) + RunEntries(inputs, config, bars, k));
    forall e: Leak
      ensures e in RunEntries(inputs, config, bars, k)
         <==> exists i :: 0 <= i < k && EntryAt(inputs, config, bars[i].timestamp, e)
    {
      RunEntriesMembers(inputs, config, bars, k, e);
    }
  }

  /**
   A signal that was allowed, windowed and available at some decision and yet was refused
   there is named by an entry that stays on record to the end of the run.
   */
  lemma RefusalsAreRecorded(inputs: Inputs, config: Config, bars: seq<Bar>, i: nat, k: nat, s: Signal)
    requires i < k <= |bars| && s in inputs.signals
    requires Timely(config, s, BuildCutoff(bars[i].timestamp))
    requires !(LineageClosed(inputs, s) && FeaturesReady(inputs, s, bars[i].timestamp))
    ensures exists e :: e in Leakage(inputs, config, bars, k) && e.Refuses(s.Id())
  {
    var t := bars[i].timestamp;
    ValidationExact(inputs, s, t);
    var e := Refusals(inputs, s, t)[0];
    assert e in Refusals(inputs, s, t);
    assert RefusedAt(inputs, config, t, s, e);
    assert EntryAt(inputs, config, t, e);
    LeakageExact(inputs, config, bars, k);
    assert RecordedBy(inputs, config, bars, k, e);
  }

  lemma {:induction false} UntraceableEntriesMembers(inputs: Inputs, j: nat, e: Leak)
    requires j <= |inputs.signals|
    ensures e in UntraceableEntries(inputs, j)
       <==> exists i :: 0 <= i < j && !LineageShown(inputs, inputs.signals[i]) && e == LineageFailed(inputs.signals[i].Id())
  {
    hide LineageShown;
    if j > 0 {
      UntraceableEntriesMembers(inputs, j - 1, e);
      TraceabilityGap(inputs, inputs.signals[j - 1]);
    }
  }

  // Some signal with this identifier does not show its lineage.
  ghost predicate LineageMissing(inputs: Inputs, id: string) {
    exists s :: s in inputs.signals && s.Id() == id && !LineageShown(inputs, s)
  }

  lemma UntraceableExact(inputs: Inputs)
    ensures forall id: string ::
              LineageFailed(id) in UntraceableEntries(inputs, |inputs.signals|) <==> LineageMissing(inputs, id)
    ensures UntraceableEntries(inputs, |inputs.signals|) == []
       <==> forall s :: s in inputs.signals ==> LineageShown(inputs, s)
  {
    var entries, n := UntraceableEntries(inputs, |inputs.signals|), |inputs.signals|;
    forall e: Leak
      ensures e in entries
         <==> exists i :: 0 <= i < n && !LineageShown(inputs, inputs.signals[i])
                && e == LineageFailed(inputs.signals[i].Id())
    {
      UntraceableEntriesMembers(inputs, n, e);
    }
    hide LineageShown, UntraceableEntries;
    forall s | s in inputs.signals && !LineageShown(inputs, s)
      ensures LineageFailed(s.Id()) in entries
    {
      var i :| 0 <= i < n && inputs.signals[i] == s;
    }
    if entries != [] {
      assert entries[0] in entries;
    }
  }

  lemma OpeningNotAt(inputs: Inputs, config: Config, t: Time, e: Leak)
    requires e.Opening()
    ensures !EntryAt(inputs, config, t, e)
  {
    hide Timely, Refusals, EligibleSignals;
    if s :| RefusedAt(inputs, config, t, s, e) {
      ValidationExact(inputs, s, t);
    }
  }

  // The requested days reach beyond those of the bars.
  ghost predicate WindowOutside(config: Config, bars: seq<Bar>)
    requires |bars| >= 1
  {
    || (config.testStart + 1) * 86_400_000_000 <= bars[0].timestamp
    || bars[|bars| - 1].timestamp < config.testEnd * 86_400_000_000
  }

  lemma WindowDays(config: Config, bars: seq<Bar>)
    requires |bars| >= 1
    ensures config.testStart < DayOf(bars[0].timestamp) || config.testEnd > DayOf(bars[|bars| - 1].timestamp)
       <==> WindowOutside(config, bars)
  {
  }

  lemma OpeningEntries(inputs: Inputs, config: Config, bars: seq<Bar>)
    requires |bars| >= 1
    ensures
      var opening, failed := InitialEntries(inputs, config, bars), UntraceableEntries(inputs, |inputs.signals|);
      && SignalSnapshotCutoffPassed in opening && PriceSnapshotCutoffPassed in opening
      && (PriceWindowOutsideBars in opening <==> WindowOutside(config, bars))
      && (PriceWindowPassed in opening <==> !WindowOutside(config, bars))
      && (LineagePassed in opening <==> failed == [])
      && forall id: string :: LineageFailed(id) in opening <==> LineageFailed(id) in failed
  {
    var failed := UntraceableEntries(inputs, |inputs.signals|);
    forall e: Leak | e in failed
      ensures e.LineageFailed?
    {
      UntraceableEntriesMembers(inputs, |inputs.signals|, e);
    }
    WindowDays(config, bars);
    hide UntraceableEntries, DayOf, WindowOutside;
    var window := if WindowOutside(config, bars) then PriceWindowOutsideBars else PriceWindowPassed;
    var lineage := if failed != [] then failed else [LineagePassed];
    assert InitialEntries(inputs, config, bars)
        == [SignalSnapshotCutoffPassed, PriceSnapshotCutoffPassed] + [window] + lineage;
  }

  /**
   The opening checks on record after any number of bars: both snapshots have a cutoff; the
   requested days lie within those of the bars, or not; and each signal that does not show its
   lineage is named, or all of them do.
   */
  lemma OpeningExact(inputs: Inputs, config: Config, bars: seq<Bar>, k: nat)
    requires |bars| >= 1 && k <= |bars|
    ensures
      var log := Leakage(inputs, config, bars, k);
      && SignalSnapshotCutoffPassed in log && PriceSnapshotCutoffPassed in log
      && (PriceWindowOutsideBars in log <==> WindowOutside(config, bars))
      && (PriceWindowPassed in log <==> !WindowOutside(config, bars))
      && (LineagePassed in log <==> forall s :: s in inputs.signals ==> LineageShown(inputs, s))
      && forall id: string :: LineageFailed(id) in log <==> LineageMissing(inputs, id)
  {
    LeakageExact(inputs, config, bars, k);
    UntraceableExact(inputs);
    OpeningEntries(inputs, config, bars);
    hide Leakage, InitialEntries, UntraceableEntries, LineageShown, LineageMissing, NoDuplicates, EligibleSignals,
         WindowOutside;
    var log := Leakage(inputs, config, bars, k);
    forall e: Leak | e.Opening()
      ensures e in log <==> e in InitialEntries(inputs, config, bars)
    {
      assert e in log <==> RecordedBy(inputs, config, bars, k, e);
      forall i | 0 <= i < k
        ensures !EntryAt(inputs, config, bars[i].timestamp, e)
      {
        OpeningNotAt(inputs, config, bars[i].timestamp, e);
      }
    }
  }

  lemma OpeningRefusesNone(inputs: Inputs, config: Config, bars: seq<Bar>, e: Leak, id: string)
    requires |bars| >= 1 && e.Refuses(id)
    ensures e !in InitialEntries(inputs, config, bars)
  {
    UntraceableEntriesMembers(inputs, |inputs.signals|, e);
  }

  lemma RefusedMeans(inputs: Inputs, config: Config, t: Time, s: Signal, e: Leak, id: string)
    requires RefusedAt(inputs, config, t, s, e) && e.Refuses(id)
    ensures s in inputs.signals && s.Id() == id && Timely(config, s, BuildCutoff(t))
    ensures !(LineageClosed(inputs, s) && FeaturesReady(inputs, s, t))
  {
    hide Timely, Refusals, LineageClosed, FeaturesReady;
    ValidationExact(inputs, s, t);
    assert e.Refuses(s.Id());
  }

  /** Conversely, a refusal on record points at a timely signal that one decision did refuse. */
  lemma RecordedRefusalsHappened(inputs: Inputs, config: Config, bars: seq<Bar>, k: nat, e: Leak, id: string)
    requires |bars| >= 1 && k <= |bars|
    requires e in Leakage(inputs, config, bars, k) && e.Refuses(id)
    ensures exists i, s ::
              && 0 <= i < k && s in inputs.signals && s.Id() == id
              && Timely(config, s, BuildCutoff(bars[i].timestamp))
              && !(LineageClosed(inputs, s) && FeaturesReady(inputs, s, bars[i].timestamp))
  {
    LeakageExact(inputs, config, bars, k);
    OpeningRefusesNone(inputs, config, bars, e, id);
    hide Leakage, InitialEntries, RefusedAt, Timely, LineageClosed, FeaturesReady, EligibleSignals, NoDuplicates;
    assert RecordedBy(inputs, config, bars, k, e);
    var i :| 0 <= i < k && EntryAt(inputs, config, bars[i].timestamp, e);
    var s :| RefusedAt(inputs, config, bars[i].timestamp, s, e);
    RefusedMeans(inputs, config, bars[i].timestamp, s, e, id);
  }

  // ---------- Timing anomalies ----------

  predicate Unwindowed(config: Config, s: Signal) {
    Allowed(config, s) && s.Window().None?
  }

  predicate Windowed(config: Config, s: Signal) {
    Allowed(config, s) && s.Window().Some?
  }

  function TargetIds(anomalies: seq<Anomaly>): set<string> {
    set a | a in anomalies :: a.targetId
  }

  function NoteAnomaly(anomalies: seq<Anomaly>, config: Config, s: Signal): seq<Anomaly> {
    if Unwindowed(config, s) && s.Id() !in TargetIds(anomalies)
    then anomalies + [Anomaly(s.Id(), s.EffectiveAt())]
    else anomalies
  }

  // One decision's pass over the first j signals.
  function NoteAnomalies(anomalies: seq<Anomaly>, signals: seq<Signal>, config: Config, j: nat): seq<Anomaly>
    requires j <= |signals|
  {
    if j == 0 then anomalies
    else NoteAnomaly(NoteAnomalies(anomalies, signals, config, j - 1), config, signals[j - 1])
  }

  // The anomalies on record after k decisions.
  function Anomalies(signals: seq<Signal>, config: Config, k: nat): seq<Anomaly> {
    if k == 0 then []
    else NoteAnomalies(Anomalies(signals, config, k - 1), signals, config, |signals|)
  }

  ghost predicate DistinctTargets(anomalies: seq<Anomaly>) {
    forall i, j :: 0 <= i < j < |anomalies| ==> anomalies[i].targetId != anomalies[j].targetId
  }

  lemma TargetIdsAppend(anomalies: seq<Anomaly>, a: Anomaly)
    ensures TargetIds(anomalies + [a]) == TargetIds(anomalies) + {a.targetId}
    ensures DistinctTargets(anomalies) && a.targetId !in TargetIds(anomalies) ==> DistinctTargets(anomalies + [a])
  {
    var longer := anomalies + [a];
    assert forall x :: x in longer <==> x in anomalies || x == a;
    forall id
      ensures id in TargetIds(longer) <==> id in TargetIds(anomalies) + {a.targetId}
    {
      if id in TargetIds(anomalies) {
        var b :| b in anomalies && b.targetId == id;
        assert b in longer;
      }
      if id == a.targetId {
        assert a in longer;
      }
    }
    if a.targetId !in TargetIds(anomalies) {
      forall i | 0 <= i < |anomalies|
        ensures anomalies[i].targetId != a.targetId
      {
        assert anomalies[i] in anomalies;
      }
    }
  }

  lemma NotedTargets(anomalies: seq<Anomaly>, config: Config, s: Signal)
    ensures
      var noted := NoteAnomaly(anomalies, config, s);
      && anomalies <= noted
      && (DistinctTargets(anomalies) ==> DistinctTargets(noted))
      && TargetIds(noted) == TargetIds(anomalies) + (if Unwindowed(config, s) then {s.Id()} else {})
  {
    hide TargetIds, DistinctTargets, Unwindowed;
    TargetIdsAppend(anomalies, Anomaly(s.Id(), s.EffectiveAt()));
  }

  // The identifiers of the allowed signals without a window among the first j.
  ghost function UnwindowedAmong(signals: seq<Signal>, config: Config, j: nat): set<string>
    requires j <= |signals|
  {
    set i | 0 <= i < j && Unwindowed(config, signals[i]) :: signals[i].Id()
  }

  lemma UnwindowedAmongStep(signals: seq<Signal>, config: Config, j: nat)
    requires j < |signals|
    ensures UnwindowedAmong(signals, config, j + 1)
         == UnwindowedAmong(signals, config, j) + (if Unwindowed(config, signals[j]) then {signals[j].Id()} else {})
  {
    hide Unwindowed;
    var more := UnwindowedAmong(signals, config, j + 1);
    assert Unwindowed(config, signals[j]) ==> signals[j].Id() in more;
  }

  lemma NoteStep(anomalies: seq<Anomaly>, signals: seq<Signal>, config: Config, j: nat)
    requires j < |signals|
    ensures NoteAnomalies(anomalies, signals, config, j + 1)
         == NoteAnomaly(NoteAnomalies(anomalies, signals, config, j), config, signals[j])
  {
  }

  lemma NothingNoted(anomalies: seq<Anomaly>, signals: seq<Signal>, config: Config)
    ensures NoteAnomalies(anomalies, signals, config, 0) == anomalies && UnwindowedAmong(signals, config, 0) == {}
  {
  }

  lemma {:induction false} NoteAnomaliesContents(anomalies: seq<Anomaly>, signals: seq<Signal>, config: Config, j: nat)
    requires j <= |signals| && DistinctTargets(anomalies)
    ensures
      var noted := NoteAnomalies(anomalies, signals, config, j);
      && DistinctTargets(noted)
      && anomalies <= noted
      && TargetIds(noted) == TargetIds(anomalies) + UnwindowedAmong(signals, config, j)
    decreases j
  {
    hide *;
    if j == 0 {
      NothingNoted(anomalies, signals, config);
    } else {
      var i := j - 1;
      NoteAnomaliesContents(anomalies, signals, config, i);
      NoteStep(anomalies, signals, config, i);
      NotedTargets(NoteAnomalies(anomalies, signals, config, i), config, signals[i]);
      UnwindowedAmongStep(signals, config, i);
      assert i + 1 == j;
    }
  }

  // Once every unwindowed signal is on record, further decisions add nothing.
  lemma {:induction false} NoteAnomaliesSettled(anomalies: seq<Anomaly>, signals: seq<Signal>, config: Config, j: nat)
    requires j <= |signals|
    requires forall i :: 0 <= i < |signals| && Unwindowed(config, signals[i]) ==> signals[i].Id() in TargetIds(anomalies)
    ensures NoteAnomalies(anomalies, signals, config, j) == anomalies
  {
    if j > 0 {
      NoteAnomaliesSettled(anomalies, signals, config, j - 1);
    }
  }

  ghost function UnwindowedIds(signals: seq<Signal>, config: Config): set<string> {
    set s | s in signals && Unwindowed(config, s) :: s.Id()
  }

  /**
   However many bars run, every allowed signal without an availability window is on record
   exactly once; the first decision already settles the list.
   */
  lemma {:induction false} AnomaliesExact(signals: seq<Signal>, config: Config, k: nat)
    requires k >= 1
    ensures Anomalies(signals, config, k) == Anomalies(signals, config, 1)
    ensures DistinctTargets(Anomalies(signals, config, k))
    ensures TargetIds(Anomalies(signals, config, k)) == UnwindowedIds(signals, config)
  {
    if k == 1 {
      NoteAnomaliesContents([], signals, config, |signals|);
      assert Anomalies(signals, config, 0) == [];
      assert UnwindowedAmong(signals, config, |signals|) == UnwindowedIds(signals, config);
    } else {
      AnomaliesExact(signals, config, k - 1);
      var settled := Anomalies(signals, config, k - 1);
      forall i | 0 <= i < |signals| && Unwindowed(config, signals[i])
        ensures signals[i].Id() in TargetIds(settled)
      {
        assert signals[i].Id() in UnwindowedIds(signals, config);
      }
      NoteAnomaliesSettled(settled, signals, config, |signals|);
    }
  }

  function CountUnwindowed(signals: seq<Signal>, config: Config, j: nat): nat
    requires j <= |signals|
  {
    |Filter(signals[..j], (s: Signal) => Unwindowed(config, s))|
  }

  lemma CountStep(signals: seq<Signal>, config: Config, j: nat)
    requires j < |signals|
    ensures CountUnwindowed(signals, config, j + 1)
         == CountUnwindowed(signals, config, j) + (if Unwindowed(config, signals[j]) then 1 else 0)
  {
    var p := (s: Signal) => Unwindowed(config, s);
    assert signals[..j + 1] == signals[..j] + [signals[j]];
    FilterConcat(signals[..j], [signals[j]], p);
    FilterOne(signals[j], p);
  }

  lemma FirstMention(signals: seq<Signal>, config: Config, j: nat)
    requires j < |signals| && DistinctIds(signals)
    ensures signals[j].Id() !in TargetIds(NoteAnomalies([], signals, config, j))
  {
    NoteAnomaliesContents([], signals, config, j);
    hide NoteAnomalies;
  }

  lemma NothingCounted(signals: seq<Signal>, config: Config)
    ensures |NoteAnomalies([], signals, config, 0)| == CountUnwindowed(signals, config, 0)
  {
  }

  lemma NotedLength(anomalies: seq<Anomaly>, config: Config, s: Signal)
    requires s.Id() !in TargetIds(anomalies)
    ensures |NoteAnomaly(anomalies, config, s)| == |anomalies| + (if Unwindowed(config, s) then 1 else 0)
  {
  }

  lemma {:induction false} CountNoted(signals: seq<Signal>, config: Config, j: nat)
    requires j <= |signals| && DistinctIds(signals)
    ensures |NoteAnomalies([], signals, config, j)| == CountUnwindowed(signals, config, j)
    decreases j
  {
    hide *;
    if j == 0 {
      NothingCounted(signals, config);
    } else {
      var i := j - 1;
      CountNoted(signals, config, i);
      FirstMention(signals, config, i);
      CountStep(signals, config, i);
      NoteStep([], signals, config, i);
      NotedLength(NoteAnomalies([], signals, config, i), config, signals[i]);
      assert i + 1 == j;
    }
  }

  /** With distinct identifiers there are exactly as many anomalies as such signals. */
  lemma AnomalyCount(signals: seq<Signal>, config: Config, k: nat)
    requires k >= 1 && DistinctIds(signals)
    ensures |Anomalies(signals, config, k)| == |Filter(signals, (s: Signal) => Unwindowed(config, s))|
  {
    AnomaliesExact(signals, config, k);
    assert Anomalies(signals, config, 0) == [];
    CountNoted(signals, config, |signals|);
    assert signals[..|signals|] == signals;
  }

  // ---------- Timing-safe signals ----------

  function SafeIds(signals: seq<Signal>, config: Config, j: nat): set<string>
    requires j <= |signals|
  {
    set i | 0 <= i < j && Windowed(config, signals[i]) :: signals[i].Id()
  }
}
