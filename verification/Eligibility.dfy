/**
 Which signal drives one decision: status, timing, lineage and feature checks, the log
 entries they leave, and the ranking among the signals that survive.
 */
module Eligibility {
  import opened Wrappers
  import opened Sequences
  import opened Market
  import opened Timing

  /** One leakage-check entry of a run. */
  datatype Leak =
    | SignalSnapshotCutoffPassed
    | PriceSnapshotCutoffPassed
    | PriceWindowPassed
    | PriceWindowOutsideBars
    | LineagePassed
    | LineageFailed(id: string)
    | FeatureAvailabilityPassed
    | WithoutFeatures(id: string)
    | WithoutEvidence(id: string)
    | WithoutSnapshot(id: string)
    | WithoutSource(id: string)
    | UnknownSource(id: string, sourceId: string)
    | MissingFeature(id: string, featureId: string)
    | FutureFeature(id: string, featureId: string, availableAt: Time)
  {
    // The entry is one of those a run opens with.
    predicate Opening() {
      || SignalSnapshotCutoffPassed? || PriceSnapshotCutoffPassed? || PriceWindowPassed? || PriceWindowOutsideBars?
      || LineagePassed? || LineageFailed?
    }

    // The entry reports that one decision refused the signal with this identifier.
    predicate Refuses(signalId: string) {
      && (|| WithoutFeatures? || WithoutEvidence? || WithoutSnapshot? || WithoutSource?
          || UnknownSource? || MissingFeature? || FutureFeature?)
      && id == signalId
    }
  }

  predicate NeedsSource(family: Family) {
    family == TextOnlyBaseline || family == CombinedBaseline
  }

  // ---------- Validation ----------

  function FirstUnknown(ids: seq<string>, known: map<string, ResearchSignal>): (r: Option<string>)
    ensures r.None? <==> forall x :: x in ids ==> x in known
    ensures r.Some? ==> r.value in ids && r.value !in known
    ensures r.Some? ==> exists k :: 0 <= k < |ids| && ids[k] == r.value && forall j :: 0 <= j < k ==> ids[j] in known
  {
    if ids == [] then None
    else if ids[0] !in known then Some(ids[0])
    else FirstUnknown(ids[1..], known)
  }

  function SourceFeatures(ids: seq<string>, known: map<string, ResearchSignal>): seq<string> {
    if ids == [] then []
    else (if ids[0] in known then known[ids[0]].featureIds else []) + SourceFeatures(ids[1..], known)
  }

  function FeatureIds(inputs: Inputs, s: Signal): seq<string> {
    match s
    case Research(r) => r.featureIds
    case Variant(v) => Dedup(SourceFeatures(v.sourceIds, inputs.researchById))
  }

  function MissingEntries(inputs: Inputs, id: string, features: seq<string>): seq<Leak> {
    if features == [] then []
    else (if features[0] in inputs.featureAvailableAt then [] else [MissingFeature(id, features[0])])
         + MissingEntries(inputs, id, features[1..])
  }

  function FutureEntries(inputs: Inputs, id: string, features: seq<string>, t: Time): seq<Leak> {
    if features == [] then []
    else (if features[0] in inputs.featureAvailableAt && inputs.featureAvailableAt[features[0]] > t
          then [FutureFeature(id, features[0], inputs.featureAvailableAt[features[0]])] else [])
         + FutureEntries(inputs, id, features[1..], t)
  }

  function FeatureEntries(inputs: Inputs, s: Signal, t: Time): seq<Leak> {
    var missing := MissingEntries(inputs, s.Id(), FeatureIds(inputs, s));
    if missing != [] then missing else FutureEntries(inputs, s.Id(), FeatureIds(inputs, s), t)
  }

  // The entries the validation of one signal tries to record; none means it passes.
  function Refusals(inputs: Inputs, s: Signal, t: Time): seq<Leak> {
    match s
    case Research(r) =>
      if r.featureIds == [] then [WithoutFeatures(r.id)]
      else if r.evidenceIds == [] then [WithoutEvidence(r.id)]
      else FeatureEntries(inputs, s, t)
    case Variant(v) =>
      if v.snapshotIds == [] then [WithoutSnapshot(v.id)]
      else if NeedsSource(v.family) && v.sourceIds == [] then [WithoutSource(v.id)]
      else
        var unknown := FirstUnknown(v.sourceIds, inputs.researchById);
        if unknown.Some? then [UnknownSource(v.id, unknown.value)] else FeatureEntries(inputs, s, t)
  }

  // ---------- What validation means ----------

  ghost predicate LineageClosed(inputs: Inputs, s: Signal) {
    match s
    case Research(r) => r.featureIds != [] && r.evidenceIds != []
    case Variant(v) =>
      && v.snapshotIds != []
      && (v.family == TextOnlyBaseline || v.family == CombinedBaseline ==> v.sourceIds != [])
      && forall x :: x in v.sourceIds ==> x in inputs.researchById
  }

  // The signal rests on feature f, directly or through a known source signal.
  ghost predicate DependsOn(inputs: Inputs, s: Signal, f: string) {
    match s
    case Research(r) => f in r.featureIds
    case Variant(v) =>
      exists x :: x in v.sourceIds && x in inputs.researchById && f in inputs.researchById[x].featureIds
  }

  ghost predicate FeatureReady(inputs: Inputs, f: string, t: Time) {
    f in inputs.featureAvailableAt && inputs.featureAvailableAt[f] <= t
  }

  ghost predicate FeaturesReady(inputs: Inputs, s: Signal, t: Time) {
    forall f :: DependsOn(inputs, s, f) ==> FeatureReady(inputs, f, t)
  }

  lemma {:induction false} SourceFeaturesMembers(ids: seq<string>, known: map<string, ResearchSignal>, f: string)
    ensures f in SourceFeatures(ids, known)
       <==> exists x :: x in ids && x in known && f in known[x].featureIds
  {
    if ids != [] {
      SourceFeaturesMembers(ids[1..], known, f);
      var head := if ids[0] in known then known[ids[0]].featureIds else [];
      assert SourceFeatures(ids, known) == head + SourceFeatures(ids[1..], known);
      if exists x :: x in ids && x in known && f in known[x].featureIds {
        var x :| x in ids && x in known && f in known[x].featureIds;
        assert x == ids[0] || x in ids[1..];
      }
    }
  }

  lemma FeatureIdsMembers(inputs: Inputs, s: Signal, f: string)
    ensures f in FeatureIds(inputs, s) <==> DependsOn(inputs, s, f)
  {
    if s.Variant? {
      var all := SourceFeatures(s.variant.sourceIds, inputs.researchById);
      SourceFeaturesMembers(s.variant.sourceIds, inputs.researchById, f);
      AppendAllUniqueContents([], all);
    }
  }

  lemma {:induction false} MissingEntriesExact(inputs: Inputs, id: string, features: seq<string>)
    ensures MissingEntries(inputs, id, features) == []
       <==> forall f :: f in features ==> f in inputs.featureAvailableAt
    ensures forall e :: e in MissingEntries(inputs, id, features) ==> e.Refuses(id)
  {
    if features != [] {
      MissingEntriesExact(inputs, id, features[1..]);
    }
  }

  lemma {:induction false} FutureEntriesExact(inputs: Inputs, id: string, features: seq<string>, t: Time)
    requires forall f :: f in features ==> f in inputs.featureAvailableAt
    ensures FutureEntries(inputs, id, features, t) == []
       <==> forall f :: f in features ==> inputs.featureAvailableAt[f] <= t
    ensures forall e :: e in FutureEntries(inputs, id, features, t) ==> e.Refuses(id)
  {
    if features != [] {
      FutureEntriesExact(inputs, id, features[1..], t);
    }
  }

  lemma FeatureEntriesExact(inputs: Inputs, s: Signal, t: Time)
    ensures FeatureEntries(inputs, s, t) == [] <==> FeaturesReady(inputs, s, t)
    ensures forall e :: e in FeatureEntries(inputs, s, t) ==> e.Refuses(s.Id())
  {
    var ids := FeatureIds(inputs, s);
    forall f
      ensures f in ids <==> DependsOn(inputs, s, f)
    {
      FeatureIdsMembers(inputs, s, f);
    }
    MissingEntriesExact(inputs, s.Id(), ids);
    if MissingEntries(inputs, s.Id(), ids) == [] {
      FutureEntriesExact(inputs, s.Id(), ids, t);
    }
  }

  /**
   A signal passes exactly when its lineage is closed and every feature it rests on was
   available by decision time; when it does not, every entry recorded names it.
   */
  lemma ValidationExact(inputs: Inputs, s: Signal, t: Time)
    ensures Refusals(inputs, s, t) == [] <==> LineageClosed(inputs, s) && FeaturesReady(inputs, s, t)
    ensures forall e :: e in Refusals(inputs, s, t) ==> e.Refuses(s.Id())
  {
    FeatureEntriesExact(inputs, s, t);
  }

  lemma {:induction false} MissingEntriesMembers(inputs: Inputs, id: string, features: seq<string>, e: Leak)
    ensures e in MissingEntries(inputs, id, features)
       <==> exists f :: f in features && f !in inputs.featureAvailableAt && e == MissingFeature(id, f)
  {
    if features != [] {
      MissingEntriesMembers(inputs, id, features[1..], e);
      assert forall f :: f in features <==> f == features[0] || f in features[1..];
    }
  }

  lemma {:induction false} FutureEntriesMembers(inputs: Inputs, id: string, features: seq<string>, t: Time, e: Leak)
    ensures e in FutureEntries(inputs, id, features, t)
       <==> exists f :: f in features && f in inputs.featureAvailableAt && inputs.featureAvailableAt[f] > t
              && e == FutureFeature(id, f, inputs.featureAvailableAt[f])
  {
    if features != [] {
      FutureEntriesMembers(inputs, id, features[1..], t, e);
      assert forall f :: f in features <==> f == features[0] || f in features[1..];
    }
  }

  /** The feature entries of one refusal: every feature never loaded, or else every one available only later. */
  ghost predicate FeatureRefusal(inputs: Inputs, s: Signal, t: Time, e: Leak) {
    if exists f :: DependsOn(inputs, s, f) && f !in inputs.featureAvailableAt then
      exists f :: DependsOn(inputs, s, f) && f !in inputs.featureAvailableAt && e == MissingFeature(s.Id(), f)
    else
      exists f :: DependsOn(inputs, s, f) && f in inputs.featureAvailableAt && inputs.featureAvailableAt[f] > t
        && e == FutureFeature(s.Id(), f, inputs.featureAvailableAt[f])
  }

  lemma FeatureEntriesMembers(inputs: Inputs, s: Signal, t: Time, e: Leak)
    ensures e in FeatureEntries(inputs, s, t) <==> FeatureRefusal(inputs, s, t, e)
  {
    var ids := FeatureIds(inputs, s);
    forall f
      ensures f in ids <==> DependsOn(inputs, s, f)
    {
      FeatureIdsMembers(inputs, s, f);
    }
    hide DependsOn, FeatureIds, MissingEntries, FutureEntries;
    MissingEntriesExact(inputs, s.Id(), ids);
    MissingEntriesMembers(inputs, s.Id(), ids, e);
    FutureEntriesMembers(inputs, s.Id(), ids, t, e);
  }

  // Source x is the first one a variant lists that is not known.
  ghost predicate FirstUnknownSource(inputs: Inputs, v: VariantSignal, x: string) {
    exists k :: 0 <= k < |v.sourceIds| && v.sourceIds[k] == x && x !in inputs.researchById
      && forall j :: 0 <= j < k ==> v.sourceIds[j] in inputs.researchById
  }

  /**
   What a decision records about a signal it checks: the first lineage rule broken, in order, or
   with closed lineage the features not available in time.
   */
  lemma RefusalsExact(inputs: Inputs, s: Signal, t: Time, e: Leak)
    ensures e in Refusals(inputs, s, t) <==>
              match s
              case Research(r) =>
                if r.featureIds == [] then e == WithoutFeatures(r.id)
                else if r.evidenceIds == [] then e == WithoutEvidence(r.id)
                else FeatureRefusal(inputs, s, t, e)
              case Variant(v) =>
                if v.snapshotIds == [] then e == WithoutSnapshot(v.id)
                else if v.family in {TextOnlyBaseline, CombinedBaseline} && v.sourceIds == [] then e == WithoutSource(v.id)
                else if exists x :: x in v.sourceIds && x !in inputs.researchById
                  then exists x :: FirstUnknownSource(inputs, v, x) && e == UnknownSource(v.id, x)
                else FeatureRefusal(inputs, s, t, e)
  {
    FeatureEntriesMembers(inputs, s, t, e);
    hide FeatureRefusal, FeatureEntries;
    if s.Variant? {
      UnknownExact(inputs, s.variant);
    }
  }

  lemma UnknownExact(inputs: Inputs, v: VariantSignal)
    ensures
      var unknown := FirstUnknown(v.sourceIds, inputs.researchById);
      && (unknown.None? <==> forall x :: x in v.sourceIds ==> x in inputs.researchById)
      && (unknown.Some? ==> forall x :: FirstUnknownSource(inputs, v, x) <==> x == unknown.value)
  {
    var unknown := FirstUnknown(v.sourceIds, inputs.researchById);
    if unknown.Some? {
      var k :| 0 <= k < |v.sourceIds| && v.sourceIds[k] == unknown.value
        && forall j :: 0 <= j < k ==> v.sourceIds[j] in inputs.researchById;
      forall x | FirstUnknownSource(inputs, v, x)
        ensures x == unknown.value
      {
        var m :| 0 <= m < |v.sourceIds| && v.sourceIds[m] == x && x !in inputs.researchById
          && forall j :: 0 <= j < m ==> v.sourceIds[j] in inputs.researchById;
        assert k == m;
      }
    }
  }

  // ---------- Up-front traceability against per-decision validation ----------

  predicate Traceable(inputs: Inputs, s: Signal) {
    match s
    case Research(r) => r.featureIds != [] && r.evidenceIds != []
    case Variant(v) =>
      && v.snapshotIds != []
      && (NeedsSource(v.family) ==> forall x :: x in v.sourceIds ==> x in inputs.researchById)
  }

  /**
   The lineage a signal must show before the run: features and evidence, or snapshots and, for
   text and combined signals, no unknown source.
   */
  ghost predicate LineageShown(inputs: Inputs, s: Signal) {
    match s
    case Research(r) => r.featureIds != [] && r.evidenceIds != []
    case Variant(v) =>
      && v.snapshotIds != []
      && (v.family == TextOnlyBaseline || v.family == CombinedBaseline ==>
            forall x :: x in v.sourceIds ==> x in inputs.researchById)
  }

  /**
   The up-front check passes exactly the signals that show this lineage. Compared with the check
   made at each decision it overlooks a text or combined signal that lists no source, and an
   unknown source of any other family.
   */
  lemma TraceabilityGap(inputs: Inputs, s: Signal)
    ensures Traceable(inputs, s) <==> LineageShown(inputs, s)
    ensures LineageClosed(inputs, s)
       <==> && LineageShown(inputs, s)
            && (s.Variant? && s.variant.family in {TextOnlyBaseline, CombinedBaseline} ==> s.variant.sourceIds != [])
            && (s.Variant? && s.variant.family !in {TextOnlyBaseline, CombinedBaseline} ==>
                  forall x :: x in s.variant.sourceIds ==> x in inputs.researchById)
  {
  }

  // ---------- Selection ----------

  predicate Allowed(config: Config, s: Signal) {
    s.Status() in config.allowlist
  }

  predicate Timely(config: Config, s: Signal, cutoff: Cutoff) {
    && Allowed(config, s)
    && s.Window().Some?
    && AvailableBy(s.Window().value, cutoff, config.Buffer())
  }

  predicate Eligible(inputs: Inputs, config: Config, cutoff: Cutoff, s: Signal) {
    Timely(config, s, cutoff) && Refusals(inputs, s, cutoff.decisionTime) == []
  }

  // Later effective time first, then stronger score, then smaller identifier.
  predicate Ranks(a: Signal, b: Signal) {
    || a.EffectiveAt() > b.EffectiveAt()
    || (&& a.EffectiveAt() == b.EffectiveAt()
        && (|| Abs(a.Score()) > Abs(b.Score())
            || (Abs(a.Score()) == Abs(b.Score()) && TextLeq(a.Id(), b.Id()))))
  }

  function EligibleSignals(inputs: Inputs, config: Config, cutoff: Cutoff): seq<Signal> {
    Filter(inputs.signals, (s: Signal) => Eligible(inputs, config, cutoff, s))
  }

  function Select(inputs: Inputs, config: Config, cutoff: Cutoff): Option<Signal> {
    var ranked := Sort(EligibleSignals(inputs, config, cutoff), Ranks);
    if ranked == [] then None else Some(ranked[0])
  }

  lemma RanksIsPreorder()
    ensures TotalPreorder(Ranks)
  {
    forall a: Signal, b: Signal
      ensures Ranks(a, b) || Ranks(b, a)
    {
      TextLeqTotal(a.Id(), b.Id());
    }
    forall a: Signal, b: Signal, c: Signal | Ranks(a, b) && Ranks(b, c)
      ensures Ranks(a, c)
    {
      if TextLeq(a.Id(), b.Id()) && TextLeq(b.Id(), c.Id()) {
        TextLeqTransitive(a.Id(), b.Id(), c.Id());
      }
    }
  }

  /** What the sort key orders: later effective time, then larger absolute score, then smaller identifier in code points. */
  ghost predicate NoStronger(s: Signal, best: Signal) {
    || s.EffectiveAt() < best.EffectiveAt()
    || (s.EffectiveAt() == best.EffectiveAt() && Abs(s.Score()) < Abs(best.Score()))
    || (&& s.EffectiveAt() == best.EffectiveAt() && Abs(s.Score()) == Abs(best.Score())
        && CodePointLeq(best.Id(), s.Id()))
  }

  lemma RanksExact(best: Signal, s: Signal)
    ensures Ranks(best, s) <==> NoStronger(s, best)
  {
    TextLeqExact(best.Id(), s.Id());
    hide TextLeq, CodePointLeq;
  }

  // The choice is an eligible signal no other eligible one ranks before, if there is any.
  lemma SelectionWins(inputs: Inputs, config: Config, cutoff: Cutoff)
    ensures
      match Select(inputs, config, cutoff)
      case None => forall s :: s in inputs.signals ==> !Eligible(inputs, config, cutoff, s)
      case Some(best) =>
        && best in inputs.signals && Eligible(inputs, config, cutoff, best)
        && forall s :: s in inputs.signals && Eligible(inputs, config, cutoff, s) ==> Ranks(best, s)
  {
    hide Eligible, Ranks, Sort;
    var eligible := EligibleSignals(inputs, config, cutoff);
    RanksIsPreorder();
    SortSorted(eligible, Ranks);
    var ranked := Sort(eligible, Ranks);
    if ranked == [] {
      assert eligible == [];
    } else {
      assert ranked[0] in eligible;
      forall s | s in eligible
        ensures Ranks(ranked[0], s)
      {
        assert s in ranked;
        assert Ranks(ranked[0], ranked[0]);
      }
    }
  }

  /**
   The signal may drive the decision: loaded, of an allowed status, with a window that opened,
   buffer in minutes included, and did not close before the decision, of closed lineage, and
   with every feature it rests on available by then.
   */
  ghost predicate Qualifies(inputs: Inputs, config: Config, cutoff: Cutoff, s: Signal) {
    && s in inputs.signals
    && s.Status() in config.allowlist
    && s.Window().Some?
    && s.Window().value.availableFrom
       + (if config.bufferMinutes.Some? then config.bufferMinutes.value * 60_000_000 else 0)
       <= cutoff.eligibleInformationTime
    && (s.Window().value.availableUntil.Some? ==> cutoff.decisionTime <= s.Window().value.availableUntil.value)
    && LineageClosed(inputs, s)
    && FeaturesReady(inputs, s, cutoff.decisionTime)
  }

  lemma EligibleExact(inputs: Inputs, config: Config, cutoff: Cutoff, s: Signal)
    ensures s in inputs.signals && Eligible(inputs, config, cutoff, s) <==> Qualifies(inputs, config, cutoff, s)
  {
    ValidationExact(inputs, s, cutoff.decisionTime);
    BufferExact(config);
    hide LineageClosed, FeaturesReady, Refusals;
  }

  /**
   The choice is a qualifying signal that no other qualifying one surpasses: every other is
   effective earlier, or at the same time with a smaller absolute score, or ties in both and its
   identifier comes no earlier in code-point order. There is none exactly when none qualifies.
   */
  lemma SelectionExact(inputs: Inputs, config: Config, cutoff: Cutoff)
    ensures Select(inputs, config, cutoff).None? ==> forall s :: !Qualifies(inputs, config, cutoff, s)
    ensures Select(inputs, config, cutoff).Some? ==>
              var best := Select(inputs, config, cutoff).value;
              && Qualifies(inputs, config, cutoff, best)
              && forall s :: Qualifies(inputs, config, cutoff, s) ==>
                   || s.EffectiveAt() < best.EffectiveAt()
                   || (s.EffectiveAt() == best.EffectiveAt() && Abs(s.Score()) < Abs(best.Score()))
                   || (&& s.EffectiveAt() == best.EffectiveAt() && Abs(s.Score()) == Abs(best.Score())
                       && CodePointLeq(best.Id(), s.Id()))
  {
    SelectionWins(inputs, config, cutoff);
    hide Select, Eligible, Qualifies, Ranks, CodePointLeq;
    forall s: Signal
      ensures s in inputs.signals && Eligible(inputs, config, cutoff, s) <==> Qualifies(inputs, config, cutoff, s)
    {
      EligibleExact(inputs, config, cutoff, s);
    }
    if Select(inputs, config, cutoff).Some? {
      var best := Select(inputs, config, cutoff).value;
      forall s | Qualifies(inputs, config, cutoff, s)
        ensures NoStronger(s, best)
      {
        RanksExact(best, s);
      }
    }
  }

  ghost predicate DistinctIds(signals: seq<Signal>) {
    forall i, j :: 0 <= i < j < |signals| ==> signals[i].Id() != signals[j].Id()
  }

  /** With distinct identifiers the order in which signals were loaded does not matter. */
  lemma SelectionIgnoresOrder(inputs: Inputs, config: Config, cutoff: Cutoff, shuffled: seq<Signal>)
    requires multiset(shuffled) == multiset(inputs.signals) && DistinctIds(inputs.signals)
    ensures Select(inputs, config, cutoff) == Select(inputs.(signals := shuffled), config, cutoff)
  {
    var other := inputs.(signals := shuffled);
    MembersOf(shuffled, inputs.signals);
    SelectionWins(inputs, config, cutoff);
    SelectionWins(other, config, cutoff);
    forall s: Signal
      ensures Eligible(inputs, config, cutoff, s) <==> Eligible(other, config, cutoff, s)
    {
      RefusalsIgnoreSignals(inputs, other, s, cutoff.decisionTime);
    }
    var here, there := Select(inputs, config, cutoff), Select(other, config, cutoff);
    if here.Some? && there.Some? {
      var a, b := here.value, there.value;
      TextLeqTotal(a.Id(), b.Id());
      assert Ranks(a, b) && Ranks(b, a);
      assert a.Id() == b.Id();
    }
  }

  lemma RefusalsIgnoreSignals(a: Inputs, b: Inputs, s: Signal, t: Time)
    requires a.researchById == b.researchById && a.featureAvailableAt == b.featureAvailableAt
    ensures Refusals(a, s, t) == [] <==> Refusals(b, s, t) == []
  {
    ValidationExact(a, s, t);
    ValidationExact(b, s, t);
    forall f
      ensures DependsOn(a, s, f) <==> DependsOn(b, s, f)
      ensures FeatureReady(a, f, t) <==> FeatureReady(b, f, t)
    {
    }
  }

  // ---------- The choice over time ----------

  /**
   Over time the choice only moves up the ranking, in particular to later signals, as long as
   no window that was open closes; features once ready stay ready.
   */
  lemma SelectionAdvances(inputs: Inputs, config: Config, early: Time, late: Time, chosen: Signal)
    requires early <= late
    requires Select(inputs, config, BuildCutoff(early)) == Some(chosen)
    requires chosen.Window().Some? ==> !ExpiredBy(chosen.Window().value, late)
    ensures Select(inputs, config, BuildCutoff(late)).Some?
    ensures NoStronger(chosen, Select(inputs, config, BuildCutoff(late)).value)
  {
    SelectionWins(inputs, config, BuildCutoff(early));
    SelectionWins(inputs, config, BuildCutoff(late));
    ValidationExact(inputs, chosen, early);
    ValidationExact(inputs, chosen, late);
    AvailabilityPersists(chosen.Window().value, early, late, config.Buffer());
    forall f | DependsOn(inputs, chosen, f)
      ensures FeatureReady(inputs, f, late)
    {
      assert FeatureReady(inputs, f, early);
    }
    assert Eligible(inputs, config, BuildCutoff(late), chosen);
    RanksExact(Select(inputs, config, BuildCutoff(late)).value, chosen);
  }

  // ---------- No look-ahead at one decision ----------

  // The signal could take part in some decision made at or before t.
  predicate Visible(config: Config, t: Time, s: Signal) {
    && Allowed(config, s)
    && s.Window().Some?
    && s.Window().value.availableFrom + config.Buffer() <= t
  }

  function VisibleSignals(signals: seq<Signal>, config: Config, t: Time): seq<Signal> {
    Filter(signals, (s: Signal) => Visible(config, t, s))
  }

  // The two worlds look the same to anyone who knows only what was out by time t.
  ghost predicate SameKnowledge(a: Inputs, b: Inputs, config: Config, t: Time) {
    && VisibleSignals(a.signals, config, t) == VisibleSignals(b.signals, config, t)
    && (forall f: string :: FeatureReady(a, f, t) <==> FeatureReady(b, f, t))
    && (forall f: string :: FeatureReady(a, f, t) ==> a.featureAvailableAt[f] == b.featureAvailableAt[f])
    && (forall s: Signal, x: string ::
          s in a.signals && Visible(config, t, s) && s.Variant? && x in s.variant.sourceIds ==>
            SameSource(a, b, x))
  }

  ghost predicate SameSource(a: Inputs, b: Inputs, x: string) {
    && (x in a.researchById <==> x in b.researchById)
    && (x in a.researchById ==> a.researchById[x].featureIds == b.researchById[x].featureIds)
  }

  lemma ValidationCausal(a: Inputs, b: Inputs, config: Config, t: Time, now: Time, s: Signal)
    requires SameKnowledge(a, b, config, t) && now <= t
    requires s in a.signals && Visible(config, t, s)
    ensures Refusals(a, s, now) == [] <==> Refusals(b, s, now) == []
  {
    ValidationExact(a, s, now);
    ValidationExact(b, s, now);
    if s.Variant? {
      forall x | x in s.variant.sourceIds
        ensures SameSource(a, b, x)
      {
      }
    }
    forall f
      ensures DependsOn(a, s, f) <==> DependsOn(b, s, f)
      ensures FeatureReady(a, f, now) <==> FeatureReady(b, f, now)
    {
      assert FeatureReady(a, f, t) <==> FeatureReady(b, f, t);
    }
  }

  lemma EligibleCausal(a: Inputs, b: Inputs, config: Config, t: Time, now: Time)
    requires SameKnowledge(a, b, config, t) && now <= t
    ensures EligibleSignals(a, config, BuildCutoff(now)) == EligibleSignals(b, config, BuildCutoff(now))
  {
    var cutoff := BuildCutoff(now);
    var visible := (s: Signal) => Visible(config, t, s);
    var inA := (s: Signal) => Eligible(a, config, cutoff, s);
    var inB := (s: Signal) => Eligible(b, config, cutoff, s);
    FilterThrough(a.signals, visible, inA);
    FilterThrough(b.signals, visible, inB);
    var seen := VisibleSignals(a.signals, config, t);
    forall s | s in seen
      ensures inA(s) == inB(s)
    {
      ValidationCausal(a, b, config, t, now, s);
    }
    FilterSame(seen, inA, inB);
    assert EligibleSignals(a, config, cutoff) == Filter(a.signals, inA);
    assert EligibleSignals(b, config, cutoff) == Filter(b.signals, inB);
  }

  /** A decision made at `now` cannot tell apart two worlds that agree on what was out by a later `t`. */
  lemma SelectionCausal(a: Inputs, b: Inputs, config: Config, t: Time, now: Time)
    requires SameKnowledge(a, b, config, t) && now <= t
    ensures Select(a, config, BuildCutoff(now)) == Select(b, config, BuildCutoff(now))
  {
    hide EligibleSignals, SameKnowledge;
    EligibleCausal(a, b, config, t, now);
  }

  lemma SameKnowledgeSymmetric(a: Inputs, b: Inputs, config: Config, t: Time)
    requires SameKnowledge(a, b, config, t)
    ensures SameKnowledge(b, a, config, t)
  {
    forall s: Signal, x: string | s in b.signals && Visible(config, t, s) && s.Variant? && x in s.variant.sourceIds
      ensures SameSource(b, a, x)
    {
      assert s in VisibleSignals(b.signals, config, t);
      assert s in VisibleSignals(a.signals, config, t);
      assert SameSource(a, b, x);
    }
  }
}
