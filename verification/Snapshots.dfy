/** The time fields of the two data snapshots a run opens with, against the snapshot schema's ordering rules. */
module Snapshots {
  import opened Wrappers
  import opened Market
  import opened Timing

  datatype Snapshot = Snapshot(
    snapshotTime: Time,
    eventTimeStart: Option<Time>,
    watermark: Option<Time>,
    ingestionCutoff: Option<Time>,
    informationCutoff: Option<Time>)
  {
    // The schema's validator.
    predicate Ordered() {
      && (eventTimeStart.Some? && watermark.Some? ==> eventTimeStart.value <= watermark.value)
      && (watermark.Some? && informationCutoff.Some? ==> watermark.value <= informationCutoff.value)
      && (informationCutoff.Some? ==> informationCutoff.value <= snapshotTime)
      && (ingestionCutoff.Some? ==> ingestionCutoff.value <= snapshotTime)
    }
  }

  function Max(a: Time, b: Time): Time {
    if a >= b then a else b
  }

  function SignalTime(s: Signal): Time {
    if s.Window().Some? then s.Window().value.availableFrom else s.EffectiveAt()
  }

  function SignalTimes(signals: seq<Signal>): (r: seq<Time>)
    ensures |r| == |signals|
    ensures forall i :: 0 <= i < |r| ==> r[i] == SignalTime(signals[i])
  {
    seq(|signals|, i requires 0 <= i < |signals| => SignalTime(signals[i]))
  }

  function CreationTimes(signals: seq<Signal>): (r: seq<Time>)
    ensures |r| == |signals|
    ensures forall i :: 0 <= i < |r| ==> r[i] == signals[i].CreatedAt()
  {
    seq(|signals|, i requires 0 <= i < |signals| => signals[i].CreatedAt())
  }

  function BarTimes(bars: seq<Bar>): (r: seq<Time>)
    ensures |r| == |bars|
    ensures forall i :: 0 <= i < |r| ==> r[i] == bars[i].timestamp
  {
    seq(|bars|, i requires 0 <= i < |bars| => bars[i].timestamp)
  }

  function SignalSnapshot(signals: seq<Signal>, now: Time, lastCutoff: Cutoff): Snapshot {
    var watermark := Latest(SignalTimes(signals));
    var information := Max(if watermark.Some? then watermark.value else now, lastCutoff.eligibleInformationTime);
    Snapshot(
      if watermark.Some? then Max(now, information) else now,
      Earliest(SignalTimes(signals)),
      watermark,
      Latest(CreationTimes(signals)),
      Some(information))
  }

  function PriceSnapshot(fixture: seq<Bar>, now: Time, lastCutoff: Cutoff): Snapshot
    requires fixture != []
  {
    var watermark := Latest(BarTimes(fixture)).value;
    var information := Max(watermark, lastCutoff.eligibleInformationTime);
    Snapshot(Max(now, information), Earliest(BarTimes(fixture)), Some(watermark), None, Some(information))
  }

  // t is the earliest, respectively the latest, of the times.
  ghost predicate First(t: Time, times: seq<Time>) {
    t in times && forall x :: x in times ==> t <= x
  }

  ghost predicate Last(t: Time, times: seq<Time>) {
    t in times && forall x :: x in times ==> x <= t
  }

  /**
   The price snapshot runs from the fixture's first bar to its last; information reaches to the
   last bar or the last decision, whichever is later, and the snapshot is taken then or now.
   */
  lemma PriceSnapshotExact(fixture: seq<Bar>, now: Time, last: Time)
    requires fixture != [] && Increasing(fixture)
    ensures
      var s, end := PriceSnapshot(fixture, now, BuildCutoff(last)), fixture[|fixture| - 1].timestamp;
      && s.eventTimeStart == Some(fixture[0].timestamp) && s.watermark == Some(end) && s.ingestionCutoff == None
      && s.informationCutoff == Some(if end >= last then end else last)
      && s.snapshotTime == (if now >= s.informationCutoff.value then now else s.informationCutoff.value)
  {
    var times := BarTimes(fixture);
    assert times[0] in times && times[|fixture| - 1] in times;
    assert forall t :: t in times ==> fixture[0].timestamp <= t <= fixture[|fixture| - 1].timestamp;
  }

  /**
   The signal snapshot spans the times its signals became available, or effective where no
   window says so, and its intake ends with the last one created; without signals it has no
   span and is taken now.
   */
  lemma SignalSnapshotExact(signals: seq<Signal>, now: Time, last: Time)
    ensures
      var s := SignalSnapshot(signals, now, BuildCutoff(last));
      if signals == [] then
        && s.eventTimeStart == s.watermark == s.ingestionCutoff == None
        && s.informationCutoff == Some(if now >= last then now else last) && s.snapshotTime == now
      else
        && s.eventTimeStart.Some? && First(s.eventTimeStart.value, SignalTimes(signals))
        && s.watermark.Some? && Last(s.watermark.value, SignalTimes(signals))
        && s.ingestionCutoff.Some? && Last(s.ingestionCutoff.value, CreationTimes(signals))
        && s.informationCutoff == Some(if s.watermark.value >= last then s.watermark.value else last)
        && s.snapshotTime == (if now >= s.informationCutoff.value then now else s.informationCutoff.value)
    ensures forall i :: 0 <= i < |signals| ==>
              SignalTimes(signals)[i] == (if signals[i].Window().Some? then signals[i].Window().value.availableFrom
                                          else signals[i].EffectiveAt())
  {
  }

  /** The price snapshot is in order whatever the clock says. */
  lemma PriceSnapshotOrdered(fixture: seq<Bar>, now: Time, lastCutoff: Cutoff)
    requires fixture != []
    ensures PriceSnapshot(fixture, now, lastCutoff).Ordered()
  {
    var times := BarTimes(fixture);
    var earliest, latest := Earliest(times).value, Latest(times).value;
    assert earliest in times && earliest <= latest;
  }

  // The signal was created by the clock's time, by the last cutoff, or by when some signal became available.
  ghost predicate CreatedInTime(signals: seq<Signal>, now: Time, lastCutoff: Cutoff, s: Signal) {
    || s.CreatedAt() <= now
    || s.CreatedAt() <= lastCutoff.eligibleInformationTime
    || exists x :: x in signals && s.CreatedAt() <= SignalTime(x)
  }

  lemma LatestSignal(signals: seq<Signal>, t: Time)
    requires signals != []
    ensures t <= Latest(SignalTimes(signals)).value <==> exists x :: x in signals && t <= SignalTime(x)
  {
    var times := SignalTimes(signals);
    var i :| 0 <= i < |times| && times[i] == Latest(times).value;
    assert signals[i] in signals;
    if exists x :: x in signals && t <= SignalTime(x) {
      var x :| x in signals && t <= SignalTime(x);
      var j :| 0 <= j < |signals| && signals[j] == x;
      assert times[j] in times;
    }
  }

  /**
   With signals the snapshot is in order exactly when each was created in time; with none,
   exactly when the last cutoff is not in the future.
   */
  lemma SignalSnapshotOrdered(signals: seq<Signal>, now: Time, lastCutoff: Cutoff)
    ensures SignalSnapshot(signals, now, lastCutoff).Ordered() <==>
              if signals == [] then lastCutoff.eligibleInformationTime <= now
              else forall s :: s in signals ==> CreatedInTime(signals, now, lastCutoff, s)
  {
    var times, created := SignalTimes(signals), CreationTimes(signals);
    var snapshot := SignalSnapshot(signals, now, lastCutoff);
    if signals != [] {
      assert Earliest(times).value in times && Earliest(times).value <= Latest(times).value;
      forall s: Signal
        ensures s.CreatedAt() <= snapshot.snapshotTime <==> CreatedInTime(signals, now, lastCutoff, s)
      {
        LatestSignal(signals, s.CreatedAt());
      }
      if snapshot.Ordered() {
        forall s | s in signals
          ensures s.CreatedAt() <= snapshot.snapshotTime
        {
          var i :| 0 <= i < |signals| && signals[i] == s;
          assert created[i] in created;
        }
      } else {
        var i :| 0 <= i < |created| && created[i] == Latest(created).value;
        assert signals[i] in signals;
      }
    }
  }
}
