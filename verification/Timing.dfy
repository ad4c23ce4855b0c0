/** Decision cutoffs and the point-in-time availability test. */
module Timing {
  import opened Wrappers
  import opened Market

  function Earliest(times: seq<Time>): (r: Option<Time>)
    ensures r.None? <==> times == []
    ensures r.Some? ==> r.value in times && forall t :: t in times ==> r.value <= t
  {
    if times == [] then None
    else
      assert times == [times[0]] + times[1..];
      var rest := Earliest(times[1..]);
      if rest.Some? && rest.value < times[0] then rest else Some(times[0])
  }

  function Latest(times: seq<Time>): (r: Option<Time>)
    ensures r.None? <==> times == []
    ensures r.Some? ==> r.value in times && forall t :: t in times ==> t <= r.value
  {
    if times == [] then None
    else
      assert times == [times[0]] + times[1..];
      var rest := Latest(times[1..]);
      if rest.Some? && rest.value > times[0] then rest else Some(times[0])
  }

  datatype Cutoff = Cutoff(decisionTime: Time, eligibleInformationTime: Time)

  // The daily rule decides at the bar close and lets in everything visible by then.
  function BuildCutoff(decisionTime: Time): Cutoff {
    Cutoff(decisionTime, decisionTime)
  }

  predicate AvailableBy(window: Window, cutoff: Cutoff, buffer: int) {
    if window.availableUntil.Some? && window.availableUntil.value < cutoff.decisionTime then false
    else window.availableFrom + buffer <= cutoff.eligibleInformationTime
  }

  /**
   At a bar closing at `t` an artifact is available exactly when it came out, buffer included,
   no later than `t` and its window, if it ends, ends no earlier than `t`.
   */
  lemma AvailabilityExact(window: Window, t: Time, buffer: int)
    ensures AvailableBy(window, BuildCutoff(t), buffer)
       <==> && window.availableFrom + buffer <= t
            && (window.availableUntil.None? || t <= window.availableUntil.value)
  {
  }

  lemma CutoffExact(t: Time)
    ensures BuildCutoff(t) == Cutoff(t, t)
  {
  }

  predicate ExpiredBy(window: Window, t: Time) {
    window.availableUntil.Some? && window.availableUntil.value < t
  }

  /**
   Availability is not monotone in the cutoff: a window can close. An artifact available at
   one bar is still available at a later one exactly when its window has not closed by then.
   */
  lemma AvailabilityPersists(window: Window, early: Time, late: Time, buffer: int)
    requires early <= late
    requires AvailableBy(window, BuildCutoff(early), buffer)
    ensures AvailableBy(window, BuildCutoff(late), buffer) <==> !ExpiredBy(window, late)
  {
  }

  /** The failing inputs: every artifact available at some bar with a closing time is unavailable at any bar after it. */
  lemma AvailabilityEnds(window: Window, early: Time, late: Time, buffer: int)
    requires window.availableUntil.Some? && window.availableUntil.value < late
    requires AvailableBy(window, BuildCutoff(early), buffer)
    ensures early < late && !AvailableBy(window, BuildCutoff(late), buffer)
  {
  }

  // What the cutoff lets in was already visible when the decision was made.
  lemma AvailabilityIsPast(window: Window, t: Time, buffer: int)
    requires buffer >= 0 && AvailableBy(window, BuildCutoff(t), buffer)
    ensures window.availableFrom <= t
  {
  }
}
