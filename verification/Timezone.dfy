/**
  Local dates and wall clocks resolved to UTC instants (whole seconds since day 0).
  A zone is its offset function: how far ahead of UTC its clocks are at an instant.
 */
module Timezone {
  import opened Wrappers

  const DAY: int := 86400
  const MIN_DURATION_MINUTES := 1
  const MAX_DURATION_MINUTES := 44640

  datatype Clock = Clock(hour: int, minute: int)

  type Zone = int -> int

  ghost predicate Bounded(z: Zone) {
    forall t :: -DAY < z(t) < DAY
  }

  predicate ValidClock(c: Clock) {
    0 <= c.hour <= 23 && 0 <= c.minute <= 59
  }

  predicate ValidDuration(minutes: int) {
    MIN_DURATION_MINUTES <= minutes <= MAX_DURATION_MINUTES
  }

  /** The instant a UTC clock would read this date and time. */
  function Nominal(date: int, clock: Clock): int {
    date * DAY + clock.hour * 3600 + clock.minute * 60
  }

  function CivilOf(t: int): int { t / DAY }

  /** z's wall clock shows this date, hour and minute at t. */
  predicate Shows(z: Zone, t: int, date: int, clock: Clock) {
    (t + z(t)) / 60 == Nominal(date, clock) / 60
  }

  const PROBE: int := 26 * 3600

  method ResolveStartUTC(z: Zone, date: int, clock: Clock) returns (start: int)
    ensures start == ResolveStart(z, date, clock)
  {
    var nominal := Nominal(date, clock);
    var offsetBefore, offsetAfter := z(nominal - PROBE), z(nominal + PROBE);
    var offsets := [offsetBefore, offsetAfter];
    var first, found := 0, false;
    for i := 0 to 2
      invariant i == 0 ==> !found
      invariant i == 1 ==> found == Shows(z, nominal - offsetBefore, date, clock)
                           && (found ==> first == nominal - offsetBefore)
      invariant i == 2 ==> Candidate(z, date, clock) == if found then Some(first) else None
    {
      var candidate := nominal - offsets[i];
      if Shows(z, candidate, date, clock) {
        if !found || candidate < first { first, found := candidate, true; }
      }
    }
    if found { return first; }
    var clockChange := offsetAfter - offsetBefore;
    start := nominal + clockChange - offsetAfter;
  }

  function Candidate(z: Zone, date: int, clock: Clock): Option<int> {
    var nominal := Nominal(date, clock);
    var before, after := nominal - z(nominal - PROBE), nominal - z(nominal + PROBE);
    if Shows(z, before, date, clock) then
      Some(if Shows(z, after, date, clock) && after < before then after else before)
    else if Shows(z, after, date, clock) then Some(after)
    else None
  }

  function ResolveStart(z: Zone, date: int, clock: Clock): int {
    match Candidate(z, date, clock)
    case Some(t) => t
    case None => Nominal(date, clock) - z(Nominal(date, clock) - PROBE)
  }

  function ResolveEnd(z: Zone, date: int, clock: Clock, minutes: int): int {
    ResolveStart(z, date, clock) + minutes * 60
  }

  /**
    The two candidates take the offsets 26 hours before and after the reading; the result is the earlier
    of those that show it, and the first of them when neither does.
   */
  lemma ResolvesOneOfTwo(z: Zone, date: int, hour: int, minute: int)
    ensures var reading := date * 86_400 + hour * 3_600 + minute * 60;
      var clock, start := Clock(hour, minute), ResolveStart(z, date, Clock(hour, minute));
      var a, b := reading - z(reading - 93_600), reading - z(reading + 93_600);
      && (start == a || start == b)
      && (Shows(z, a, date, clock) || Shows(z, b, date, clock) ==> Shows(z, start, date, clock))
      && (Shows(z, a, date, clock) ==> start <= a) && (Shows(z, b, date, clock) ==> start <= b)
      && (!Shows(z, a, date, clock) && !Shows(z, b, date, clock) ==> start == a)
  {
  }

  /** A clock shows a reading for as long as its own minute of that day lasts. */
  lemma ShowsItsMinute(z: Zone, t: int, date: int, hour: int, minute: int)
    ensures Shows(z, t, date, Clock(hour, minute)) <==>
      date * 86_400 + hour * 3_600 + minute * 60 <= t + z(t) < date * 86_400 + hour * 3_600 + minute * 60 + 60
  {
  }

  lemma LegalClocksAndDurations(hour: int, minute: int, minutes: int)
    ensures ValidClock(Clock(hour, minute)) <==> 0 <= hour < 24 && 0 <= minute < 60
    ensures ValidDuration(minutes) <==> 1 <= minutes <= 31 * 24 * 60
  {
  }

  /** Whatever the zone does, a start is less than a day from its own wall-clock reading. */
  lemma StartsWithinADay(z: Zone, date: int, clock: Clock)
    requires Bounded(z)
    ensures -DAY < ResolveStart(z, date, clock) - Nominal(date, clock) < DAY
  {
  }

  predicate SteadyMinute(z: Zone, t: int) { z(t) % 60 == 0 && z(t) == z(t - t % 60) }

  /** Around the reading the clock keeps offsets of whole minutes and changes them on whole minutes. */
  ghost predicate WholeMinutes(z: Zone, nominal: int) {
    forall t :: nominal - PROBE <= t <= nominal + PROBE ==> SteadyMinute(z, t)
  }

  /** The offset at t is one of the two the probing looks at. */
  predicate Probed(z: Zone, nominal: int, t: int) {
    z(t) == z(nominal - PROBE) || z(t) == z(nominal + PROBE)
  }

  /** Around the reading the clock keeps to the two offsets at the ends, however often it changes. */
  ghost predicate TwoOffsets(z: Zone, nominal: int) {
    forall t :: nominal - PROBE <= t <= nominal + PROBE ==> Probed(z, nominal, t)
  }

  ghost predicate FirstShowing(z: Zone, date: int, clock: Clock, t: int) {
    Shows(z, t, date, clock) && forall u :: Shows(z, u, date, clock) ==> t <= u
  }

  /** At t the clock shows the reading exactly when its local time lies in that minute. */
  lemma ShownInMinute(z: Zone, t: int, date: int, clock: Clock)
    ensures Nominal(date, clock) % 60 == 0
    ensures Shows(z, t, date, clock) <==> Nominal(date, clock) <= t + z(t) < Nominal(date, clock) + 60
  {
  }

  lemma MinuteBegins(nominal: int, offset: int, t: int)
    requires nominal % 60 == 0 && offset % 60 == 0 && nominal <= t + offset < nominal + 60
    ensures t - t % 60 == nominal - offset
  {
  }

  lemma SameMinute(nominal: int, offset: int, other: int)
    requires offset % 60 == 0 && other % 60 == 0 && nominal <= nominal - offset + other < nominal + 60
    ensures offset == other
  {
  }

  /** A minute showing the reading shows it from its beginning. */
  lemma ShownFromTheMinute(z: Zone, date: int, clock: Clock, t: int)
    requires Bounded(z) && WholeMinutes(z, Nominal(date, clock)) && Shows(z, t, date, clock)
    ensures var nominal := Nominal(date, clock);
      && nominal - PROBE <= t <= nominal + PROBE && nominal - z(t) <= t
      && z(nominal - z(t)) == z(t) && Shows(z, nominal - z(t), date, clock)
  {
    ShownInMinute(z, t, date, clock);
    ShownInMinute(z, Nominal(date, clock) - z(t), date, clock);
    assert SteadyMinute(z, t);
    MinuteBegins(Nominal(date, clock), z(t), t);
  }

  /** A reading seen under a probed offset is resolved to a showing no later than that one. */
  lemma ProbedIsResolved(z: Zone, date: int, clock: Clock, t: int)
    requires Bounded(z) && WholeMinutes(z, Nominal(date, clock))
    requires Shows(z, t, date, clock) && Probed(z, Nominal(date, clock), t)
    ensures Shows(z, ResolveStart(z, date, clock), date, clock) && ResolveStart(z, date, clock) <= t
  {
    ShownFromTheMinute(z, date, clock, t);
    hide Shows, WholeMinutes, Nominal;
  }

  /** The resolved start is the first showing of its reading exactly when the offset then is a probed one. */
  lemma FirstShowingIsProbed(z: Zone, date: int, clock: Clock)
    requires Bounded(z) && WholeMinutes(z, Nominal(date, clock))
    ensures FirstShowing(z, date, clock, ResolveStart(z, date, clock))
            <==> exists t :: FirstShowing(z, date, clock, t) && Probed(z, Nominal(date, clock), t)
  {
    var start := ResolveStart(z, date, clock);
    if t :| FirstShowing(z, date, clock, t) && Probed(z, Nominal(date, clock), t) {
      ProbedIsResolved(z, date, clock, t);
    }
    if FirstShowing(z, date, clock, start) { ResolvedIsProbed(z, date, clock); }
  }

  lemma ResolvedIsProbed(z: Zone, date: int, clock: Clock)
    requires Bounded(z) && WholeMinutes(z, Nominal(date, clock))
    requires Shows(z, ResolveStart(z, date, clock), date, clock)
    ensures Probed(z, Nominal(date, clock), ResolveStart(z, date, clock))
  {
    var nominal, start := Nominal(date, clock), ResolveStart(z, date, clock);
    var a, b := z(nominal - PROBE), z(nominal + PROBE);
    assert start == nominal - a || start == nominal - b;
    assert SteadyMinute(z, nominal - PROBE) && SteadyMinute(z, nominal + PROBE) && SteadyMinute(z, start);
    ShownInMinute(z, start, date, clock);
    hide Shows, Candidate, ResolveStart, WholeMinutes, Nominal;
    SameMinute(nominal, if start == nominal - a then a else b, z(start));
    assert Probed(z, nominal, start);
  }

  /** With two offsets around it, a reading the clock shows at all is resolved to its first showing. */
  lemma ResolvesFirstShowing(z: Zone, date: int, clock: Clock)
    requires Bounded(z) && WholeMinutes(z, Nominal(date, clock)) && TwoOffsets(z, Nominal(date, clock))
    ensures Shows(z, ResolveStart(z, date, clock), date, clock) <==> exists t :: Shows(z, t, date, clock)
    ensures forall t :: Shows(z, t, date, clock) ==> ResolveStart(z, date, clock) <= t
  {
    forall t | Shows(z, t, date, clock)
      ensures ResolveStart(z, date, clock) <= t && Shows(z, ResolveStart(z, date, clock), date, clock)
    {
      ShownFromTheMinute(z, date, clock, t);
      ProbedIsResolved(z, date, clock, t);
    }
  }

  /** Around the reading there is one change, from the first offset to the last. */
  ghost predicate OneChange(z: Zone, nominal: int, change: int) {
    forall t :: nominal - PROBE <= t <= nominal + PROBE ==>
      z(t) == if t < change then z(nominal - PROBE) else z(nominal + PROBE)
  }

  /** A reading never shown is shifted by exactly the change of offset; with one change, forward. */
  lemma GapShiftsForward(z: Zone, date: int, clock: Clock)
    requires Bounded(z) && WholeMinutes(z, Nominal(date, clock)) && TwoOffsets(z, Nominal(date, clock))
    requires forall t :: !Shows(z, t, date, clock)
    ensures var nominal, start := Nominal(date, clock), ResolveStart(z, date, clock);
      var a, b := z(nominal - PROBE), z(nominal + PROBE);
      && start + z(start) == nominal + (b - a) && a != b
      && ((exists change :: OneChange(z, nominal, change)) ==> a < b)
  {
    var nominal := Nominal(date, clock);
    var a, b := z(nominal - PROBE), z(nominal + PROBE);
    assert Probed(z, nominal, nominal - a) && Probed(z, nominal, nominal - b);
    ShownInMinute(z, nominal - a, date, clock);
    ShownInMinute(z, nominal - b, date, clock);
    assert !Shows(z, nominal - a, date, clock) && !Shows(z, nominal - b, date, clock);
    assert ResolveStart(z, date, clock) == nominal - a;
    hide Shows, Candidate, ResolveStart, WholeMinutes, Nominal;
    assert z(nominal - a) == b && z(nominal - b) == a;
  }
}
