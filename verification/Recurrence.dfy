/**
  Effective-dated recurrence rules and their bounded expansion. The loops jump
  arithmetically to the first candidate of a window; the functions here say, day by
  day and without jumping, which days a rule keeps.
 */
module Recurrence {
  import opened Wrappers
  import opened Days

  datatype Mode = WeekdayPattern | Interval | SelectedDates | UnknownMode

  datatype IntervalUnit = NoUnit | DayUnit | WeekUnit | UnknownUnit

  datatype Revision = Revision(
    scheduleId: string,
    version: int,
    effective: int,
    mode: Mode,
    anchor: int,
    end: Option<int>,
    weekCadence: int,
    weekdays: seq<int>,
    intervalCount: int,
    intervalUnit: IntervalUnit,
    selectedDates: seq<int>)

  /** One generated occurrence: identified by schedule and original date. */
  datatype Occurrence = Occurrence(scheduleId: string, version: int, date: int)

  datatype PatternError =
    | InvalidRevision
    | UnknownRecurrenceMode
    | InvalidWeekdayPattern
    | InvalidInterval
    | InvalidSelectedDates

  // ---------------------------------------------------------------- validation

  ghost predicate WeekdaySelectorsOk(r: Revision) {
    && (r.weekCadence == 1 || r.weekCadence == 2)
    && r.intervalCount == 0 && r.intervalUnit == NoUnit
    && (forall i :: 0 <= i < |r.weekdays| ==> 0 <= r.weekdays[i] <= 6)
    && (forall i, j :: 0 <= i < j < |r.weekdays| ==> r.weekdays[i] != r.weekdays[j])
    && Weekday(r.anchor) in r.weekdays
  }

  ghost predicate IntervalSelectorsOk(r: Revision) {
    && r.intervalCount > 0
    && (r.intervalUnit == DayUnit || r.intervalUnit == WeekUnit)
    && r.weekCadence == 0 && r.weekdays == []
  }

  ghost predicate SelectedDatesOk(r: Revision) {
    && r.weekCadence == 0 && r.weekdays == []
    && r.intervalCount == 0 && r.intervalUnit == NoUnit
    && r.anchor in r.selectedDates
    && (forall i :: 0 <= i < |r.selectedDates| ==>
          r.anchor <= r.selectedDates[i] && (r.end.Some? ==> r.selectedDates[i] <= r.end.value))
  }

  ghost predicate HeaderOk(r: Revision) {
    r.version > 0 && (r.end.Some? ==> r.anchor <= r.end.value)
  }

  ghost predicate WellFormed(r: Revision) {
    && HeaderOk(r)
    && match r.mode
       case WeekdayPattern => WeekdaySelectorsOk(r)
       case Interval => IntervalSelectorsOk(r)
       case SelectedDates => SelectedDatesOk(r)
       case UnknownMode => false
  }

  /** No selector but those of its own mode is set, and those are legal and reach the anchor. */
  lemma LegalPatterns(r: Revision)
    ensures var header := r.version >= 1 && (r.end == None || r.anchor <= r.end.value);
      var noWeekdays := r.weekCadence == 0 && |r.weekdays| == 0;
      var noInterval := r.intervalCount == 0 && r.intervalUnit == NoUnit;
      && (r.mode == WeekdayPattern ==>
            (WellFormed(r) <==> header && noInterval && r.weekCadence in {1, 2} && Weekday(r.anchor) in r.weekdays
                                && DistinctBy(r.weekdays, x => x) && forall d :: d in r.weekdays ==> 0 <= d < 7))
      && (r.mode == Interval ==>
            (WellFormed(r) <==> header && noWeekdays && r.intervalCount >= 1 && r.intervalUnit in {DayUnit, WeekUnit}))
      && (r.mode == SelectedDates ==>
            (WellFormed(r) <==> header && noWeekdays && noInterval && r.anchor in r.selectedDates
                                && forall d :: d in r.selectedDates ==>
                                     r.anchor <= d && (r.end == None || d <= r.end.value)))
      && (r.mode == UnknownMode ==> !WellFormed(r))
  {
    var id := (x: int) => x;
    assert forall i :: 0 <= i < |r.weekdays| ==> r.weekdays[i] in r.weekdays;
    assert forall i :: 0 <= i < |r.selectedDates| ==> r.selectedDates[i] in r.selectedDates;
  }

  method ValidatePattern(r: Revision) returns (e: Option<PatternError>)
    ensures e == None <==> WellFormed(r)
    ensures e == Some(InvalidRevision) <==> !HeaderOk(r)
    ensures e == Some(UnknownRecurrenceMode) <==> HeaderOk(r) && r.mode == UnknownMode
    ensures e == Some(InvalidWeekdayPattern) <==> HeaderOk(r) && r.mode == WeekdayPattern && !WeekdaySelectorsOk(r)
    ensures e == Some(InvalidInterval) <==> HeaderOk(r) && r.mode == Interval && !IntervalSelectorsOk(r)
    ensures e == Some(InvalidSelectedDates) <==> HeaderOk(r) && r.mode == SelectedDates && !SelectedDatesOk(r)
  {
    if r.version <= 0 { return Some(InvalidRevision); }
    if r.end.Some? && r.end.value < r.anchor { return Some(InvalidRevision); }
    match r.mode {
      case WeekdayPattern => e := ValidateWeekdayPattern(r);
      case Interval =>
        if r.intervalCount <= 0 || (r.intervalUnit != DayUnit && r.intervalUnit != WeekUnit) {
          return Some(InvalidInterval);
        }
        if r.weekCadence != 0 || |r.weekdays| != 0 { return Some(InvalidInterval); }
        e := None;
      case SelectedDates => e := ValidateSelectedDates(r);
      case UnknownMode => e := Some(UnknownRecurrenceMode);
    }
  }

  method ValidateWeekdayPattern(r: Revision) returns (e: Option<PatternError>)
    ensures e == if WeekdaySelectorsOk(r) then None else Some(InvalidWeekdayPattern)
  {
    if r.weekCadence != 1 && r.weekCadence != 2 { return Some(InvalidWeekdayPattern); }
    if |r.weekdays| == 0 || r.intervalCount != 0 || r.intervalUnit != NoUnit {
      return Some(InvalidWeekdayPattern);
    }
    var seen: set<int> := {};
    for k := 0 to |r.weekdays|
      invariant forall d :: d in seen <==> d in r.weekdays[..k]
      invariant forall i :: 0 <= i < k ==> 0 <= r.weekdays[i] <= 6
      invariant forall i, j :: 0 <= i < j < k ==> r.weekdays[i] != r.weekdays[j]
    {
      var day := r.weekdays[k];
      if day < 0 || day > 6 || day in seen { return Some(InvalidWeekdayPattern); }
      seen := seen + {day};
    }
    assert r.weekdays[..|r.weekdays|] == r.weekdays;
    e := if Weekday(r.anchor) !in seen then Some(InvalidWeekdayPattern) else None;
  }

  method ValidateSelectedDates(r: Revision) returns (e: Option<PatternError>)
    ensures e == if SelectedDatesOk(r) then None else Some(InvalidSelectedDates)
  {
    if r.weekCadence != 0 || |r.weekdays| != 0 || r.intervalCount != 0 || r.intervalUnit != NoUnit {
      return Some(InvalidSelectedDates);
    }
    if |r.selectedDates| == 0 { return Some(InvalidSelectedDates); }
    var first := r.selectedDates[0];
    for k := 0 to |r.selectedDates|
      invariant forall i :: 0 <= i < k ==>
        r.anchor <= r.selectedDates[i] && (r.end.Some? ==> r.selectedDates[i] <= r.end.value)
      invariant first in r.selectedDates
      invariant forall i :: 0 <= i < k ==> first <= r.selectedDates[i]
    {
      var day := r.selectedDates[k];
      if day < r.anchor { return Some(InvalidSelectedDates); }
      if r.end.Some? && r.end.value < day { return Some(InvalidSelectedDates); }
      if day < first { first := day; }
    }
    e := if first != r.anchor then Some(InvalidSelectedDates) else None;
  }

  // ------------------------------------------------- which days a revision keeps

  function StepDays(r: Revision): int {
    if r.intervalUnit == WeekUnit then r.intervalCount * 7 else r.intervalCount
  }

  predicate Matches(r: Revision, d: int) {
    match r.mode
    case WeekdayPattern =>
      && Weekday(d) in r.weekdays
      && r.weekCadence > 0
      && ((WeekStart(d) - WeekStart(r.anchor)) / 7) % r.weekCadence == 0
    case Interval => OnStep(r.anchor, d, StepDays(r))
    case SelectedDates => d in r.selectedDates
    case UnknownMode => false
  }

  /** d is an original local date of this revision. */
  predicate Occurs(r: Revision, d: int) {
    && r.anchor <= d && r.effective <= d
    && (r.end.Some? ==> d <= r.end.value)
    && Matches(r, d)
  }

  /** The days a revision is in force at all. */
  ghost predicate InForce(r: Revision, d: int) {
    r.anchor <= d && r.effective <= d && (r.end == None || d <= r.end.value)
  }

  /** Whole weeks of the cadence lie between the anchor's week and the day's. */
  ghost predicate WeeksFromAnchor(r: Revision, d: int, n: int) {
    WeekStart(d) == WeekStart(r.anchor) + 7 * (r.weekCadence * n)
  }

  /** The day lies a whole number of the rule's days or weeks from the anchor. */
  ghost predicate StepsFromAnchor(r: Revision, d: int, n: int) {
    match r.intervalUnit
    case WeekUnit => d == r.anchor + 7 * (r.intervalCount * n)
    case _ => d == r.anchor + r.intervalCount * n
  }

  /** What a valid rule means, mode by mode. */
  lemma OccursByMode(r: Revision, d: int)
    requires WellFormed(r)
    ensures r.mode == WeekdayPattern ==>
      (Occurs(r, d) <==> InForce(r, d) && Weekday(d) in r.weekdays && exists n :: WeeksFromAnchor(r, d, n))
    ensures r.mode == Interval ==> (Occurs(r, d) <==> InForce(r, d) && exists n :: StepsFromAnchor(r, d, n))
    ensures r.mode == SelectedDates ==> (Occurs(r, d) <==> InForce(r, d) && d in r.selectedDates)
  {
    match r.mode
    case WeekdayPattern =>
      var from, to := WeekStart(r.anchor), WeekStart(d);
      WeeksApart(from, to);
      var weeks := (to - from) / 7;
      if weeks % r.weekCadence == 0 { assert WeeksFromAnchor(r, d, weeks / r.weekCadence); }
      if n :| WeeksFromAnchor(r, d, n) { DivUnique(weeks, r.weekCadence, n, 0); }
    case Interval =>
      var step := StepDays(r);
      var n := (d - r.anchor) / step;
      if OnStep(r.anchor, d, step) { StepsMatch(r, d, n); }
      if m :| StepsFromAnchor(r, d, m) {
        StepsMatch(r, d, m);
        DivUnique(d - r.anchor, step, m, 0);
      }
    case SelectedDates =>
    case UnknownMode =>
  }

  lemma StepsMatch(r: Revision, d: int, n: int)
    requires IntervalSelectorsOk(r)
    ensures StepsFromAnchor(r, d, n) <==> d - r.anchor == n * StepDays(r)
  {
    assert (r.intervalCount * 7) * n == 7 * (r.intervalCount * n);
  }

  function OccurrenceDays(r: Revision, from: int, to: int): seq<int> {
    DaysWhere(from, to, d => Occurs(r, d))
  }

  /** A validated rule always starts on its own anchor. */
  lemma AnchorOccurs(r: Revision, from: int, to: int)
    requires WellFormed(r) && r.effective <= r.anchor
    ensures r.anchor in OccurrenceDays(r, from, to) <==> from <= r.anchor <= to
  {
  }

  // --------------------------------------------------------- the jumping loops

  lemma WeekOfDay(start: int, day: int)
    requires Weekday(start) == 0 && 0 <= day < 7
    ensures Weekday(start + day) == day && WeekStart(start + day) == start
  {
  }

  /** d is a whole number of steps from anchor. */
  predicate OnStep(anchor: int, d: int, step: int) {
    step > 0 && (d - anchor) % step == 0
  }

  lemma NoStepBetween(anchor: int, d: int, x: int, step: int)
    requires OnStep(anchor, d, step) && d < x < d + step
    ensures !OnStep(anchor, x, step)
  {
    var q := (d - anchor) / step;
    assert x - anchor == q * step + (x - d);
    DivUnique(x - anchor, step, q, x - d);
  }

  lemma NextStep(anchor: int, d: int, step: int)
    requires OnStep(anchor, d, step)
    ensures OnStep(anchor, d + step, step)
  {
    var q := (d - anchor) / step;
    assert (q + 1) * step == q * step + step;
    DivUnique(d + step - anchor, step, q + 1, 0);
  }

  lemma MulBound(k: int, d: int)
    requires d > 0
    ensures k >= 1 ==> k * d >= d
    ensures k <= -1 ==> k * d <= -d
  {
  }

  lemma DivUnique(x: int, d: int, q: int, m: int)
    requires d > 0 && 0 <= m < d && x == q * d + m
    ensures x / d == q && x % d == m
  {
    var q2, m2 := x / d, x % d;
    assert (q2 - q) * d == m - m2;
    MulBound(q2 - q, d);
  }

  /** Rounding up to a whole number of steps lands on the first multiple not below gap. */
  lemma CeilingStep(anchor: int, gap: int, step: int, landed: int)
    requires step > 0 && landed == ((gap + step - 1) / step) * step
    ensures gap <= landed < gap + step
    ensures OnStep(anchor, anchor + landed, step) && OnStep(anchor, anchor + landed - step, step)
  {
    var k := (gap + step - 1) / step;
    assert gap + step - 1 == k * step + (gap + step - 1) % step;
    DivUnique(landed, step, k, 0);
    assert (k - 1) * step == landed - step;
    DivUnique(landed - step, step, k - 1, 0);
  }

  lemma JumpLands(anchor: int, lower: int, step: int, start: int)
    requires step > 0 && start == anchor + ((lower - anchor + step - 1) / step) * step
    ensures lower <= start && OnStep(anchor, start, step)
    ensures forall d :: lower <= d < start ==> !OnStep(anchor, d, step)
  {
    CeilingStep(anchor, lower - anchor, step, start - anchor);
    forall d | lower <= d < start ensures !OnStep(anchor, d, step) {
      NoStepBetween(anchor, start - step, d, step);
    }
  }

  ghost predicate KeepsExactly(dates: seq<int>, r: Revision, lower: int, upper: int) {
    && Ascending(dates)
    && forall d :: d in dates <==> lower <= d <= upper && Matches(r, d)
  }

  ghost predicate OnCadence(r: Revision, start: int) {
    && Weekday(start) == 0
    && r.weekCadence > 0
    && ((start - WeekStart(r.anchor)) / 7) % r.weekCadence == 0
  }

  /** Sundays lie whole weeks apart. */
  lemma WeeksApart(first: int, start: int)
    requires Weekday(first) == 0 && Weekday(start) == 0
    ensures start == first + (start - first) / 7 * 7
  {
  }

  lemma WeeksLater(first: int, start: int, n: int)
    requires Weekday(first) == 0 && start == first + n * 7
    ensures Weekday(start) == 0 && (start - first) / 7 == n
  {
  }

  lemma FirstWeek(r: Revision, lower: int, week: int, start: int)
    requires r.mode == WeekdayPattern && WeekdaySelectorsOk(r) && r.anchor <= lower
    requires week == (WeekStart(lower) - WeekStart(r.anchor)) / 7
    requires start == WeekStart(r.anchor)
                      + (if week % r.weekCadence == 0 then week else week + (r.weekCadence - week % r.weekCadence)) * 7
    ensures OnCadence(r, start) && WeekStart(lower) <= start
    ensures forall d :: lower <= d < start ==> !Matches(r, d)
  {
    var first := WeekStart(r.anchor);
    WeeksApart(first, WeekStart(lower));
    if r.weekCadence == 1 || week % 2 == 0 {
      assert start == first + week * 7;
      WeeksLater(first, start, week);
    } else {
      assert start == first + (week + 1) * 7;
      WeeksLater(first, start, week + 1);
      forall d | lower <= d < start ensures !Matches(r, d) {
        WeekOfDay(WeekStart(lower), d - WeekStart(lower));
      }
    }
  }

  lemma WithinWeek(r: Revision, start: int, day: int)
    requires r.mode == WeekdayPattern && OnCadence(r, start) && 0 <= day < 7
    ensures Matches(r, start + day) <==> day in r.weekdays
  {
    WeekOfDay(start, day);
  }

  lemma NextWeek(r: Revision, start: int)
    requires r.mode == WeekdayPattern && WeekdaySelectorsOk(r) && OnCadence(r, start)
    ensures OnCadence(r, start + r.weekCadence * 7)
    ensures forall d :: start + 7 <= d < start + r.weekCadence * 7 ==> !Matches(r, d)
  {
    var first := WeekStart(r.anchor);
    var k := (start - first) / 7;
    WeeksApart(first, start);
    WeeksLater(first, start + 7, k + 1);
    if r.weekCadence == 2 {
      WeeksLater(first, start + 14, k + 2);
      forall d | start + 7 <= d < start + 14 ensures !Matches(r, d) {
        WeekOfDay(start + 7, d - start - 7);
      }
    }
  }

  method WeekdayDates(r: Revision, lower: int, upper: int) returns (dates: seq<int>)
    requires r.mode == WeekdayPattern && WeekdaySelectorsOk(r)
    requires r.anchor <= lower
    ensures KeepsExactly(dates, r, lower, upper)
  {
    var anchorWeek := WeekStart(r.anchor);
    var inSet := set d | d in r.weekdays;
    var week := (WeekStart(lower) - anchorWeek) / 7;
    ghost var firstWeek := week;
    var rem := week % r.weekCadence;
    if rem != 0 { week := week + (r.weekCadence - rem); }
    dates := [];
    var start := anchorWeek + week * 7;
    FirstWeek(r, lower, firstWeek, start);
    while start <= upper
      invariant OnCadence(r, start)
      invariant KeepsExactly(dates, r, lower, Min(upper, start - 1))
      decreases upper - start
    {
      for day := 0 to 7
        invariant KeepsExactly(dates, r, lower, Min(upper, start + day - 1))
      {
        WithinWeek(r, start, day);
        if day !in inSet { continue; }
        var d := start + day;
        if lower <= d <= upper { dates := Append(dates, d); }
      }
      NextWeek(r, start);
      start := start + r.weekCadence * 7;
    }
  }

  function Min(a: int, b: int): int { if a < b then a else b }

  function Append(dates: seq<int>, d: int): (r: seq<int>)
    ensures forall x :: x in r <==> x in dates || x == d
    ensures Ascending(dates) && (forall x :: x in dates ==> x < d) ==> Ascending(r)
  {
    assert forall j :: 0 <= j < |dates| ==> dates[j] in dates;
    dates + [d]
  }

  /** The first candidate at or after lower, reached in one jump. */
  method FirstCandidate(anchor: int, lower: int, stepDays: int) returns (start: int)
    requires anchor <= lower && stepDays > 0
    ensures lower <= start && OnStep(anchor, start, stepDays)
    ensures forall d :: lower <= d < start ==> !OnStep(anchor, d, stepDays)
  {
    start := anchor;
    if anchor < lower {
      var steps := ((lower - anchor) + stepDays - 1) / stepDays;
      start := anchor + steps * stepDays;
      JumpLands(anchor, lower, stepDays, start);
    }
  }

  method IntervalDates(r: Revision, lower: int, upper: int) returns (dates: seq<int>)
    requires r.mode == Interval && IntervalSelectorsOk(r)
    requires r.anchor <= lower
    ensures KeepsExactly(dates, r, lower, upper)
  {
    var stepDays := r.intervalCount;
    if r.intervalUnit == WeekUnit { stepDays := stepDays * 7; }
    assert stepDays == StepDays(r);
    var d := FirstCandidate(r.anchor, lower, stepDays);
    dates := [];
    while d <= upper
      invariant lower <= d && OnStep(r.anchor, d, StepDays(r))
      invariant KeepsExactly(dates, r, lower, Min(upper, d - 1))
      decreases upper - d
    {
      dates := Append(dates, d);
      forall x | d < x < d + stepDays ensures !Matches(r, x) {
        NoStepBetween(r.anchor, d, x, stepDays);
      }
      NextStep(r.anchor, d, stepDays);
      d := d + stepDays;
    }
  }

  method ListedDates(r: Revision, lower: int, upper: int) returns (dates: seq<int>)
    requires r.mode == SelectedDates
    ensures KeepsExactly(dates, r, lower, upper)
  {
    var seen: set<int> := {};
    dates := [];
    for k := 0 to |r.selectedDates|
      invariant forall d :: d in seen <==> d in dates
      invariant forall d :: d in dates <==> d in r.selectedDates[..k] && lower <= d <= upper
      invariant DistinctBy(dates, x => x)
    {
      var day := r.selectedDates[k];
      if day in seen || day < lower || upper < day { continue; }
      seen := seen + {day};
      assert forall i :: 0 <= i < |dates| ==> dates[i] in dates;
      dates := dates + [day];
    }
    assert r.selectedDates[..|r.selectedDates|] == r.selectedDates;
    dates := SortBy(dates, x => x);
    assert Ascending(dates);
  }

  method OccurrenceDates(r: Revision, from: int, to: int) returns (dates: seq<int>)
    requires WellFormed(r)
    ensures dates == OccurrenceDays(r, from, to)
  {
    var bounds := [from, r.anchor, r.effective];
    var lower := MaxCivil(bounds);
    assert bounds[0] <= lower && bounds[1] <= lower && bounds[2] <= lower;
    var upper := to;
    if r.end.Some? && r.end.value < upper { upper := r.end.value; }
    if upper < lower {
      dates := [];
    } else {
      match r.mode {
        case WeekdayPattern => dates := WeekdayDates(r, lower, upper);
        case Interval => dates := IntervalDates(r, lower, upper);
        case SelectedDates => dates := ListedDates(r, lower, upper);
      }
    }
    AscendingListsAgree(dates, OccurrenceDays(r, from, to));
  }

  method MaxCivil(dates: seq<int>) returns (max: int)
    requires dates != []
    ensures max in dates && forall i :: 0 <= i < |dates| ==> dates[i] <= max
  {
    max := dates[0];
    for k := 1 to |dates|
      invariant max in dates && forall i :: 0 <= i < k ==> dates[i] <= max
    {
      if max < dates[k] { max := dates[k]; }
    }
  }

  // ------------------------------------------------------- governing revisions

  ghost predicate OneSchedule(revisions: seq<Revision>) {
    && (forall i :: 0 <= i < |revisions| ==> WellFormed(revisions[i]))
    && (forall i, j :: 0 <= i < j < |revisions| ==>
          revisions[i].scheduleId == revisions[j].scheduleId && revisions[i].version != revisions[j].version)
  }

  /** best is the highest version in force on day. */
  ghost predicate Governs(revisions: seq<Revision>, day: int, best: Revision) {
    && best in revisions && best.effective <= day
    && forall r :: r in revisions && r.effective <= day ==> r.version <= best.version
  }

  function Governing(revisions: seq<Revision>, day: int): (best: Option<Revision>)
    ensures best == None <==> forall r :: r in revisions ==> day < r.effective
    ensures best.Some? ==> Governs(revisions, day, best.value)
  {
    if revisions == [] then None else
    var front, last := revisions[..|revisions| - 1], revisions[|revisions| - 1];
    assert revisions == front + [last];
    assert forall r :: r in revisions <==> r in front || r == last;
    var best := Governing(front, day);
    if day < last.effective then best
    else if best == None || best.value.version < last.version then Some(last)
    else best
  }

  method SelectRevision(revisions: seq<Revision>, day: int) returns (best: Option<Revision>)
    ensures best == Governing(revisions, day)
  {
    best := None;
    for k := 0 to |revisions|
      invariant best == Governing(revisions[..k], day)
    {
      var rev := revisions[k];
      assert revisions[..k + 1][..k] == revisions[..k];
      if day < rev.effective { continue; }
      if best == None || best.value.version < rev.version { best := Some(rev); }
    }
    assert revisions[..|revisions|] == revisions;
  }

  lemma GoverningIsUnique(revisions: seq<Revision>, day: int, r: Revision)
    requires OneSchedule(revisions) && Governs(revisions, day, r)
    ensures Governing(revisions, day) == Some(r)
  {
  }

  // ------------------------------------------------------- the occurrence window

  /** The occurrence a schedule has on one day, if any. */
  function OccurrenceOn(revisions: seq<Revision>, d: int): Option<Occurrence> {
    match Governing(revisions, d)
    case Some(g) => if Occurs(g, d) then Some(Occurrence(g.scheduleId, g.version, d)) else None
    case None => None
  }

  /** Day by day: the occurrences of every day of [from, to]. */
  function Window(revisions: seq<Revision>, from: int, to: int): (r: seq<Occurrence>)
    ensures Ordered(r, (o: Occurrence) => o.date)
    ensures forall o :: o in r <==> from <= o.date <= to && OccurrenceOn(revisions, o.date) == Some(o)
    decreases 1 + to - from
  {
    if from > to then [] else
    var rest := Window(revisions, from + 1, to);
    assert forall j :: 0 <= j < |rest| ==> rest[j] in rest;
    match OccurrenceOn(revisions, from)
    case Some(o) => [o] + rest
    case None => rest
  }

  /** The dates of one revision that it also governs. */
  method GovernedOccurrences(revisions: seq<Revision>, rev: Revision, dates: seq<int>)
    returns (occurrences: seq<Occurrence>)
    requires OneSchedule(revisions) && rev in revisions
    requires Ascending(dates) && forall d :: d in dates ==> Occurs(rev, d)
    ensures Ordered(occurrences, (o: Occurrence) => o.date)
    ensures forall o :: o in occurrences <==>
      o.date in dates && OccurrenceOn(revisions, o.date) == Some(o) && o.version == rev.version
  {
    occurrences := [];
    for i := 0 to |dates|
      invariant Ordered(occurrences, (o: Occurrence) => o.date)
      invariant forall j :: 0 <= j < |occurrences| ==> occurrences[j].date in dates[..i]
      invariant forall o :: o in occurrences <==>
        o.date in dates[..i] && OccurrenceOn(revisions, o.date) == Some(o) && o.version == rev.version
    {
      var d := dates[i];
      assert d in dates;
      assert dates[..i + 1] == dates[..i] + [d];
      var governing := SelectRevision(revisions, d);
      if governing == None || governing.value.scheduleId != rev.scheduleId || governing.value.version != rev.version {
        continue;
      }
      SameVersionSameRevision(revisions, governing.value, rev);
      occurrences := occurrences + [Occurrence(rev.scheduleId, rev.version, d)];
    }
    assert dates[..|dates|] == dates;
  }

  lemma SameVersionSameRevision(revisions: seq<Revision>, a: Revision, b: Revision)
    requires OneSchedule(revisions) && a in revisions && b in revisions && a.version == b.version
    ensures a == b
  {
  }

  method OccurrenceWindow(revisions: seq<Revision>, from: int, to: int) returns (occurrences: seq<Occurrence>)
    requires OneSchedule(revisions)
    ensures occurrences == Window(revisions, from, to)
  {
    if from > to { return []; }
    occurrences := [];
    var byDate := (o: Occurrence) => o.date;
    ghost var done: set<int> := {};
    for k := 0 to |revisions|
      invariant forall j :: 0 <= j < |revisions| ==> (revisions[j].version in done <==> j < k)
      invariant DistinctBy(occurrences, byDate)
      invariant forall o :: o in occurrences <==>
        from <= o.date <= to && OccurrenceOn(revisions, o.date) == Some(o) && o.version in done
    {
      var rev := revisions[k];
      var dates := OccurrenceDates(rev, from, to);
      var added := GovernedOccurrences(revisions, rev, dates);
      forall o: Occurrence | from <= o.date <= to && OccurrenceOn(revisions, o.date) == Some(o)
        && o.version == rev.version
        ensures o in added
      {
        SameVersionSameRevision(revisions, Governing(revisions, o.date).value, rev);
      }
      DistinctTogether(occurrences, added);
      occurrences := occurrences + added;
      done := done + {rev.version};
    }
    var spec := Window(revisions, from, to);
    forall o | o in spec ensures o in occurrences {
      var g := Governing(revisions, o.date).value;
      var j :| 0 <= j < |revisions| && revisions[j] == g;
      assert revisions[j].version in done;
    }
    occurrences := SortBy(occurrences, byDate);
    forall i | 0 <= i < |occurrences| ensures occurrences[i] in spec { assert occurrences[i] in occurrences; }
    OrderedListsAgree(occurrences, spec, byDate);
  }

  lemma DistinctTogether(a: seq<Occurrence>, b: seq<Occurrence>)
    requires DistinctBy(a, (o: Occurrence) => o.date) && Ordered(b, (o: Occurrence) => o.date)
    requires forall x, y :: x in a && y in b ==> x.date != y.date
    ensures DistinctBy(a + b, (o: Occurrence) => o.date)
  {
  }

  /** A window splits at any interior day. */
  lemma WindowSplits(revisions: seq<Revision>, from: int, mid: int, to: int)
    requires from <= mid + 1 && mid <= to
    ensures Window(revisions, from, to) == Window(revisions, from, mid) + Window(revisions, mid + 1, to)
  {
    var whole, left, right := Window(revisions, from, to), Window(revisions, from, mid), Window(revisions, mid + 1, to);
    forall i | 0 <= i < |whole| ensures whole[i] in left + right { assert whole[i] in whole; }
    forall i | 0 <= i < |left + right| ensures (left + right)[i] in whole {
      assert (left + right)[i] in left || (left + right)[i] in right;
    }
    assert forall i :: 0 <= i < |left| ==> left[i] in left;
    assert forall i :: 0 <= i < |right| ==> right[i] in right;
    OrderedListsAgree(whole, left + right, (o: Occurrence) => o.date);
  }

  /** A window depends only on what each of its days generates. */
  lemma WindowsAgree(a: seq<Revision>, b: seq<Revision>, from: int, to: int)
    requires forall d :: from <= d <= to ==> OccurrenceOn(a, d) == OccurrenceOn(b, d)
    ensures Window(a, from, to) == Window(b, from, to)
  {
    var x, y := Window(a, from, to), Window(b, from, to);
    forall i | 0 <= i < |x| ensures x[i] in y { assert x[i] in x; }
    forall i | 0 <= i < |y| ensures y[i] in x { assert y[i] in y; }
    OrderedListsAgree(x, y, (o: Occurrence) => o.date);
  }

  /** The order in which revisions are listed does not matter. */
  lemma WindowIgnoresOrder(a: seq<Revision>, b: seq<Revision>, from: int, to: int)
    requires OneSchedule(a) && OneSchedule(b)
    requires multiset(a) == multiset(b)
    ensures Window(a, from, to) == Window(b, from, to)
  {
    assert forall r :: r in a <==> r in multiset(a);
    assert forall r :: r in b <==> r in multiset(b);
    forall d | from <= d <= to ensures OccurrenceOn(a, d) == OccurrenceOn(b, d) {
      var g := Governing(a, d);
      if g.Some? {
        assert Governs(b, d, g.value);
        GoverningIsUnique(b, d, g.value);
      }
    }
    WindowsAgree(a, b, from, to);
  }

  /** The point test used for one occurrence agrees with the window generator. */
  lemma WindowAtPoint(revisions: seq<Revision>, d: int, from: int, to: int)
    requires from <= d <= to
    ensures OccurrenceOn(revisions, d).Some? <==> exists o :: o in Window(revisions, from, to) && o.date == d
    ensures OccurrenceOn(revisions, d).Some? <==> Window(revisions, d, d) != []
  {
  }

  // ------------------------------------------------------- appending a revision

  function Stamp(r: Revision, dates: seq<int>): (s: seq<Occurrence>)
    ensures |s| == |dates|
    ensures forall i :: 0 <= i < |s| ==> s[i] == Occurrence(r.scheduleId, r.version, dates[i])
  {
    seq(|dates|, i requires 0 <= i < |dates| => Occurrence(r.scheduleId, r.version, dates[i]))
  }

  lemma AppendedGoverning(revisions: seq<Revision>, next: Revision, d: int)
    requires forall r :: r in revisions ==> r.version < next.version
    ensures Governing(revisions + [next], d) == if d < next.effective then Governing(revisions, d) else Some(next)
  {
  }

  /** A series change rewrites nothing before its effective date ... */
  lemma AppendKeepsThePast(revisions: seq<Revision>, next: Revision, from: int, to: int)
    requires forall r :: r in revisions ==> r.version < next.version
    requires to < next.effective
    ensures Window(revisions + [next], from, to) == Window(revisions, from, to)
  {
    forall d | from <= d <= to ensures OccurrenceOn(revisions + [next], d) == OccurrenceOn(revisions, d) {
      AppendedGoverning(revisions, next, d);
    }
    WindowsAgree(revisions + [next], revisions, from, to);
  }

  /** ... and from then on the schedule is exactly the new revision. */
  lemma AppendOwnsTheFuture(revisions: seq<Revision>, next: Revision, from: int, to: int)
    requires forall r :: r in revisions ==> r.version < next.version
    requires next.effective <= from
    ensures Window(revisions + [next], from, to) == Stamp(next, OccurrenceDays(next, from, to))
  {
    var x, days := Window(revisions + [next], from, to), OccurrenceDays(next, from, to);
    var y := Stamp(next, days);
    forall i | 0 <= i < |x| ensures x[i] in y {
      assert x[i] in x;
      AppendedGoverning(revisions, next, x[i].date);
      assert x[i].date in days;
      var k :| 0 <= k < |days| && days[k] == x[i].date;
      assert y[k] == x[i];
    }
    forall i | 0 <= i < |y| ensures y[i] in x {
      assert days[i] in days;
      AppendedGoverning(revisions, next, days[i]);
    }
    OrderedListsAgree(x, y, (o: Occurrence) => o.date);
  }
}
