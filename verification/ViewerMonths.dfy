/**
  The months in which a viewer's calendar is fetched. A month is a number (year times twelve
  plus the month, from January as 0); its edge is whatever instant the date library returns for
  midnight of its first day in the viewer's zone.
 */
module ViewerMonths {
  import opened Timezone

  // ---------------------------------------------------------------- civil months

  const EPOCH_MONTH: int := 23640 // January 1970

  predicate Leap(year: int) { year % 4 == 0 && (year % 100 != 0 || year % 400 == 0) }

  function MonthLength(m: int): (n: int)
    ensures 28 <= n <= 31
  {
    var month := m % 12;
    if month == 1 then if Leap(m / 12) then 29 else 28
    else if month == 3 || month == 5 || month == 8 || month == 10 then 30
    else 31
  }

  function FirstDay(m: int): int
    decreases if m < EPOCH_MONTH then EPOCH_MONTH - m else m - EPOCH_MONTH
  {
    if m == EPOCH_MONTH then 0
    else if m < EPOCH_MONTH then FirstDay(m + 1) - MonthLength(m)
    else FirstDay(m - 1) + MonthLength(m - 1)
  }

  lemma MonthsFollow(m: int)
    ensures FirstDay(m + 1) == FirstDay(m) + MonthLength(m)
  {
  }

  lemma {:induction false} MonthsIncrease(m: int, n: int)
    requires m < n
    ensures FirstDay(m) + 28 <= FirstDay(n)
    decreases n - m
  {
    MonthsFollow(n - 1);
    if m < n - 1 { MonthsIncrease(m, n - 1); }
  }

  /** Leap days in the years before one. */
  function LeapDaysBefore(year: int): int {
    (year - 1) / 4 - (year - 1) / 100 + (year - 1) / 400
  }

  /** Every year has 365 days and every fourth one more, but for the centuries not divisible by 400. */
  lemma {:induction false} YearStarts(year: int)
    ensures FirstDay(12 * year) == 365 * (year - 1970) + LeapDaysBefore(year) - 477
    decreases if year < 1970 then 1970 - year else year - 1970
  {
    if year < 1970 {
      YearStarts(year + 1);
      YearLength(year);
    } else if year > 1970 {
      YearStarts(year - 1);
      YearLength(year - 1);
    }
  }

  const LENGTHS := [31, 28, 31, 30, 31, 30, 31, 31, 30, 31, 30, 31]

  lemma MonthLengths(year: int, k: nat)
    requires k < 12
    ensures MonthLength(12 * year + k) ==
      LENGTHS[k] + if k == 1 then LeapDaysBefore(year + 1) - LeapDaysBefore(year) else 0
    ensures FirstDay(12 * year + k + 1) == FirstDay(12 * year + k) + MonthLength(12 * year + k)
  {
    LeapCount(year);
    MonthsFollow(12 * year + k);
    assert (12 * year + k) % 12 == k && (12 * year + k) / 12 == year;
    hide LeapDaysBefore, Leap, FirstDay;
  }

  lemma YearLength(year: int)
    ensures FirstDay(12 * (year + 1)) == FirstDay(12 * year) + 365 + LeapDaysBefore(year + 1) - LeapDaysBefore(year)
  {
    hide MonthLength, FirstDay, LeapDaysBefore, Leap;
    MonthLengths(year, 0);
    MonthLengths(year, 1);
    MonthLengths(year, 2);
    MonthLengths(year, 3);
    MonthLengths(year, 4);
    MonthLengths(year, 5);
    MonthLengths(year, 6);
    MonthLengths(year, 7);
    MonthLengths(year, 8);
    MonthLengths(year, 9);
    MonthLengths(year, 10);
    MonthLengths(year, 11);
    assert 12 * (year + 1) == 12 * year + 11 + 1;
  }

  lemma LeapCount(year: int)
    ensures LeapDaysBefore(year + 1) == LeapDaysBefore(year) + if Leap(year) then 1 else 0
  {
    FourthYears(year);
    HundredthYears(year);
    FourHundredthYears(year);
  }

  lemma FourthYears(year: int)
    ensures year / 4 == (year - 1) / 4 + if year % 4 == 0 then 1 else 0
  {
  }

  lemma HundredthYears(year: int)
    ensures year / 100 == (year - 1) / 100 + if year % 100 == 0 then 1 else 0
    ensures year % 100 == 0 ==> year % 4 == 0
  {
  }

  lemma FourHundredthYears(year: int)
    ensures year / 400 == (year - 1) / 400 + if year % 400 == 0 then 1 else 0
    ensures year % 400 == 0 ==> year % 100 == 0
  {
  }

  /** The month of a day, found from one that starts on or before it, or after it. */
  function MonthAfter(day: int, m: int): (month: int)
    requires FirstDay(m) <= day
    ensures FirstDay(month) <= day < FirstDay(month + 1)
    decreases day - FirstDay(m)
  {
    MonthsFollow(m);
    if day < FirstDay(m + 1) then m else MonthAfter(day, m + 1)
  }

  function MonthBefore(day: int, m: int): (month: int)
    requires day < FirstDay(m + 1)
    ensures FirstDay(month) <= day < FirstDay(month + 1)
    decreases FirstDay(m + 1) - day
  {
    MonthsFollow(m);
    if FirstDay(m) <= day then m else MonthBefore(day, m - 1)
  }

  function MonthOfDay(day: int): (month: int)
    ensures FirstDay(month) <= day < FirstDay(month + 1)
  {
    if FirstDay(EPOCH_MONTH) <= day then MonthAfter(day, EPOCH_MONTH) else MonthBefore(day, EPOCH_MONTH - 1)
  }

  lemma MonthIsUnique(day: int, m: int)
    requires FirstDay(m) <= day < FirstDay(m + 1)
    ensures MonthOfDay(day) == m
  {
    var n := MonthOfDay(day);
    if m < n {
      if m + 1 < n { MonthsIncrease(m + 1, n); }
    } else if n < m {
      if n + 1 < m { MonthsIncrease(n + 1, m); }
    }
  }

  // ------------------------------------------------------------------- the viewer

  /** The viewer's zone, and the library's instant for a local reading in it (seconds since day 0). */
  datatype Viewer = Viewer(zone: Zone, date: int -> int)

  function Local(v: Viewer, t: int): int { t + v.zone(t) }

  /** The library's promise: a reading some clock shows is shown at its instant; others are within a day. */
  ghost predicate Dates(v: Viewer) {
    && Bounded(v.zone)
    && (forall reading :: -DAY < v.date(reading) - reading < DAY)
    && (forall t :: Local(v, v.date(Local(v, t))) == Local(v, t))
  }

  function MonthOf(v: Viewer, t: int): int { MonthOfDay(Local(v, t) / DAY) }

  function Edge(v: Viewer, m: int): int { v.date(FirstDay(m) * DAY) }

  /** One month later on the same day and clock, overflowing days carried over. */
  function NextMonth(v: Viewer, t: int): (next: int)
    requires Dates(v)
    ensures t + 26 * DAY < next
  {
    var reading := Local(v, t);
    v.date(reading + MonthLength(MonthOfDay(reading / DAY)) * DAY)
  }

  /** What the calendar shows of month m: from its edge to one month later. */
  predicate MonthShows(v: Viewer, m: int, t: int)
    requires Dates(v)
  {
    Edge(v, m) <= t < NextMonth(v, Edge(v, m))
  }

  /** The months named while walking from t, one month at a time, up to last. */
  function MonthsWalked(v: Viewer, t: int, last: int): set<int>
    requires Dates(v)
    decreases last - t
  {
    if last < t then {} else {MonthOf(v, t)} + MonthsWalked(v, NextMonth(v, t), last)
  }

  /** The months fetched for an interval. */
  function Touched(v: Viewer, startsAt: int, endsAt: int): set<int>
    requires Dates(v)
  {
    MonthsWalked(v, Edge(v, MonthOf(v, startsAt)), endsAt - 1)
  }

  ghost predicate Shown(v: Viewer, months: set<int>, t: int)
    requires Dates(v)
  {
    exists m :: m in months && MonthShows(v, m, t)
  }

  /** Every instant of the interval lies in a month fetched for it. */
  ghost predicate Covers(v: Viewer, startsAt: int, endsAt: int)
    requires Dates(v)
  {
    forall t :: startsAt <= t < endsAt ==> Shown(v, Touched(v, startsAt, endsAt), t)
  }

  // ---------------------------------------------------- when the midnights are shown

  /** The first midnight of month m is a reading of the viewer's clock. */
  ghost predicate MidnightShown(v: Viewer, m: int) {
    Local(v, Edge(v, m)) == FirstDay(m) * DAY
  }

  lemma ShownWhenSomeClockShowsIt(v: Viewer, m: int)
    requires Dates(v)
    ensures MidnightShown(v, m) <==> exists t :: Local(v, t) == FirstDay(m) * DAY
  {
    if t :| Local(v, t) == FirstDay(m) * DAY { assert Local(v, v.date(Local(v, t))) == Local(v, t); }
  }

  lemma EdgeStartsItsMonth(v: Viewer, m: int)
    requires Dates(v) && MidnightShown(v, m)
    ensures MonthOf(v, Edge(v, m)) == m
    ensures NextMonth(v, Edge(v, m)) == Edge(v, m + 1)
  {
    MonthsFollow(m);
    assert FirstDay(m) * DAY / DAY == FirstDay(m);
    MonthIsUnique(FirstDay(m), m);
  }

  /** With all midnights shown the windows are a partition of time. */
  lemma WindowsTile(v: Viewer, t: int)
    requires Dates(v) && forall m :: MidnightShown(v, m)
    ensures exists m :: MonthShows(v, m, t)
    ensures forall m, n :: MonthShows(v, m, t) && MonthShows(v, n, t) ==> m == n
  {
    var m := MonthOf(v, t);
    EdgesBracket(v, t);
    EdgeStartsItsMonth(v, m - 1);
    EdgeStartsItsMonth(v, m);
    EdgeStartsItsMonth(v, m + 1);
    assert MonthShows(v, m - 1, t) || MonthShows(v, m, t) || MonthShows(v, m + 1, t);
    forall m, n | MonthShows(v, m, t) && MonthShows(v, n, t) ensures m == n {
      WindowsAreApart(v, m, n, t);
      WindowsAreApart(v, n, m, t);
    }
  }

  lemma WindowsAreApart(v: Viewer, m: int, n: int, t: int)
    requires Dates(v) && MidnightShown(v, m) && MonthShows(v, m, t) && MonthShows(v, n, t)
    ensures n <= m
  {
    EdgeStartsItsMonth(v, m);
    if m < n { EdgesIncrease(v, m + 1, n); }
  }

  lemma EdgesBracket(v: Viewer, t: int)
    requires Dates(v)
    ensures Edge(v, MonthOf(v, t) - 1) <= t < Edge(v, MonthOf(v, t) + 2)
  {
    var m := MonthOf(v, t);
    MonthsIncrease(m - 1, m);
    MonthsIncrease(m + 1, m + 2);
    assert -DAY < Edge(v, m - 1) - FirstDay(m - 1) * DAY < DAY;
    assert -DAY < Edge(v, m + 2) - FirstDay(m + 2) * DAY < DAY;
  }

  lemma EdgesIncrease(v: Viewer, m: int, n: int)
    requires Dates(v) && m <= n
    ensures Edge(v, m) <= Edge(v, n)
  {
    if m < n {
      MonthsIncrease(m, n);
      assert -DAY < Edge(v, m) - FirstDay(m) * DAY < DAY;
      assert -DAY < Edge(v, n) - FirstDay(n) * DAY < DAY;
    }
  }

  /** The walk over shown midnights names the months in order. */
  lemma {:induction false} WalkNamesMonths(v: Viewer, m: int, last: int)
    requires Dates(v) && forall k :: m <= k && Edge(v, k) <= last ==> MidnightShown(v, k)
    ensures forall k :: k in MonthsWalked(v, Edge(v, m), last) <==> m <= k && Edge(v, k) <= last
    decreases last - Edge(v, m)
  {
    if Edge(v, m) <= last {
      EdgeStartsItsMonth(v, m);
      WalkNamesMonths(v, m + 1, last);
    } else {
      forall k | m <= k ensures last < Edge(v, k) { EdgesIncrease(v, m, k); }
    }
  }

  /** Windows of shown months leave no instant out between their edges. */
  lemma {:induction false} WindowsJoin(v: Viewer, m: int, t: int) returns (n: int)
    requires Dates(v) && Edge(v, m) <= t
    requires forall k :: m <= k && Edge(v, k) <= t ==> MidnightShown(v, k)
    ensures m <= n && MonthShows(v, n, t)
    decreases t - Edge(v, m)
  {
    EdgeStartsItsMonth(v, m);
    if t < Edge(v, m + 1) { n := m; } else { n := WindowsJoin(v, m + 1, t); }
  }

  /** Where the midnights are shown, an interval is covered exactly when its own month starts by then. */
  lemma CoversExactly(v: Viewer, startsAt: int, endsAt: int)
    requires Dates(v) && startsAt < endsAt
    requires forall m :: MonthOf(v, startsAt) <= m && Edge(v, m) < endsAt ==> MidnightShown(v, m)
    ensures Covers(v, startsAt, endsAt) <==> Edge(v, MonthOf(v, startsAt)) <= startsAt
  {
    var first := MonthOf(v, startsAt);
    WalkNamesMonths(v, first, endsAt - 1);
    if Edge(v, first) <= startsAt {
      forall t | startsAt <= t < endsAt ensures Shown(v, Touched(v, startsAt, endsAt), t) {
        var m := WindowsJoin(v, first, t);
      }
    }
    if Covers(v, startsAt, endsAt) {
      assert Shown(v, Touched(v, startsAt, endsAt), startsAt);
      var m :| m in Touched(v, startsAt, endsAt) && MonthShows(v, m, startsAt);
      EdgesIncrease(v, first, m);
    }
  }

  /**
    Without a shown midnight the walk can slip into the month before: here the clock skips the first
    hour of a month, the library answers an hour early, and the month itself is never fetched.
   */
  lemma SkippedMidnightLosesTheMonth()
    ensures exists v, startsAt, endsAt :: Dates(v) && startsAt < endsAt
              && Edge(v, MonthOf(v, startsAt)) <= startsAt && !Covers(v, startsAt, endsAt)
  {
    var midnight := 31 * DAY;
    var zone: Zone := t => if t < midnight + 14400 then -14400 else -10800;
    var v := Viewer(zone, reading => if reading < midnight then reading + 14400 else reading + 10800);
    var startsAt := midnight + 9 * DAY;
    assert Dates(v);
    MonthIsUnique(39, EPOCH_MONTH + 1);
    MonthIsUnique(30, EPOCH_MONTH);
    MonthIsUnique(0, EPOCH_MONTH);
    assert FirstDay(EPOCH_MONTH + 1) == 31;
    assert MonthOf(v, startsAt) == EPOCH_MONTH + 1;
    var edge := Edge(v, EPOCH_MONTH + 1);
    assert MonthOf(v, edge) == EPOCH_MONTH;
    assert MonthsWalked(v, NextMonth(v, edge), startsAt) == {};
    assert Touched(v, startsAt, startsAt + 1) == {EPOCH_MONTH};
    assert !Shown(v, Touched(v, startsAt, startsAt + 1), startsAt);
    assert !Covers(v, startsAt, startsAt + 1);
  }
}
