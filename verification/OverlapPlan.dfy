/** A proposed plan from validation over its preview to acceptance. */
module OverlapPlan {
  import opened Wrappers
  import opened Recurrence
  import opened Timezone
  import opened Calendar
  import opened Overlap
  import opened OverlapCheck
  import opened ViewerMonths

  datatype PlanError =
    | InvalidCommand
    | BadPattern(cause: PatternError)
    | InvalidClock
    | InvalidDuration
    | EndClockMismatch
    | InvalidTimezone
    | PastPlannedTime

  const ABSENT_DATE: int := -719162 // 0001-01-01
  const MAX_TITLE := 200

  predicate Space(c: char) {
    var code := c as int;
    || 9 <= code <= 13 || code == 32 || code == 0x85 || code == 0xA0 || code == 0x1680
    || 0x2000 <= code <= 0x200A || code == 0x2028 || code == 0x2029 || code == 0x202F || code == 0x205F
    || code == 0x3000
  }

  /** A title is left out, or has no space at either end and at most 200 characters. */
  predicate TitleOk(title: string) {
    title == "" || (!Space(title[0]) && !Space(title[|title| - 1]) && |title| <= MAX_TITLE)
  }

  function TrimLeft(s: string): (r: string)
    ensures |r| <= |s| && (r == s <==> s == "" || !Space(s[0]))
    ensures r != "" ==> s != "" && r[|r| - 1] == s[|s| - 1]
  {
    if s != "" && Space(s[0]) then TrimLeft(s[1..]) else s
  }

  function TrimRight(s: string): (r: string)
    ensures |r| <= |s| && (r == s <==> s == "" || !Space(s[|s| - 1]))
  {
    if s != "" && Space(s[|s| - 1]) then TrimRight(s[..|s| - 1]) else s
  }

  /** A legal title is left out, or trimmed at both ends and no longer than 200 characters. */
  lemma LegalTitles(title: string)
    ensures TitleOk(title) <==> title == "" || (TrimLeft(title) == title == TrimRight(title) && |title| <= 200)
  {
  }

  method ValidateTitle(title: string) returns (ok: bool)
    requires title != ""
    ensures ok <==> TitleOk(title)
  {
    var trimmed := TrimRight(TrimLeft(title));
    ok := !(trimmed != title || title == "" || |title| > MAX_TITLE);
  }

  /** Start plus duration on a 24-hour clock. */
  function NominalEndClock(start: Clock, minutes: int): (end: Clock)
    ensures ValidClock(end)
    ensures exists days :: end.hour * 60 + end.minute + days * 24 * 60 == start.hour * 60 + start.minute + minutes
  {
    var total := (start.hour * 60 + start.minute + minutes) % 1440;
    var days := (start.hour * 60 + start.minute + minutes) / 1440;
    assert total + days * 24 * 60 == start.hour * 60 + start.minute + minutes;
    Clock(total / 60, total % 60)
  }

  ghost predicate ClocksOk(record: Record) {
    && ValidClock(record.startClock) && ValidClock(record.endClock) && ValidDuration(record.duration)
    && NominalEndClock(record.startClock, record.duration) == record.endClock
  }

  /** The start of the first affected date, and of every selected date still in force, is not past. */
  ghost predicate StillAhead(zone: Zone, record: Record, now: int) {
    && now <= ResolveStart(zone, MaxTime(record.rev.anchor, record.rev.effective), record.startClock)
    && forall d :: d in record.rev.selectedDates && record.rev.effective <= d ==>
         now <= ResolveStart(zone, d, record.startClock)
  }

  method ValidatePlannedClocks(record: Record) returns (e: Option<PlanError>)
    ensures e == None <==> ClocksOk(record)
    ensures e == Some(InvalidClock) <==> !ValidClock(record.startClock) || !ValidClock(record.endClock)
    ensures e == Some(InvalidDuration) <==>
      ValidClock(record.startClock) && ValidClock(record.endClock) && !ValidDuration(record.duration)
    ensures e == None || e == Some(InvalidClock) || e == Some(InvalidDuration) || e == Some(EndClockMismatch)
  {
    if !ValidClock(record.startClock) || !ValidClock(record.endClock) { return Some(InvalidClock); }
    if !ValidDuration(record.duration) { return Some(InvalidDuration); }
    if NominalEndClock(record.startClock, record.duration) != record.endClock { return Some(EndClockMismatch); }
    return None;
  }

  method SelectsPast(zone: Zone, record: Record, now: int) returns (past: bool)
    ensures past <==>
      exists d :: d in record.rev.selectedDates && record.rev.effective <= d
        && ResolveStart(zone, d, record.startClock) < now
  {
    var dates := record.rev.selectedDates;
    for i := 0 to |dates|
      invariant forall k :: 0 <= k < i && record.rev.effective <= dates[k] ==>
        now <= ResolveStart(zone, dates[k], record.startClock)
    {
      if dates[i] < record.rev.effective { continue; }
      var start := ResolveStartUTC(zone, dates[i], record.startClock);
      if start < now {
        assert dates[i] in dates;
        return true;
      }
    }
    return false;
  }

  ghost predicate DatesGiven(r: Revision) { r.anchor != ABSENT_DATE && r.effective != ABSENT_DATE }

  ghost predicate PatternFault(r: Revision, cause: PatternError) {
    match cause
    case InvalidRevision => !HeaderOk(r)
    case UnknownRecurrenceMode => HeaderOk(r) && r.mode == UnknownMode
    case InvalidWeekdayPattern => HeaderOk(r) && r.mode == WeekdayPattern && !WeekdaySelectorsOk(r)
    case InvalidInterval => HeaderOk(r) && r.mode == Interval && !IntervalSelectorsOk(r)
    case InvalidSelectedDates => HeaderOk(r) && r.mode == SelectedDates && !SelectedDatesOk(r)
  }

  /** The dates, the pattern, the clocks and the zone name are in order. */
  ghost predicate RecordOk(known: nat -> bool, record: Record) {
    DatesGiven(record.rev) && WellFormed(record.rev) && ClocksOk(record) && known(record.zone)
  }

  ghost predicate PlanOk(zones: nat -> Zone, known: nat -> bool, record: Record, now: int) {
    RecordOk(known, record) && TitleOk(record.title) && StillAhead(zones(record.zone), record, now)
  }

  /** What is wrong with a record: its pattern, else its clocks, else its zone name. */
  ghost predicate RecordFault(known: nat -> bool, record: Record, e: PlanError) {
    var r := record.rev;
    var clocks := ValidClock(record.startClock) && ValidClock(record.endClock);
    match e
    case BadPattern(cause) => PatternFault(r, cause)
    case InvalidClock => WellFormed(r) && !clocks
    case InvalidDuration => WellFormed(r) && clocks && !ValidDuration(record.duration)
    case EndClockMismatch =>
      && WellFormed(r) && clocks && ValidDuration(record.duration)
      && NominalEndClock(record.startClock, record.duration) != record.endClock
    case InvalidTimezone => WellFormed(r) && ClocksOk(record) && !known(record.zone)
    case InvalidCommand => false
    case PastPlannedTime => false
  }

  /** The later of anchor and effective date, and every selected date not before the effective one. */
  ghost predicate Planned(r: Revision, d: int) {
    || (r.anchor <= d && r.effective <= d && (d == r.anchor || d == r.effective))
    || (d in r.selectedDates && r.effective <= d)
  }

  lemma PastIsNotAhead(zone: Zone, record: Record, now: int)
    ensures StillAhead(zone, record, now) <==>
      forall d :: Planned(record.rev, d) ==> now <= ResolveStart(zone, d, record.startClock)
  {
    assert Planned(record.rev, MaxTime(record.rev.anchor, record.rev.effective));
  }

  /** What is wrong with a plan when it is refused with an error: the first rule it breaks. */
  ghost predicate PlanFault(zones: nat -> Zone, known: nat -> bool, record: Record, now: int, e: PlanError) {
    match e
    case InvalidCommand => !DatesGiven(record.rev) || (RecordOk(known, record) && !TitleOk(record.title))
    case PastPlannedTime =>
      && RecordOk(known, record) && TitleOk(record.title)
      && exists d :: Planned(record.rev, d) && ResolveStart(zones(record.zone), d, record.startClock) < now
    case _ => DatesGiven(record.rev) && RecordFault(known, record, e)
  }

  method ValidateRevisionRecord(known: nat -> bool, record: Record) returns (e: Option<PlanError>)
    requires DatesGiven(record.rev)
    ensures e == None <==> RecordOk(known, record)
    ensures forall f :: e == Some(f) <==> RecordFault(known, record, f)
  {
    var pattern := ValidatePattern(record.rev);
    if pattern.Some? { return Some(BadPattern(pattern.value)); }
    e := ValidatePlannedClocks(record);
    if e == None && !known(record.zone) { return Some(InvalidTimezone); }
  }

  /** Accepts exactly the plans in order, and names the first rule any other breaks. */
  method ValidateNewPlan(zones: nat -> Zone, known: nat -> bool, record: Record, now: int)
    returns (e: Option<PlanError>)
    ensures e == None <==> PlanOk(zones, known, record, now)
    ensures forall f :: e == Some(f) <==> PlanFault(zones, known, record, now, f)
  {
    PastIsNotAhead(zones(record.zone), record, now);
    if record.rev.anchor == ABSENT_DATE || record.rev.effective == ABSENT_DATE { return Some(InvalidCommand); }
    e := ValidateRevisionRecord(known, record);
    if e.Some? { return; }
    if record.title != "" {
      var ok := ValidateTitle(record.title);
      if !ok { return Some(InvalidCommand); }
    }
    var zone := zones(record.zone);
    var firstStart := ResolveStartUTC(zone, MaxTime(record.rev.anchor, record.rev.effective), record.startClock);
    if firstStart < now { return Some(PastPlannedTime); }
    var past := SelectsPast(zone, record, now);
    return if past then Some(PastPlannedTime) else None;
  }

  /** A version not given counts as the first, an effective date not given as the anchor. */
  function WithDefaults(record: Record): Record {
    var rev := record.rev;
    var numbered := if rev.version == 0 then rev.(version := 1) else rev;
    record.(rev := if rev.effective == ABSENT_DATE then numbered.(effective := rev.anchor) else numbered)
  }

  /** What is filled in: version one, and the anchor as the first day affected. */
  lemma DefaultsFill(record: Record)
    ensures var r, was := WithDefaults(record).rev, record.rev;
      && WithDefaults(record) == record.(rev := was.(version := r.version, effective := r.effective))
      && (was.version == 0 ==> r.version == 1) && (was.version != 0 ==> r.version == was.version)
      && (was.effective == FirstDay(12) ==> r.effective == was.anchor)
      && (was.effective != FirstDay(12) ==> r.effective == was.effective)
  {
    YearStarts(1);
  }

  lemma LastPreviewIsTheYear9999()
    ensures LAST_DATE + 1 == FirstDay(12 * 10_000)
  {
    YearStarts(10_000);
  }

  /** The interval previewed for date overlaps the viewer's commitment under key. */
  ghost predicate PlanConflict(w: World, dt: DateText, exclude: string, record: Record, circle: string, date: int,
                               key: Key)
    requires Valid(w)
  {
    && Commitment(w, dt, exclude, key)
    && var other := CommitmentInterval(w, dt, key);
    && var start := ResolveStart(w.zones(record.zone), date, record.startClock);
    && "preview:" + dt(date) != other.key
    && start < other.endsAt && other.startsAt < start + record.duration * 60
  }

  function ConflictId(w: World, dt: DateText, h: Digest, record: Record, circle: string, date: int, key: Key): int
    requires Valid(w) && VisibleItem(w, key).Some?
  {
    PairWarning(h, PreviewInterval(w.zones(record.zone), record, circle, dt, date), CommitmentInterval(w, dt, key)).id
  }

  /** Every conflict of every previewed date was reviewed and confirmed. */
  ghost predicate PlanReviewed(w: World, dt: DateText, h: Digest, record: Record, circle: string, exclude: string,
                               confirmed: bool, reviewedIds: seq<int>)
    requires Valid(w)
  {
    forall date, key :: Previewed(record.rev, date) && PlanConflict(w, dt, exclude, record, circle, date, key) ==>
      confirmed && ConflictId(w, dt, h, record, circle, date, key) in reviewedIds
  }

  /** No previewed date conflicts with anything the viewer can see, in any month. */
  ghost predicate PlanClear(w: World, dt: DateText, record: Record, circle: string, exclude: string)
    requires Valid(w)
  {
    forall date, key :: Previewed(record.rev, date) ==> !PlanConflict(w, dt, exclude, record, circle, date, key)
  }

  /** The viewer months fetched for the previewed dates show every instant of them. */
  ghost predicate PlanCovered(w: World, v: Viewer, record: Record)
    requires Dates(v)
  {
    var zone := w.zones(record.zone);
    forall date :: Previewed(record.rev, date) ==>
      Covers(v, ResolveStart(zone, date, record.startClock), ResolveEnd(zone, date, record.startClock, record.duration))
  }

  /** Where the midnights are shown, a plan is covered exactly when no previewed start precedes its month's edge. */
  lemma PlanCoveredExactly(w: World, v: Viewer, record: Record)
    requires Dates(v) && ValidDuration(record.duration) && forall m :: MidnightShown(v, m)
    ensures PlanCovered(w, v, record) <==>
      forall date :: Previewed(record.rev, date) ==>
        var start := ResolveStart(w.zones(record.zone), date, record.startClock);
        Edge(v, MonthOf(v, start)) <= start
  {
    var zone := w.zones(record.zone);
    forall date | Previewed(record.rev, date)
      ensures var start := ResolveStart(zone, date, record.startClock);
        Covers(v, start, ResolveEnd(zone, date, record.startClock, record.duration)) <==>
          Edge(v, MonthOf(v, start)) <= start
    {
      CoversExactly(v, ResolveStart(zone, date, record.startClock),
                    ResolveEnd(zone, date, record.startClock, record.duration));
    }
  }

  datatype PlanOutcome = Accepted | Refused(cause: PlanError) | ConfirmationNeeded(warnings: seq<Warning>)

  /**
    A proposed plan from validation to acceptance. A plan that breaks a rule is refused with the
    first rule it breaks. Any other is held back only for a conflict not reviewed; and where the
    fetched months show all of it, it is accepted without confirmation exactly when it is clear,
    and with one exactly when it is reviewed.
   */
  method CheckPlan(w: World, v: Viewer, known: nat -> bool, dt: DateText, h: Digest, plan: Record, circle: string,
                   now: int, exclude: string, confirmed: bool, reviewedIds: seq<int>)
    returns (outcome: PlanOutcome)
    requires Valid(w) && ProperSessions(w) && Dates(v) && Injective(h)
    ensures forall f :: outcome == Refused(f) <==> PlanFault(w.zones, known, WithDefaults(plan), now, f)
    ensures outcome.ConfirmationNeeded? ==>
      !PlanReviewed(w, dt, h, WithDefaults(plan), circle, exclude, confirmed, reviewedIds)
    ensures !outcome.Refused? && PlanCovered(w, v, WithDefaults(plan)) ==>
      (outcome == Accepted <==> PlanReviewed(w, dt, h, WithDefaults(plan), circle, exclude, confirmed, reviewedIds))
    ensures !outcome.Refused? && PlanCovered(w, v, WithDefaults(plan)) && !confirmed ==>
      (outcome == Accepted <==> PlanClear(w, dt, WithDefaults(plan), circle, exclude))
  {
    hide *;
    var record := WithDefaults(plan);
    var e := ValidateNewPlan(w.zones, known, record, now);
    if e.Some? { return Refused(e.value); }
    assert WellFormed(record.rev) && ValidDuration(record.duration) by { InOrderPlan(w.zones, known, record, now); }
    outcome := ReviewPlan(w, v, dt, h, record, circle, exclude, confirmed, reviewedIds);
  }

  lemma InOrderPlan(zones: nat -> Zone, known: nat -> bool, record: Record, now: int)
    requires PlanOk(zones, known, record, now)
    ensures WellFormed(record.rev) && ValidDuration(record.duration)
  {
  }

  /** A plan in order, from its preview to acceptance. */
  method ReviewPlan(w: World, v: Viewer, dt: DateText, h: Digest, record: Record, circle: string, exclude: string,
                    confirmed: bool, reviewedIds: seq<int>)
    returns (outcome: PlanOutcome)
    requires Valid(w) && ProperSessions(w) && Dates(v) && Injective(h)
    requires WellFormed(record.rev) && ValidDuration(record.duration)
    ensures !outcome.Refused?
    ensures outcome.ConfirmationNeeded? ==>
      !PlanReviewed(w, dt, h, record, circle, exclude, confirmed, reviewedIds)
    ensures PlanCovered(w, v, record) ==>
      (outcome == Accepted <==> PlanReviewed(w, dt, h, record, circle, exclude, confirmed, reviewedIds))
    ensures PlanCovered(w, v, record) && !confirmed ==>
      (outcome == Accepted <==> PlanClear(w, dt, record, circle, exclude))
  {
    hide *;
    var proposed := PreviewWindow(w.zones(record.zone), record, circle, dt);
    var accepted, current := Check(w, v, dt, h, proposed, exclude, confirmed, reviewedIds);
    ReviewDecides(w, v, dt, h, record, circle, exclude, confirmed, reviewedIds, proposed, accepted);
    outcome := if accepted then Accepted else ConfirmationNeeded(current);
  }

  lemma ReviewDecides(w: World, v: Viewer, dt: DateText, h: Digest, record: Record, circle: string, exclude: string,
                      confirmed: bool, reviewedIds: seq<int>, proposed: seq<OverlapInterval>, accepted: bool)
    requires Valid(w) && Dates(v)
    requires |proposed| == |PreviewDays(record.rev)|
    requires forall i :: 0 <= i < |proposed| ==>
      proposed[i] == PreviewInterval(w.zones(record.zone), record, circle, dt, PreviewDays(record.rev)[i])
    requires accepted <==>
      forall p, key, x :: p in proposed && FetchedWarning(w, v, dt, h, exclude, proposed, p, key, x) ==>
        confirmed && x.id in reviewedIds
    requires AllCovered(v, proposed) ==>
      (accepted <==>
       forall p, key, x :: p in proposed && WarnsAbout(w, dt, h, exclude, p, key, x) ==>
         confirmed && x.id in reviewedIds)
    ensures !accepted ==> !PlanReviewed(w, dt, h, record, circle, exclude, confirmed, reviewedIds)
    ensures PlanCovered(w, v, record) ==>
      (accepted <==> PlanReviewed(w, dt, h, record, circle, exclude, confirmed, reviewedIds))
    ensures PlanCovered(w, v, record) && !confirmed ==> (accepted <==> PlanClear(w, dt, record, circle, exclude))
  {
    assert Previews(w, dt, record, circle, proposed);
    hide *;
    PreviewCovered(w, v, dt, record, circle, proposed);
    if accepted {
      if PlanCovered(w, v, record) {
        AcceptedIsReviewed(w, dt, h, record, circle, exclude, confirmed, reviewedIds, proposed);
      }
    } else {
      HeldIsUnreviewed(w, v, dt, h, record, circle, exclude, confirmed, reviewedIds, proposed);
    }
    ClearNeedsNoReview(w, dt, h, record, circle, exclude, confirmed, reviewedIds);
  }

  lemma ClearNeedsNoReview(w: World, dt: DateText, h: Digest, record: Record, circle: string, exclude: string,
                           confirmed: bool, reviewedIds: seq<int>)
    requires Valid(w)
    ensures !confirmed ==> (PlanReviewed(w, dt, h, record, circle, exclude, confirmed, reviewedIds)
                            <==> PlanClear(w, dt, record, circle, exclude))
  {
  }

  lemma HeldIsUnreviewed(w: World, v: Viewer, dt: DateText, h: Digest, record: Record, circle: string, exclude: string,
                         confirmed: bool, reviewedIds: seq<int>, proposed: seq<OverlapInterval>)
    requires Valid(w) && Dates(v) && Previews(w, dt, record, circle, proposed)
    requires exists p, key, x :: p in proposed && FetchedWarning(w, v, dt, h, exclude, proposed, p, key, x)
                                 && !(confirmed && x.id in reviewedIds)
    ensures !PlanReviewed(w, dt, h, record, circle, exclude, confirmed, reviewedIds)
  {
    var p, key, x :| p in proposed && FetchedWarning(w, v, dt, h, exclude, proposed, p, key, x)
                     && !(confirmed && x.id in reviewedIds);
    var i :| 0 <= i < |proposed| && proposed[i] == p;
    var date := PreviewDays(record.rev)[i];
    assert date in PreviewDays(record.rev);
    PreviewDaysAre(record.rev, date);
    PlanConflictIs(w, dt, exclude, record, circle, date, key);
    hide Valid, Previewed, PlanConflict, PreviewInterval, PreviewDays, Conflict, Commitment;
  }

  ghost predicate Previews(w: World, dt: DateText, record: Record, circle: string, proposed: seq<OverlapInterval>) {
    && |proposed| == |PreviewDays(record.rev)|
    && forall i :: 0 <= i < |proposed| ==>
         proposed[i] == PreviewInterval(w.zones(record.zone), record, circle, dt, PreviewDays(record.rev)[i])
  }

  lemma PreviewCovered(w: World, v: Viewer, dt: DateText, record: Record, circle: string,
                       proposed: seq<OverlapInterval>)
    requires Dates(v) && Previews(w, dt, record, circle, proposed)
    ensures AllCovered(v, proposed) <==> PlanCovered(w, v, record)
  {
    var dates := PreviewDays(record.rev);
    if AllCovered(v, proposed) {
      forall date | Previewed(record.rev, date)
        ensures Covers(v, ResolveStart(w.zones(record.zone), date, record.startClock),
                       ResolveEnd(w.zones(record.zone), date, record.startClock, record.duration))
      {
        PreviewDaysAre(record.rev, date);
        var i :| 0 <= i < |dates| && dates[i] == date;
        assert proposed[i] in proposed;
      }
    }
    if PlanCovered(w, v, record) {
      forall p | p in proposed ensures Covers(v, p.startsAt, p.endsAt) {
        var i :| 0 <= i < |proposed| && proposed[i] == p;
        assert dates[i] in dates;
        PreviewDaysAre(record.rev, dates[i]);
      }
    }
  }

  lemma AcceptedIsReviewed(w: World, dt: DateText, h: Digest, record: Record, circle: string, exclude: string,
                           confirmed: bool, reviewedIds: seq<int>, proposed: seq<OverlapInterval>)
    requires Valid(w) && Previews(w, dt, record, circle, proposed)
    requires forall p, key, x :: p in proposed && WarnsAbout(w, dt, h, exclude, p, key, x) ==>
      confirmed && x.id in reviewedIds
    ensures PlanReviewed(w, dt, h, record, circle, exclude, confirmed, reviewedIds)
  {
    forall date, key | Previewed(record.rev, date) && PlanConflict(w, dt, exclude, record, circle, date, key)
      ensures confirmed && ConflictId(w, dt, h, record, circle, date, key) in reviewedIds
    {
      PreviewDaysAre(record.rev, date);
      PlanConflictIs(w, dt, exclude, record, circle, date, key);
      var i :| 0 <= i < |PreviewDays(record.rev)| && PreviewDays(record.rev)[i] == date;
      assert proposed[i] in proposed;
      assert WarnsAbout(w, dt, h, exclude, proposed[i], key,
                        PairWarning(h, proposed[i], CommitmentInterval(w, dt, key)));
    }
  }

  lemma PlanConflictIs(w: World, dt: DateText, exclude: string, record: Record, circle: string, date: int, key: Key)
    requires Valid(w)
    ensures PlanConflict(w, dt, exclude, record, circle, date, key) <==>
      Commitment(w, dt, exclude, key)
      && Conflict(PreviewInterval(w.zones(record.zone), record, circle, dt, date), CommitmentInterval(w, dt, key))
  {
  }
}
