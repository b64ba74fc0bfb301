/**
  The personal month. The calendar builds it in passes over two mutable maps:
  generate, apply exceptions, drop stopped dates. The start command resolves one
  occurrence directly. The theorem of this module is that the two agree.
 */
module Calendar {
  import opened Wrappers
  import opened Days
  import opened Recurrence
  import opened Timezone

  datatype Record = Record(
    rev: Revision,
    title: string,
    startClock: Clock,
    endClock: Clock,
    duration: int,
    zone: nat)

  datatype Schedule = Schedule(id: string, circle: string, stoppedFrom: Option<int>, records: seq<Record>)

  datatype Exception = Exception(
    scheduleId: string,
    original: int,
    moved: Option<int>,
    startClock: Option<Clock>,
    endClock: Option<Clock>,
    duration: Option<int>,
    title: Option<string>,
    cancelled: bool)

  datatype SessionStatus = Planned | Live | Ended

  datatype OneOff = OneOff(
    sessionId: string,
    circle: string,
    title: string,
    status: SessionStatus,
    startsAt: int,
    endsAt: int,
    cancelled: bool)

  datatype State = Scheduled | Active | Completed | Cancelled

  datatype Key = SessionKey(id: string) | OccurrenceKey(scheduleId: string, date: int) | PreviewKey(date: int)

  datatype Item = Item(key: Key, circle: string, title: string, startsAt: int, endsAt: int, state: State)

  /** What one viewer may see: the rows of the viewer's circles. */
  datatype World = World(
    zones: nat -> Zone,
    schedules: seq<Schedule>,
    exceptions: seq<Exception>,
    oneOffs: seq<OneOff>)

  // -------------------------------------------------- what the tables guarantee

  ghost predicate ValidSchedule(s: Schedule) {
    && OneSchedule(Values(s.records))
    && forall i :: 0 <= i < |s.records| ==>
         && s.records[i].rev.scheduleId == s.id
         && ValidClock(s.records[i].startClock) && ValidDuration(s.records[i].duration)
  }

  /** Replacement start, end and duration are all set or all absent. */
  ghost predicate ValidException(e: Exception) {
    && e.startClock.Some? == e.endClock.Some? == e.duration.Some?
    && (e.startClock.Some? ==> ValidClock(e.startClock.value) && ValidDuration(e.duration.value))
  }

  ghost predicate Valid(w: World) {
    && (forall z :: Bounded(w.zones(z)))
    && (forall i :: 0 <= i < |w.schedules| ==> ValidSchedule(w.schedules[i]))
    && (forall i, j :: 0 <= i < j < |w.schedules| ==> w.schedules[i].id != w.schedules[j].id)
    && (forall i :: 0 <= i < |w.exceptions| ==> ValidException(w.exceptions[i]))
    && (forall i, j :: 0 <= i < j < |w.exceptions| ==> RowKey(w.exceptions[i]) != RowKey(w.exceptions[j]))
    && (forall i, j :: 0 <= i < j < |w.oneOffs| ==> w.oneOffs[i].sessionId != w.oneOffs[j].sessionId)
  }

  function RowKey(e: Exception): Key { OccurrenceKey(e.scheduleId, e.original) }

  function Values(records: seq<Record>): (revisions: seq<Revision>)
    ensures |revisions| == |records|
    ensures forall i :: 0 <= i < |records| ==> revisions[i] == records[i].rev
  {
    seq(|records|, i requires 0 <= i < |records| => records[i].rev)
  }

  // ------------------------------------------------------------------- lookups

  function RevisionFor(records: seq<Record>, version: int): (r: Option<Record>)
    ensures r.Some? ==> r.value in records && r.value.rev.version == version
    ensures r == None ==> forall i :: 0 <= i < |records| ==> records[i].rev.version != version
  {
    if records == [] then None
    else if records[0].rev.version == version then Some(records[0])
    else RevisionFor(records[1..], version)
  }

  /** The one-day window of a revision is not empty. */
  predicate GeneratesOn(r: Revision, date: int): (b: bool)
    ensures b <==> Occurs(r, date)
  {
    var days := OccurrenceDays(r, date, date);
    assert Occurs(r, date) <==> date in days;
    assert |days| > 0 ==> days[0] in days;
    |days| != 0
  }

  /** The calendar's point test: the record that generates this original date. */
  function OccurrenceRecord(records: seq<Record>, date: int): Option<Record> {
    match Governing(Values(records), date)
    case None => None
    case Some(g) =>
      if !GeneratesOn(g, date) then None else RevisionFor(records, g.version)
  }

  /** The start command's own search for the governing record. */
  function GoverningRecord(records: seq<Record>, date: int): (best: Option<Record>)
    ensures best.Some? ==> best.value in records
  {
    if records == [] then None else
    var front, last := records[..|records| - 1], records[|records| - 1];
    var best := GoverningRecord(front, date);
    if last.rev.effective <= date && (best == None || best.value.rev.version < last.rev.version) then Some(last)
    else best
  }

  function FindSchedule(schedules: seq<Schedule>, id: string): (s: Option<Schedule>)
    ensures s.Some? ==> s.value in schedules && s.value.id == id
    ensures s == None ==> forall i :: 0 <= i < |schedules| ==> schedules[i].id != id
  {
    if schedules == [] then None
    else if schedules[0].id == id then Some(schedules[0])
    else FindSchedule(schedules[1..], id)
  }

  function FindException(exceptions: seq<Exception>, key: Key): (e: Option<Exception>)
    ensures e.Some? ==> e.value in exceptions && RowKey(e.value) == key
    ensures e == None ==> forall i :: 0 <= i < |exceptions| ==> RowKey(exceptions[i]) != key
  {
    if exceptions == [] then None
    else if RowKey(exceptions[0]) == key then Some(exceptions[0])
    else FindException(exceptions[1..], key)
  }

  function FindOneOff(oneOffs: seq<OneOff>, id: string): (o: Option<OneOff>)
    ensures o.Some? ==> o.value in oneOffs && o.value.sessionId == id
    ensures o == None ==> forall i :: 0 <= i < |oneOffs| ==> oneOffs[i].sessionId != id
  {
    if oneOffs == [] then None
    else if oneOffs[0].sessionId == id then Some(oneOffs[0])
    else FindOneOff(oneOffs[1..], id)
  }

  predicate DateIsStopped(date: int, boundary: Option<int>) {
    boundary.Some? && boundary.value <= date
  }

  predicate Meets(startsAt: int, endsAt: int, monthStart: int, monthEnd: int) {
    startsAt < monthEnd && endsAt > monthStart
  }

  // --------------------------------------------- resolving one occurrence to start

  datatype StartPlan = StartPlan(
    record: Record,
    effectiveDate: int,
    title: string,
    startClock: Clock,
    endClock: Clock,
    duration: int)

  datatype StartError = OccurrenceNotFound

  function ApplyStartException(plan: StartPlan, e: Exception): Result<StartPlan, StartError>
    requires ValidException(e)
  {
    if e.cancelled then Failure(OccurrenceNotFound) else
    var dated := if e.moved.Some? then plan.(effectiveDate := e.moved.value) else plan;
    var timed :=
      if e.startClock.Some? then
        dated.(startClock := e.startClock.value, endClock := e.endClock.value, duration := e.duration.value)
      else dated;
    Success(if e.title.Some? then timed.(title := e.title.value) else timed)
  }

  function ResolveStartPlan(s: Schedule, date: int, e: Option<Exception>): Result<StartPlan, StartError>
    requires e.Some? ==> ValidException(e.value)
  {
    match GoverningRecord(s.records, date)
    case None => Failure(OccurrenceNotFound)
    case Some(record) =>
      if !GeneratesOn(record.rev, date) then Failure(OccurrenceNotFound) else
      var plan := StartPlan(record, date, record.title, record.startClock, record.endClock, record.duration);
      match (if e.Some? then ApplyStartException(plan, e.value) else Success(plan))
      case Failure(error) => Failure(error)
      case Success(p) =>
        if DateIsStopped(p.effectiveDate, s.stoppedFrom) then Failure(OccurrenceNotFound) else Success(p)
  }

  function StartAt(w: World, p: StartPlan): int {
    ResolveStart(w.zones(p.record.zone), p.effectiveDate, p.startClock)
  }

  function EndAt(w: World, p: StartPlan): int {
    ResolveEnd(w.zones(p.record.zone), p.effectiveDate, p.startClock, p.duration)
  }

  // --------------------------------------- what a month must show, key by key

  function Reinstated(e: Option<Exception>): Option<Exception> {
    if e.Some? then Some(e.value.(cancelled := false)) else None
  }

  function CalendarState(status: SessionStatus, cancelled: bool): State {
    if cancelled then Cancelled else
    match status
    case Live => Active
    case Ended => Completed
    case Planned => Scheduled
  }

  /** The calendar takes a replacement title only from a row that also moves or retimes. */
  function CalendarTitle(record: Record, e: Option<Exception>): string {
    if e.Some? && e.value.title.Some? && (e.value.moved.Some? || e.value.startClock.Some?)
    then e.value.title.value else record.title
  }

  function VisibleOccurrence(w: World, s: Schedule, date: int): Option<Item>
    requires Valid(w)
  {
    var key := OccurrenceKey(s.id, date);
    var e := FindException(w.exceptions, key);
    match ResolveStartPlan(s, date, Reinstated(e))
    case Failure(_) => None
    case Success(p) =>
      Some(Item(key, s.circle, CalendarTitle(p.record, e), StartAt(w, p), EndAt(w, p),
                if e.Some? && e.value.cancelled then Cancelled else Scheduled))
  }

  function OneOffItem(o: OneOff): Item {
    Item(SessionKey(o.sessionId), o.circle, o.title, o.startsAt, o.endsAt, CalendarState(o.status, o.cancelled))
  }

  /** Everything the viewer can ever see under a key, whatever the month. */
  function VisibleItem(w: World, key: Key): (item: Option<Item>)
    requires Valid(w)
    ensures item.Some? ==> item.value.key == key
  {
    match key
    case SessionKey(id) =>
      var o := FindOneOff(w.oneOffs, id);
      if o.Some? then Some(OneOffItem(o.value)) else None
    case OccurrenceKey(id, date) =>
      var s := FindSchedule(w.schedules, id);
      if s.Some? then VisibleOccurrence(w, s.value, date) else None
    case PreviewKey(_) => None
  }

  function InMonth(w: World, key: Key, monthStart: int, monthEnd: int): Option<Item>
    requires Valid(w)
  {
    var item := VisibleItem(w, key);
    if item.Some? && Meets(item.value.startsAt, item.value.endsAt, monthStart, monthEnd) then item else None
  }

  // -------------------------------------------------- lemmas about the lookups

  lemma {:induction false} RevisionIsFound(records: seq<Record>, i: nat)
    requires OneSchedule(Values(records)) && i < |records|
    ensures RevisionFor(records, records[i].rev.version) == Some(records[i])
  {
  }

  /** The two searches for the governing record find the same one. */
  lemma GoverningRecordsAgree(records: seq<Record>, date: int)
    requires OneSchedule(Values(records))
    ensures match Governing(Values(records), date)
            case None => GoverningRecord(records, date) == None
            case Some(g) => GoverningRecord(records, date) == RevisionFor(records, g.version)
                            && GoverningRecord(records, date).Some? && GoverningRecord(records, date).value.rev == g
  {
    GoverningRecordGoverns(records, date);
    var g := Governing(Values(records), date);
    if g.Some? {
      var best := GoverningRecord(records, date).value;
      var i :| 0 <= i < |records| && records[i] == best;
      RevisionIsFound(records, i);
    }
  }

  lemma {:induction false} GoverningRecordGoverns(records: seq<Record>, date: int)
    ensures match GoverningRecord(records, date)
            case None => Governing(Values(records), date) == None
            case Some(r) => Governing(Values(records), date) == Some(r.rev)
  {
    if records != [] {
      var front := records[..|records| - 1];
      assert Values(records)[..|records| - 1] == Values(front);
      GoverningRecordGoverns(front, date);
    }
  }

  /** The point test agrees with the window generator. */
  lemma OccurrenceRecordInWindow(records: seq<Record>, date: int, from: int, to: int)
    requires OneSchedule(Values(records)) && from <= date <= to
    ensures match OccurrenceRecord(records, date)
            case None => forall o :: o in Window(Values(records), from, to) ==> o.date != date
            case Some(r) => Occurrence(r.rev.scheduleId, r.rev.version, date) in Window(Values(records), from, to)
  {
  }

  lemma ScheduleIsFound(w: World, i: nat)
    requires Valid(w) && i < |w.schedules|
    ensures FindSchedule(w.schedules, w.schedules[i].id) == Some(w.schedules[i])
  {
  }

  lemma ExceptionIsFound(w: World, i: nat)
    requires Valid(w) && i < |w.exceptions|
    ensures FindException(w.exceptions, RowKey(w.exceptions[i])) == Some(w.exceptions[i])
  {
  }

  lemma OneOffIsFound(w: World, i: nat)
    requires Valid(w) && i < |w.oneOffs|
    ensures FindOneOff(w.oneOffs, w.oneOffs[i].sessionId) == Some(w.oneOffs[i])
  {
  }

  // ---------------------------------------------------------- the window margin

  function FromDate(monthStart: int): int { CivilOf(monthStart - MAX_DURATION_MINUTES * 60) - 1 }

  function ToDate(monthEnd: int): int { CivilOf(monthEnd) + 1 }

  /** No zone and no duration puts a date outside the margin into the month. */
  lemma MarginSuffices(z: Zone, date: int, clock: Clock, minutes: int, monthStart: int, monthEnd: int)
    requires Bounded(z) && ValidClock(clock) && ValidDuration(minutes)
    requires Meets(ResolveStart(z, date, clock), ResolveEnd(z, date, clock, minutes), monthStart, monthEnd)
    ensures FromDate(monthStart) <= date <= ToDate(monthEnd)
  {
  }

  /** The margin cannot be narrowed: both of its outermost dates are reachable. */
  lemma MarginIsTight()
    ensures exists z, date, clock, minutes, monthStart, monthEnd ::
              && Bounded(z) && ValidClock(clock) && ValidDuration(minutes)
              && Meets(ResolveStart(z, date, clock), ResolveEnd(z, date, clock, minutes), monthStart, monthEnd)
              && date == FromDate(monthStart)
    ensures exists z, date, clock, minutes, monthStart, monthEnd ::
              && Bounded(z) && ValidClock(clock) && ValidDuration(minutes)
              && Meets(ResolveStart(z, date, clock), ResolveEnd(z, date, clock, minutes), monthStart, monthEnd)
              && date == ToDate(monthEnd)
  {
    var west: Zone := t => -43200;
    var late := Clock(23, 0);
    assert Bounded(west) && ValidClock(late) && ValidDuration(MAX_DURATION_MINUTES);
    assert Candidate(west, -1, late) == Some(Nominal(-1, late) + 43200);
    var monthStart := MAX_DURATION_MINUTES * 60;
    assert FromDate(monthStart) == -1;
    assert Meets(ResolveStart(west, -1, late), ResolveEnd(west, -1, late, MAX_DURATION_MINUTES),
                 monthStart, monthStart + 1);
    var east: Zone := t => 43200;
    var early := Clock(0, 0);
    assert Bounded(east) && ValidClock(early) && ValidDuration(1);
    assert Candidate(east, 1, early) == Some(Nominal(1, early) - 43200);
    assert ToDate(80000) == 1;
    assert Meets(ResolveStart(east, 1, early), ResolveEnd(east, 1, early, 1), 0, 80000);
  }
}
