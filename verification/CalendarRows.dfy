/** What a month shows, read off the rows it is built from: sessions, schedules, records and exceptions. */
module CalendarRows {
  import opened Wrappers
  import opened Days
  import opened Recurrence
  import opened Timezone
  import opened Calendar
  import opened CalendarMonth
  import opened Overlap
  import opened OverlapCheck

  // -------------------------------------------------------------------- sessions

  /** A session is shown when its interval meets the month, as its row says it is. */
  ghost predicate ShowsSession(items: map<Key, Item>, o: OneOff, monthStart: int, monthEnd: int) {
    var key := SessionKey(o.sessionId);
    && (key in items <==> o.startsAt < monthEnd && monthStart < o.endsAt)
    && (key in items ==>
          && items[key] == Item(key, o.circle, o.title, o.startsAt, o.endsAt, items[key].state)
          && (o.cancelled ==> items[key].state == Cancelled)
          && (!o.cancelled && o.status == Planned ==> items[key].state == Scheduled)
          && (!o.cancelled && o.status == Live ==> items[key].state == Active)
          && (!o.cancelled && o.status == Ended ==> items[key].state == Completed))
  }

  lemma MonthShowsSessions(w: World, items: map<Key, Item>, monthStart: int, monthEnd: int, i: nat)
    requires Valid(w) && i < |w.oneOffs| && ShowsAll(w, items, monthStart, monthEnd)
    ensures ShowsSession(items, w.oneOffs[i], monthStart, monthEnd)
  {
    OneOffIsFound(w, i);
    assert Holds(items, SessionKey(w.oneOffs[i].sessionId),
                 InMonth(w, SessionKey(w.oneOffs[i].sessionId), monthStart, monthEnd));
  }

  // ------------------------------------------------------------------ occurrences

  /** Of the records in force on a date the one of highest version. */
  ghost predicate Rules(records: seq<Record>, date: int, record: Record) {
    && record in records && record.rev.effective <= date
    && forall other :: other in records && other.rev.effective <= date ==> other.rev.version <= record.rev.version
  }

  /** The exception row of an occurrence, if it has one. */
  ghost predicate IsRowOf(exceptions: seq<Exception>, id: string, date: int, e: Option<Exception>) {
    match e
    case Some(row) => row in exceptions && row.scheduleId == id && row.original == date
    case None => forall row :: row in exceptions ==> !(row.scheduleId == id && row.original == date)
  }

  function DateOf(date: int, e: Option<Exception>): int {
    match e
    case Some(row) => if row.moved == None then date else row.moved.value
    case None => date
  }

  function ClockOf(record: Record, e: Option<Exception>): Clock {
    match e
    case Some(row) => if row.startClock == None then record.startClock else row.startClock.value
    case None => record.startClock
  }

  function MinutesOf(record: Record, e: Option<Exception>): int {
    match e
    case Some(row) => if row.duration == None then record.duration else row.duration.value
    case None => record.duration
  }

  /** The title a month shows: a row's own only where it also moves or retimes. */
  function TitleOf(record: Record, e: Option<Exception>): string {
    match e
    case Some(row) => if row.title == None || (row.moved == None && row.startClock == None) then record.title
      else row.title.value
    case None => record.title
  }

  /** The series still runs on a date: it was not stopped on or before it. */
  predicate Running(s: Schedule, date: int) { s.stoppedFrom == None || date < s.stoppedFrom.value }

  /** An occurrence of the ruling record is shown unless its series was stopped, where its row puts it. */
  ghost predicate ShowsOccurrence(w: World, items: map<Key, Item>, s: Schedule, record: Record, date: int,
                                  e: Option<Exception>, monthStart: int, monthEnd: int)
  {
    var key := OccurrenceKey(s.id, date);
    var start := ResolveStart(w.zones(record.zone), DateOf(date, e), ClockOf(record, e));
    var end := start + MinutesOf(record, e) * 60;
    && (key in items <==>
          Occurs(record.rev, date) && Running(s, DateOf(date, e)) && start < monthEnd && monthStart < end)
    && (key in items ==>
          && items[key] == Item(key, s.circle, items[key].title, start, end, items[key].state)
          && items[key].state == (if e.Some? && e.value.cancelled then Cancelled else Scheduled)
          && items[key].title == TitleOf(record, e))
  }

  lemma OccurrenceShown(w: World, i: nat, record: Record, date: int, e: Option<Exception>)
    requires Valid(w) && i < |w.schedules|
    requires Rules(w.schedules[i].records, date, record) && IsRowOf(w.exceptions, w.schedules[i].id, date, e)
    ensures var s := w.schedules[i];
      var item := VisibleItem(w, OccurrenceKey(s.id, date));
      var start := ResolveStart(w.zones(record.zone), DateOf(date, e), ClockOf(record, e));
      && (item.Some? <==> Occurs(record.rev, date) && Running(s, DateOf(date, e)))
      && (item.Some? ==>
            && item.value.key == OccurrenceKey(s.id, date) && item.value.circle == s.circle
            && item.value.startsAt == start && item.value.endsAt == start + MinutesOf(record, e) * 60
            && item.value.title == TitleOf(record, e)
            && item.value.state == if e.Some? && e.value.cancelled then Cancelled else Scheduled)
  {
    var s := w.schedules[i];
    ScheduleIsFound(w, i);
    RowIsFound(w, s.id, date, e);
    RulingIsFound(s, date, record);
    VisibleFields(w, s, OccurrenceKey(s.id, date), e);
    hide Valid, ValidSchedule, OccurrenceRecord, FindSchedule, FindException, VisibleItem, Rules, IsRowOf, Occurs;
  }

  lemma MonthShowsOccurrences(w: World, items: map<Key, Item>, monthStart: int, monthEnd: int,
                              i: nat, record: Record, date: int, e: Option<Exception>)
    requires Valid(w) && i < |w.schedules| && ShowsAll(w, items, monthStart, monthEnd)
    requires Rules(w.schedules[i].records, date, record) && IsRowOf(w.exceptions, w.schedules[i].id, date, e)
    ensures ShowsOccurrence(w, items, w.schedules[i], record, date, e, monthStart, monthEnd)
  {
    var key := OccurrenceKey(w.schedules[i].id, date);
    assert Holds(items, key, InMonth(w, key, monthStart, monthEnd));
    hide ShowsAll, Valid, Rules, IsRowOf, Occurs, VisibleItem, ResolveStart;
    OccurrenceShown(w, i, record, date, e);
  }

  ghost predicate RuledBy(w: World, s: Schedule, record: Record, id: string, date: int) {
    s in w.schedules && s.id == id && Rules(s.records, date, record)
  }

  /** Nothing else is shown: no key without a row, no date that no record rules. */
  lemma MonthShowsNothingElse(w: World, items: map<Key, Item>, monthStart: int, monthEnd: int, key: Key)
    requires Valid(w) && ShowsAll(w, items, monthStart, monthEnd) && key in items
    ensures match key
      case SessionKey(id) => exists o :: o in w.oneOffs && o.sessionId == id
      case OccurrenceKey(id, date) => exists s, record :: RuledBy(w, s, record, id, date)
      case PreviewKey(_) => false
  {
    assert Holds(items, key, InMonth(w, key, monthStart, monthEnd));
    if key.OccurrenceKey? {
      var s := FindSchedule(w.schedules, key.scheduleId).value;
      VisibleFields(w, s, key, FindException(w.exceptions, key));
      var record := GoverningRecord(s.records, key.date);
      GoverningRecordsAgree(s.records, key.date);
      GoverningRules(s.records, key.date);
      assert record.Some? && RuledBy(w, s, record.value, key.scheduleId, key.date);
    }
  }

  lemma {:induction false} GoverningRules(records: seq<Record>, date: int)
    ensures match GoverningRecord(records, date)
      case Some(record) => Rules(records, date, record)
      case None => forall record :: !Rules(records, date, record)
  {
    if records != [] {
      var front, last := records[..|records| - 1], records[|records| - 1];
      assert records == front + [last];
      GoverningRules(front, date);
      NoneInForce(front, date);
    }
  }

  lemma {:induction false} NoneInForce(records: seq<Record>, date: int)
    ensures GoverningRecord(records, date) == None <==> forall r :: r in records ==> date < r.rev.effective
  {
    if records != [] {
      var front, last := records[..|records| - 1], records[|records| - 1];
      assert records == front + [last];
      NoneInForce(front, date);
    }
  }

  lemma RowIsFound(w: World, id: string, date: int, e: Option<Exception>)
    requires Valid(w) && IsRowOf(w.exceptions, id, date, e)
    ensures FindException(w.exceptions, OccurrenceKey(id, date)) == e
  {
    if e.Some? {
      var i :| 0 <= i < |w.exceptions| && w.exceptions[i] == e.value;
      ExceptionIsFound(w, i);
    }
  }

  lemma RulingIsFound(s: Schedule, date: int, record: Record)
    requires ValidSchedule(s) && Rules(s.records, date, record)
    ensures GoverningRecord(s.records, date) == Some(record)
    ensures OccurrenceRecord(s.records, date) == if Occurs(record.rev, date) then Some(record) else None
  {
    GoverningRules(s.records, date);
    NoneInForce(s.records, date);
    GoverningRecordsAgree(s.records, date);
    var best := GoverningRecord(s.records, date).value;
    var i :| 0 <= i < |s.records| && s.records[i] == record;
    var j :| 0 <= j < |s.records| && s.records[j] == best;
    assert Values(s.records)[i] == record.rev && Values(s.records)[j] == best.rev;
  }

  // ------------------------------------------------------------------ the start command

  /**
    An occurrence can be started exactly when the ruling record generates it, its row does not cancel it
    and its series runs on the date it is held; the plan is the record's, with what the row replaces.
   */
  lemma StartVerdict(s: Schedule, date: int, record: Record, e: Option<Exception>)
    requires ValidSchedule(s) && Rules(s.records, date, record) && (e.Some? ==> ValidException(e.value))
    ensures var plan := ResolveStartPlan(s, date, e);
      && (plan.Success? <==>
            Occurs(record.rev, date) && !(e.Some? && e.value.cancelled) && Running(s, DateOf(date, e)))
      && (plan.Success? ==>
            && plan.value.record == record && plan.value.effectiveDate == DateOf(date, e)
            && plan.value.startClock == ClockOf(record, e) && plan.value.duration == MinutesOf(record, e)
            && plan.value.title == (if e.Some? && e.value.title.Some? then e.value.title.value else record.title)
            && plan.value.endClock == (if e.Some? && e.value.endClock.Some? then e.value.endClock.value
                                       else record.endClock))
  {
    RulingIsFound(s, date, record);
    var plan := StartPlan(record, date, record.title, record.startClock, record.endClock, record.duration);
    if e.Some? { RowApplies(plan, e.value); }
    hide ValidSchedule, Rules, GoverningRecord, OccurrenceRecord, Occurs, ApplyStartException, ValidException;
  }

  lemma RowApplies(plan: StartPlan, row: Exception)
    requires ValidException(row)
    ensures var next := ApplyStartException(plan, row);
      && (next.Success? <==> !row.cancelled)
      && (next.Success? ==>
            && next.value.record == plan.record
            && next.value.effectiveDate == (if row.moved == None then plan.effectiveDate else row.moved.value)
            && next.value.startClock == (if row.startClock == None then plan.startClock else row.startClock.value)
            && next.value.endClock == (if row.endClock == None then plan.endClock else row.endClock.value)
            && next.value.duration == (if row.duration == None then plan.duration else row.duration.value)
            && next.value.title == (if row.title == None then plan.title else row.title.value))
  {
  }

  /** A date that no record rules cannot be started. */
  lemma UnruledCannotStart(s: Schedule, date: int, e: Option<Exception>)
    requires (e.Some? ==> ValidException(e.value)) && forall record :: !Rules(s.records, date, record)
    ensures ResolveStartPlan(s, date, e) == Failure(OccurrenceNotFound)
  {
    GoverningRules(s.records, date);
  }

  // ---------------------------------------------------------- what a plan is compared with

  /** A session counts exactly while it is planned or live, not cancelled and not the excluded one. */
  lemma SessionCounts(w: World, dt: DateText, exclude: string, i: nat)
    requires Valid(w) && i < |w.oneOffs|
    ensures var o := w.oneOffs[i]; var key := SessionKey(o.sessionId);
      && (Commitment(w, dt, exclude, key) <==>
            !o.cancelled && (o.status == Planned || o.status == Live) && !ShouldExcludeOverlap(o.sessionId, exclude))
      && VisibleItem(w, key).Some?
      && CommitmentInterval(w, dt, key) == OverlapInterval(o.sessionId, o.circle, o.startsAt, o.endsAt)
  {
    OneOffIsFound(w, i);
  }

  /** An occurrence counts exactly when the start command would accept it and it is not excluded. */
  lemma OccurrenceCounts(w: World, dt: DateText, exclude: string, i: nat, record: Record, date: int,
                         e: Option<Exception>)
    requires Valid(w) && i < |w.schedules|
    requires Rules(w.schedules[i].records, date, record) && IsRowOf(w.exceptions, w.schedules[i].id, date, e)
    ensures var s := w.schedules[i]; var key := OccurrenceKey(s.id, date);
      && (Commitment(w, dt, exclude, key) <==>
            && Occurs(record.rev, date) && Running(s, DateOf(date, e)) && !(e.Some? && e.value.cancelled)
            && !ShouldExcludeOverlap(s.id + ":" + dt(date), exclude))
      && (VisibleItem(w, key).Some? ==>
            var start := ResolveStart(w.zones(record.zone), DateOf(date, e), ClockOf(record, e));
            CommitmentInterval(w, dt, key)
            == OverlapInterval(s.id + ":" + dt(date), s.circle, start, start + MinutesOf(record, e) * 60))
  {
    hide Valid, Rules, IsRowOf, Occurs, VisibleItem, ResolveStart, ShouldExcludeOverlap;
    OccurrenceShown(w, i, record, date, e);
  }
}
