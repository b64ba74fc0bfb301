/** The month build itself: three passes over items and stoppedCandidates. */
module CalendarMonth {
  import opened Wrappers
  import opened Days
  import opened Recurrence
  import opened Timezone
  import opened Calendar

  // ------------------------------------------------ what each pass has to leave

  function BaseItem(w: World, s: Schedule, record: Record, date: int): Item {
    Item(OccurrenceKey(s.id, date), s.circle, record.title,
         ResolveStart(w.zones(record.zone), date, record.startClock),
         ResolveEnd(w.zones(record.zone), date, record.startClock, record.duration), Scheduled)
  }

  /** What the generation pass puts under a date of one schedule. */
  function Generated(w: World, s: Schedule, date: int, monthStart: int, monthEnd: int): Option<Item> {
    match OccurrenceRecord(s.records, date)
    case None => None
    case Some(record) =>
      var item := BaseItem(w, s, record, date);
      if FromDate(monthStart) <= date <= ToDate(monthEnd) && Meets(item.startsAt, item.endsAt, monthStart, monthEnd)
      then Some(item) else None
  }

  ghost predicate Holds(items: map<Key, Item>, key: Key, item: Option<Item>) {
    if item.Some? then key in items && items[key] == item.value else key !in items
  }

  ghost predicate Of(key: Key, s: Schedule) {
    key.OccurrenceKey? && key.scheduleId == s.id
  }

  /** The rows the exception query returns. */
  predicate Fetched(e: Exception, from: int, to: int) {
    from <= e.original <= to || (e.moved.Some? && from <= e.moved.value <= to)
  }

  // ---------------------------------------------------------------- generation

  lemma OccurrenceHasItsRecord(s: Schedule, o: Occurrence)
    requires ValidSchedule(s) && OccurrenceOn(Values(s.records), o.date) == Some(o)
    ensures OccurrenceRecord(s.records, o.date).Some?
    ensures OccurrenceRecord(s.records, o.date) == RevisionFor(s.records, o.version)
    ensures o.scheduleId == s.id
  {
  }

  ghost predicate SameAt(key: Key, items0: map<Key, Item>, stopped0: set<Key>, items: map<Key, Item>,
                         stopped: set<Key>) {
    && (key in items <==> key in items0) && (key in items ==> items[key] == items0[key])
    && (key in stopped <==> key in stopped0)
  }

  /** Generated, and a stop candidate exactly when its own date is stopped. */
  ghost predicate Fresh(w: World, s: Schedule, key: Key, monthStart: int, monthEnd: int, items: map<Key, Item>,
                        stopped: set<Key>)
    requires key.OccurrenceKey?
  {
    && Holds(items, key, Generated(w, s, key.date, monthStart, monthEnd))
    && (key in stopped <==> key in items && DateIsStopped(key.date, s.stoppedFrom))
  }

  method GenerateOccurrence(w: World, s: Schedule, occurrence: Occurrence, monthStart: int, monthEnd: int,
                            items0: map<Key, Item>, stopped0: set<Key>)
    returns (items: map<Key, Item>, stopped: set<Key>)
    requires ValidSchedule(s)
    requires OccurrenceOn(Values(s.records), occurrence.date) == Some(occurrence)
    requires FromDate(monthStart) <= occurrence.date <= ToDate(monthEnd)
    requires OccurrenceKey(s.id, occurrence.date) !in items0 && OccurrenceKey(s.id, occurrence.date) !in stopped0
    ensures Fresh(w, s, OccurrenceKey(s.id, occurrence.date), monthStart, monthEnd, items, stopped)
    ensures forall key: Key :: key != OccurrenceKey(s.id, occurrence.date) ==>
      SameAt(key, items0, stopped0, items, stopped)
  {
    items, stopped := items0, stopped0;
    OccurrenceHasItsRecord(s, occurrence);
    var record := RevisionFor(s.records, occurrence.version);
    if record == None { return; }
    var zone := w.zones(record.value.zone);
    var start := ResolveStart(zone, occurrence.date, record.value.startClock);
    var end := ResolveEnd(zone, occurrence.date, record.value.startClock, record.value.duration);
    if start >= monthEnd || end <= monthStart { return; }
    var key := OccurrenceKey(occurrence.scheduleId, occurrence.date);
    items := items[key := Item(key, s.circle, record.value.title, start, end, Scheduled)];
    if DateIsStopped(occurrence.date, s.stoppedFrom) { stopped := stopped + {key}; }
  }

  method GenerateSchedule(w: World, s: Schedule, monthStart: int, monthEnd: int,
                          items0: map<Key, Item>, stopped0: set<Key>)
    returns (items: map<Key, Item>, stopped: set<Key>)
    requires ValidSchedule(s)
    requires forall key: Key :: Of(key, s) ==> key !in items0 && key !in stopped0
    ensures forall key: Key :: Of(key, s) ==> Fresh(w, s, key, monthStart, monthEnd, items, stopped)
    ensures forall key: Key :: !Of(key, s) ==> SameAt(key, items0, stopped0, items, stopped)
  {
    items, stopped := items0, stopped0;
    var from, to := FromDate(monthStart), ToDate(monthEnd);
    var occurrences := OccurrenceWindow(Values(s.records), from, to);
    ghost var done: set<int> := {};
    for i := 0 to |occurrences|
      invariant forall k :: 0 <= k < |occurrences| ==> (occurrences[k].date in done <==> k < i)
      invariant forall key: Key :: Of(key, s) && key.date in done ==>
        Fresh(w, s, key, monthStart, monthEnd, items, stopped)
      invariant forall key: Key :: !(Of(key, s) && key.date in done) ==> SameAt(key, items0, stopped0, items, stopped)
    {
      var o := occurrences[i];
      assert o in occurrences;
      assert forall k :: 0 <= k < |occurrences| && k != i ==> occurrences[k].date != o.date;
      assert SameAt(OccurrenceKey(s.id, o.date), items0, stopped0, items, stopped);
      ghost var items1, stopped1 := items, stopped;
      items, stopped := GenerateOccurrence(w, s, o, monthStart, monthEnd, items, stopped);
      forall key: Key | Of(key, s) && key.date in done + {o.date}
        ensures Fresh(w, s, key, monthStart, monthEnd, items, stopped)
      {
        if key != OccurrenceKey(s.id, o.date) { assert SameAt(key, items1, stopped1, items, stopped); }
      }
      forall key: Key | !(Of(key, s) && key.date in done + {o.date})
        ensures SameAt(key, items0, stopped0, items, stopped)
      {
        assert SameAt(key, items1, stopped1, items, stopped);
      }
      done := done + {o.date};
    }
    forall key: Key | Of(key, s)
      ensures Fresh(w, s, key, monthStart, monthEnd, items, stopped)
    {
      if key.date !in done {
        assert SameAt(key, items0, stopped0, items, stopped);
        assert forall o :: o in occurrences ==> o.date != key.date;
        if from <= key.date <= to { OccurrenceRecordInWindow(s.records, key.date, from, to); }
      }
    }
  }

  // ------------------------------- the start resolver, one field at a time

  function EffectiveDate(date: int, e: Option<Exception>): int {
    if e.Some? && e.value.moved.Some? then e.value.moved.value else date
  }

  function EffectiveClock(record: Record, e: Option<Exception>): Clock {
    if e.Some? && e.value.startClock.Some? then e.value.startClock.value else record.startClock
  }

  function EffectiveDuration(record: Record, e: Option<Exception>): int {
    if e.Some? && e.value.duration.Some? then e.value.duration.value else record.duration
  }

  lemma PlanFields(s: Schedule, date: int, e: Option<Exception>)
    requires ValidSchedule(s) && (e.Some? ==> ValidException(e.value))
    ensures var plan := ResolveStartPlan(s, date, Reinstated(e));
            var found := OccurrenceRecord(s.records, date);
            && (plan.Success? <==> found.Some? && !DateIsStopped(EffectiveDate(date, e), s.stoppedFrom))
            && (plan.Success? ==>
                  && plan.value.record == found.value
                  && plan.value.effectiveDate == EffectiveDate(date, e)
                  && plan.value.startClock == EffectiveClock(found.value, e)
                  && plan.value.duration == EffectiveDuration(found.value, e))
  {
    GoverningRecordsAgree(s.records, date);
    var record := GoverningRecord(s.records, date);
    assert OccurrenceRecord(s.records, date) ==
           if record.Some? && GeneratesOn(record.value.rev, date) then record else None;
    hide ValidSchedule, OccurrenceRecord, GoverningRecord, GeneratesOn;
    if record.Some? && GeneratesOn(record.value.rev, date) && e.Some? {
      var r := record.value;
      var plan := StartPlan(r, date, r.title, r.startClock, r.endClock, r.duration);
      assert ApplyStartException(plan, Reinstated(e).value).Success?;
    }
  }

  lemma FoundRecord(s: Schedule, date: int)
    requires ValidSchedule(s) && OccurrenceRecord(s.records, date).Some?
    ensures var record := OccurrenceRecord(s.records, date).value;
            && record in s.records && ValidClock(record.startClock) && ValidDuration(record.duration)
            && Governing(Values(s.records), date).Some?
            && RevisionFor(s.records, Governing(Values(s.records), date).value.version) == Some(record)
  {
  }

  function TimesOf(w: World, record: Record, date: int, e: Option<Exception>): (int, int) {
    var zone := w.zones(record.zone);
    (ResolveStart(zone, EffectiveDate(date, e), EffectiveClock(record, e)),
     ResolveEnd(zone, EffectiveDate(date, e), EffectiveClock(record, e), EffectiveDuration(record, e)))
  }

  lemma VisibleFields(w: World, s: Schedule, key: Key, e: Option<Exception>)
    requires Valid(w) && key.OccurrenceKey? && FindSchedule(w.schedules, key.scheduleId) == Some(s)
    requires e == FindException(w.exceptions, key)
    ensures var found := OccurrenceRecord(s.records, key.date);
            VisibleItem(w, key) ==
              if found == None || DateIsStopped(EffectiveDate(key.date, e), s.stoppedFrom) then None
              else Some(Item(key, s.circle, CalendarTitle(found.value, e),
                             TimesOf(w, found.value, key.date, e).0, TimesOf(w, found.value, key.date, e).1,
                             if e.Some? && e.value.cancelled then Cancelled else Scheduled))
  {
    assert key == OccurrenceKey(s.id, key.date);
    PlanFields(s, key.date, e);
  }

  /** Nothing outside the margin is visible in the month. */
  lemma VisibleWithinMargin(w: World, s: Schedule, key: Key, e: Option<Exception>, monthStart: int, monthEnd: int)
    requires Valid(w) && key.OccurrenceKey? && FindSchedule(w.schedules, key.scheduleId) == Some(s)
    requires e == FindException(w.exceptions, key)
    requires InMonth(w, key, monthStart, monthEnd).Some?
    ensures FromDate(monthStart) <= EffectiveDate(key.date, e) <= ToDate(monthEnd)
  {
    VisibleFields(w, s, key, e);
    FoundRecord(s, key.date);
    var record := OccurrenceRecord(s.records, key.date).value;
    MarginSuffices(w.zones(record.zone), EffectiveDate(key.date, e), EffectiveClock(record, e),
                   EffectiveDuration(record, e), monthStart, monthEnd);
  }

  // ---------------------------------------------------------------- exceptions

  /** What the month must finally hold under a key, once stop candidates are dropped. */
  ghost predicate Settled(w: World, key: Key, monthStart: int, monthEnd: int, items: map<Key, Item>, stopped: set<Key>)
    requires Valid(w)
  {
    Holds(items - stopped, key, InMonth(w, key, monthStart, monthEnd))
  }

  /** The retimed, retitled or cancelled item of one row, if the month still shows it. */
  method ReviseItem(w: World, s: Schedule, e: Exception, base: Item, monthStart: int, monthEnd: int)
    returns (next: Option<Item>)
    requires Valid(w) && FindSchedule(w.schedules, e.scheduleId) == Some(s)
    requires FindException(w.exceptions, RowKey(e)) == Some(e)
    requires OccurrenceRecord(s.records, e.original).Some?
    requires base == BaseItem(w, s, OccurrenceRecord(s.records, e.original).value, e.original)
    ensures !DateIsStopped(EffectiveDate(e.original, Some(e)), s.stoppedFrom) ==>
              next == InMonth(w, RowKey(e), monthStart, monthEnd)
  {
    VisibleFields(w, s, RowKey(e), Some(e));
    FoundRecord(s, e.original);
    var item := base;
    if e.cancelled { item := item.(state := Cancelled); }
    if e.moved.Some? || e.startClock.Some? {
      var rev := Governing(Values(s.records), e.original);
      var record := RevisionFor(s.records, rev.value.version).value;
      var date := if e.moved.Some? then e.moved.value else e.original;
      var clock, minutes := record.startClock, record.duration;
      if e.startClock.Some? { clock := e.startClock.value; }
      if e.duration.Some? { minutes := e.duration.value; }
      if e.title.Some? { item := item.(title := e.title.value); }
      var zone := w.zones(record.zone);
      item := item.(startsAt := ResolveStart(zone, date, clock), endsAt := ResolveEnd(zone, date, clock, minutes));
    }
    next := if Meets(item.startsAt, item.endsAt, monthStart, monthEnd) then Some(item) else None;
  }

  /** What one row leaves under its key, and whether the key stays a stop candidate. */
  method ReviseKey(w: World, s: Schedule, e: Exception, monthStart: int, monthEnd: int,
                   current: Option<Item>, wasCandidate: bool)
    returns (next: Option<Item>, candidate: bool)
    requires Valid(w) && FindException(w.exceptions, RowKey(e)) == Some(e)
    requires FindSchedule(w.schedules, e.scheduleId) == Some(s)
    requires current == Generated(w, s, e.original, monthStart, monthEnd)
    requires wasCandidate == (current.Some? && DateIsStopped(e.original, s.stoppedFrom))
    ensures InMonth(w, RowKey(e), monthStart, monthEnd) == if candidate then None else next
  {
    next, candidate := current, wasCandidate;
    VisibleFields(w, s, RowKey(e), Some(e));
    var item: Item;
    if current.Some? {
      item := current.value;
    } else {
      var record := OccurrenceRecord(s.records, e.original);
      if record == None { return; }
      item := BaseItem(w, s, record.value, e.original);
      if DateIsStopped(e.original, s.stoppedFrom) { candidate := true; }
    }
    var effectiveDate := if e.moved.Some? then e.moved.value else e.original;
    if DateIsStopped(effectiveDate, s.stoppedFrom) {
      next := None;
      return;
    }
    if e.moved.Some? { candidate := false; }
    next := ReviseItem(w, s, e, item, monthStart, monthEnd);
  }

  /** Keys no fetched row touches: generation and the stop pass alone already settle them. */
  lemma UnfetchedIsSettled(w: World, s: Schedule, key: Key, monthStart: int, monthEnd: int,
                           items: map<Key, Item>, stopped: set<Key>)
    requires Valid(w) && key.OccurrenceKey? && FindSchedule(w.schedules, key.scheduleId) == Some(s)
    requires Fresh(w, s, key, monthStart, monthEnd, items, stopped)
    requires FindException(w.exceptions, key).Some? ==>
      !Fetched(FindException(w.exceptions, key).value, FromDate(monthStart), ToDate(monthEnd))
    ensures Settled(w, key, monthStart, monthEnd, items, stopped)
  {
    var e := FindException(w.exceptions, key);
    VisibleFields(w, s, key, e);
    if InMonth(w, key, monthStart, monthEnd).Some? {
      VisibleWithinMargin(w, s, key, e, monthStart, monthEnd);
    }
  }

  // ---------------------------------------------------------------- the passes

  method OneOffPass(w: World, monthStart: int, monthEnd: int) returns (items: map<Key, Item>)
    requires Valid(w)
    ensures forall key: Key :: !key.OccurrenceKey? ==> Holds(items, key, InMonth(w, key, monthStart, monthEnd))
    ensures forall key: Key :: key.OccurrenceKey? ==> key !in items
  {
    items := map[];
    for i := 0 to |w.oneOffs|
      invariant forall key: Key :: key in items ==>
        key.SessionKey? && InMonth(w, key, monthStart, monthEnd) == Some(items[key])
      invariant forall k :: 0 <= k < i ==>
        Holds(items, SessionKey(w.oneOffs[k].sessionId),
              InMonth(w, SessionKey(w.oneOffs[k].sessionId), monthStart, monthEnd))
    {
      var o := w.oneOffs[i];
      OneOffIsFound(w, i);
      assert VisibleItem(w, SessionKey(o.sessionId)) == Some(OneOffItem(o));
      if Meets(o.startsAt, o.endsAt, monthStart, monthEnd) {
        items := items[SessionKey(o.sessionId) := OneOffItem(o)];
      }
    }
    forall key: Key | !key.OccurrenceKey?
      ensures Holds(items, key, InMonth(w, key, monthStart, monthEnd))
    {
      if key.SessionKey? && FindOneOff(w.oneOffs, key.id).Some? {
        var o := FindOneOff(w.oneOffs, key.id).value;
        var k :| 0 <= k < |w.oneOffs| && w.oneOffs[k] == o;
        assert key == SessionKey(w.oneOffs[k].sessionId);
      }
    }
  }

  /** Every occurrence key is as generated; nothing else has changed. */
  ghost predicate AfterGeneration(w: World, monthStart: int, monthEnd: int, oneOffs: map<Key, Item>,
                                  items: map<Key, Item>, stopped: set<Key>)
  {
    && (forall key: Key :: !key.OccurrenceKey? ==> SameAt(key, oneOffs, {}, items, stopped))
    && (forall key: Key :: key.OccurrenceKey? ==>
          match FindSchedule(w.schedules, key.scheduleId)
          case Some(s) => Fresh(w, s, key, monthStart, monthEnd, items, stopped)
          case None => key !in items && key !in stopped)
  }

  method GenerationPass(w: World, monthStart: int, monthEnd: int, oneOffs: map<Key, Item>)
    returns (items: map<Key, Item>, stopped: set<Key>)
    requires Valid(w)
    requires forall key: Key :: key.OccurrenceKey? ==> key !in oneOffs
    ensures AfterGeneration(w, monthStart, monthEnd, oneOffs, items, stopped)
  {
    items, stopped := oneOffs, {};
    ghost var done: set<string> := {};
    for i := 0 to |w.schedules|
      invariant forall k :: 0 <= k < |w.schedules| ==> (w.schedules[k].id in done <==> k < i)
      invariant forall key: Key :: key.OccurrenceKey? && key.scheduleId in done ==>
        FindSchedule(w.schedules, key.scheduleId).Some?
        && Fresh(w, FindSchedule(w.schedules, key.scheduleId).value, key, monthStart, monthEnd, items, stopped)
      invariant forall key: Key :: !(key.OccurrenceKey? && key.scheduleId in done) ==>
        SameAt(key, oneOffs, {}, items, stopped)
    {
      var s := w.schedules[i];
      ScheduleIsFound(w, i);
      assert forall key: Key :: Of(key, s) ==> SameAt(key, oneOffs, {}, items, stopped);
      ghost var items1, stopped1 := items, stopped;
      items, stopped := GenerateSchedule(w, s, monthStart, monthEnd, items, stopped);
      forall key: Key | key.OccurrenceKey? && key.scheduleId in done + {s.id}
        ensures FindSchedule(w.schedules, key.scheduleId).Some?
        ensures Fresh(w, FindSchedule(w.schedules, key.scheduleId).value, key, monthStart, monthEnd, items, stopped)
      {
        if !Of(key, s) { assert SameAt(key, items1, stopped1, items, stopped); }
      }
      forall key: Key | !(key.OccurrenceKey? && key.scheduleId in done + {s.id})
        ensures SameAt(key, oneOffs, {}, items, stopped)
      {
        assert SameAt(key, items1, stopped1, items, stopped);
      }
      done := done + {s.id};
    }
    forall key: Key | key.OccurrenceKey?
      ensures match FindSchedule(w.schedules, key.scheduleId)
              case Some(s) => Fresh(w, s, key, monthStart, monthEnd, items, stopped)
              case None => key !in items && key !in stopped
    {
      var s := FindSchedule(w.schedules, key.scheduleId);
      if s.Some? {
        var k :| 0 <= k < |w.schedules| && w.schedules[k] == s.value;
        assert w.schedules[k].id in done;
      } else {
        assert key.scheduleId !in done;
        assert SameAt(key, oneOffs, {}, items, stopped);
      }
    }
  }

  method ExceptionPass(w: World, monthStart: int, monthEnd: int, ghost oneOffs: map<Key, Item>,
                       items0: map<Key, Item>, stopped0: set<Key>)
    returns (items: map<Key, Item>, stopped: set<Key>)
    requires Valid(w) && AfterGeneration(w, monthStart, monthEnd, oneOffs, items0, stopped0)
    ensures forall key: Key :: key.OccurrenceKey? ==> Settled(w, key, monthStart, monthEnd, items, stopped)
    ensures forall key: Key :: !key.OccurrenceKey? ==> SameAt(key, oneOffs, {}, items, stopped)
  {
    items, stopped := items0, stopped0;
    var from, to := FromDate(monthStart), ToDate(monthEnd);
    ghost var done: set<Key> := {};
    for i := 0 to |w.exceptions|
      invariant forall k :: 0 <= k < |w.exceptions| ==>
        (RowKey(w.exceptions[k]) in done <==> k < i && Fetched(w.exceptions[k], from, to))
      invariant forall key: Key :: key in done ==>
        key.OccurrenceKey? && Settled(w, key, monthStart, monthEnd, items, stopped)
      invariant forall key: Key :: key !in done ==> SameAt(key, items0, stopped0, items, stopped)
    {
      var e := w.exceptions[i];
      if !Fetched(e, from, to) { continue; }
      ExceptionIsFound(w, i);
      assert RowKey(e) !in done;
      assert SameAt(RowKey(e), items0, stopped0, items, stopped);
      ghost var items1, stopped1 := items, stopped;
      var schedule := FindSchedule(w.schedules, e.scheduleId);
      if schedule.Some? {
        var key := RowKey(e);
        var next, candidate := ReviseKey(w, schedule.value, e, monthStart, monthEnd,
                                         if key in items then Some(items[key]) else None, key in stopped);
        items := if next.Some? then items[key := next.value] else items - {key};
        stopped := if candidate then stopped + {key} else stopped - {key};
      } else {
        UnscheduledIsSettled(w, RowKey(e), monthStart, monthEnd, oneOffs, items0, stopped0, items, stopped);
      }
      forall key: Key | key != RowKey(e) ensures SameAt(key, items1, stopped1, items, stopped) {}
      RowIsDone(w, monthStart, monthEnd, done, RowKey(e), items0, stopped0, items1, stopped1, items, stopped);
      done := done + {RowKey(e)};
    }
    forall key: Key | key.OccurrenceKey?
      ensures Settled(w, key, monthStart, monthEnd, items, stopped)
    {
      if key !in done { UntouchedIsSettled(w, key, monthStart, monthEnd, oneOffs, items0, stopped0, items, stopped); }
    }
    forall key: Key | !key.OccurrenceKey? ensures SameAt(key, oneOffs, {}, items, stopped) {
      assert SameAt(key, items0, stopped0, items, stopped);
    }
  }

  /** A row settles its own key and leaves every other as it was. */
  lemma RowIsDone(w: World, monthStart: int, monthEnd: int, done: set<Key>, own: Key, items0: map<Key, Item>,
                  stopped0: set<Key>, items1: map<Key, Item>, stopped1: set<Key>, items: map<Key, Item>,
                    stopped: set<Key>)
    requires Valid(w) && own.OccurrenceKey? && own !in done
    requires forall key: Key :: key in done ==>
      key.OccurrenceKey? && Settled(w, key, monthStart, monthEnd, items1, stopped1)
    requires forall key: Key :: key !in done ==> SameAt(key, items0, stopped0, items1, stopped1)
    requires Settled(w, own, monthStart, monthEnd, items, stopped)
    requires forall key: Key :: key != own ==> SameAt(key, items1, stopped1, items, stopped)
    ensures forall key: Key :: key in done + {own} ==>
      key.OccurrenceKey? && Settled(w, key, monthStart, monthEnd, items, stopped)
    ensures forall key: Key :: key !in done + {own} ==> SameAt(key, items0, stopped0, items, stopped)
  {
    forall key: Key | key in done ensures Settled(w, key, monthStart, monthEnd, items, stopped) {
      assert SameAt(key, items1, stopped1, items, stopped);
    }
    forall key: Key | key !in done + {own} ensures SameAt(key, items0, stopped0, items, stopped) {
      assert SameAt(key, items0, stopped0, items1, stopped1) && SameAt(key, items1, stopped1, items, stopped);
    }
  }

  lemma UnscheduledIsSettled(w: World, key: Key, monthStart: int, monthEnd: int, oneOffs: map<Key, Item>,
                             items0: map<Key, Item>, stopped0: set<Key>, items: map<Key, Item>, stopped: set<Key>)
    requires Valid(w) && AfterGeneration(w, monthStart, monthEnd, oneOffs, items0, stopped0)
    requires key.OccurrenceKey? && FindSchedule(w.schedules, key.scheduleId) == None
    requires SameAt(key, items0, stopped0, items, stopped)
    ensures Settled(w, key, monthStart, monthEnd, items, stopped)
  {
  }

  lemma UntouchedIsSettled(w: World, key: Key, monthStart: int, monthEnd: int, oneOffs: map<Key, Item>,
                           items0: map<Key, Item>, stopped0: set<Key>, items: map<Key, Item>, stopped: set<Key>)
    requires Valid(w) && AfterGeneration(w, monthStart, monthEnd, oneOffs, items0, stopped0)
    requires key.OccurrenceKey? && SameAt(key, items0, stopped0, items, stopped)
    requires forall k :: 0 <= k < |w.exceptions| && RowKey(w.exceptions[k]) == key ==>
               !Fetched(w.exceptions[k], FromDate(monthStart), ToDate(monthEnd))
    ensures Settled(w, key, monthStart, monthEnd, items, stopped)
  {
    var s := FindSchedule(w.schedules, key.scheduleId);
    if s.Some? {
      var e := FindException(w.exceptions, key);
      if e.Some? { var k :| 0 <= k < |w.exceptions| && w.exceptions[k] == e.value; }
      assert Fresh(w, s.value, key, monthStart, monthEnd, items0, stopped0);
      UnfetchedIsSettled(w, s.value, key, monthStart, monthEnd, items, stopped);
    }
  }

  // ------------------------------------------------------------- the whole month

  ghost predicate ShowsAll(w: World, items: map<Key, Item>, monthStart: int, monthEnd: int)
    requires Valid(w)
  {
    forall key: Key :: Holds(items, key, InMonth(w, key, monthStart, monthEnd))
  }

  /** The month holds, key by key, exactly what resolves into it. */
  method Month(w: World, monthStart: int, monthEnd: int) returns (items: map<Key, Item>)
    requires Valid(w)
    ensures ShowsAll(w, items, monthStart, monthEnd)
  {
    var oneOffs := OneOffPass(w, monthStart, monthEnd);
    var stopped: set<Key>;
    items, stopped := GenerationPass(w, monthStart, monthEnd, oneOffs);
    items, stopped := ExceptionPass(w, monthStart, monthEnd, oneOffs, items, stopped);
    forall key: Key ensures Holds(items - stopped, key, InMonth(w, key, monthStart, monthEnd)) {
      if !key.OccurrenceKey? { assert SameAt(key, oneOffs, {}, items, stopped); }
    }
    items := items - stopped;
  }

  /**
    The calendar against the start command, for every occurrence: the month shows it
    scheduled exactly when it can be started and its interval meets the month, with the
    interval the start command would use; and shows it cancelled exactly when only the
    cancellation stands between it and a start.
   */
  lemma CalendarAgreesWithStart(w: World, i: nat, date: int, monthStart: int, monthEnd: int)
    requires Valid(w) && i < |w.schedules|
    ensures var s := w.schedules[i];
            var key := OccurrenceKey(s.id, date);
            var shown := InMonth(w, key, monthStart, monthEnd);
            var e := FindException(w.exceptions, key);
            var start := ResolveStartPlan(s, date, e);
            && (shown.Some? && shown.value.state == Scheduled <==>
                  start.Success? && Meets(StartAt(w, start.value), EndAt(w, start.value), monthStart, monthEnd))
            && (shown.Some? && shown.value.state == Scheduled ==>
                  shown.value.startsAt == StartAt(w, start.value) && shown.value.endsAt == EndAt(w, start.value))
            && (shown.Some? && shown.value.state != Scheduled ==>
                  shown.value.state == Cancelled && start.Failure? && ResolveStartPlan(s, date, Reinstated(e)).Success?)
  {
    ScheduleIsFound(w, i);
    var s := w.schedules[i];
    var e := FindException(w.exceptions, OccurrenceKey(s.id, date));
    if e.Some? {
      assert !e.value.cancelled ==> Reinstated(e) == e;
      assert e.value.cancelled ==> ResolveStartPlan(s, date, e).Failure?;
    }
  }

  /**
    The one field in which the two differ: a row that replaces only the title is used by
    the start command and ignored by the calendar. They agree exactly off that case.
   */
  lemma TitlesAgreeExactly(s: Schedule, date: int, e: Exception)
    requires ValidSchedule(s) && ValidException(e)
    requires ResolveStartPlan(s, date, Some(e)).Success?
    ensures var plan := ResolveStartPlan(s, date, Some(e)).value;
            CalendarTitle(plan.record, Some(e)) == plan.title
            <==> !(e.title.Some? && e.moved == None && e.startClock == None && e.title.value != plan.record.title)
  {
  }

  lemma TitleOnlyRowDiffers()
    ensures exists s, date, e ::
              && ValidSchedule(s) && ValidException(e) && ResolveStartPlan(s, date, Some(e)).Success?
              && CalendarTitle(ResolveStartPlan(s, date, Some(e)).value.record, Some(e))
                 != ResolveStartPlan(s, date, Some(e)).value.title
  {
    var rev := Revision("s", 1, 0, Interval, 0, None, 0, [], 1, DayUnit, []);
    var record := Record(rev, "Series", Clock(9, 0), Clock(10, 0), 60, 0);
    var s := Schedule("s", "c", None, [record]);
    var e := Exception("s", 0, None, None, None, None, Some("Exam"), false);
    assert Values(s.records) == [rev];
    assert [record][..0] == [];
    assert GoverningRecord(s.records, 0) == Some(record);
    assert Occurs(rev, 0);
    assert ResolveStartPlan(s, 0, Some(e)).value.title == "Exam";
    assert "Exam" != "Series";
  }
}
