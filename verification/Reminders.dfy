/** Which reminders an occurrence may have: a point test that must agree with the window generator. */
module Reminders {
  import opened Wrappers
  import opened Days
  import opened Recurrence
  import opened Timezone
  import opened Calendar

  datatype Reminder = Reminder(scheduleId: string, original: int, version: int, startsAt: int, offset: int,
                               notifyAt: int)

  /** The rows of one schedule, in their given order. */
  function OwnRecords(records: seq<Record>, id: string): (own: seq<Record>)
    ensures forall r :: r in own <==> r in records && r.rev.scheduleId == id
  {
    if records == [] then [] else
    var front, last := records[..|records| - 1], records[|records| - 1];
    assert records == front + [last];
    OwnRecords(front, id) + if last.rev.scheduleId == id then [last] else []
  }

  ghost predicate ValidRows(records: seq<Record>, id: string) {
    OneSchedule(Values(OwnRecords(records, id)))
  }

  method ReminderRevision(records: seq<Record>, id: string, version: int, date: int) returns (found: Option<Record>)
    requires ValidRows(records, id)
    ensures found == match OccurrenceRecord(OwnRecords(records, id), date)
                     case Some(r) => if r.rev.version == version then Some(r) else None
                     case None => None
  {
    var own := [];
    for k := 0 to |records|
      invariant own == OwnRecords(records[..k], id)
    {
      assert records[..k + 1][..k] == records[..k];
      if records[k].rev.scheduleId == id { own := own + [records[k]]; }
    }
    assert records[..|records|] == records;
    var current := SelectRevision(Values(own), date);
    if current == None || current.value.version != version {
      VersionOfOccurrence(own, date);
      return None;
    }
    assert WellFormed(current.value) by {
      var values := Values(own);
      var i :| 0 <= i < |values| && values[i] == current.value;
    }
    var dates := OccurrenceDates(current.value, date, date);
    VersionOfOccurrence(own, date);
    if |dates| == 0 { return None; }
    return RevisionFor(own, version);
  }

  lemma VersionOfOccurrence(own: seq<Record>, date: int)
    ensures var r := OccurrenceRecord(own, date);
      r.Some? ==>
        Governing(Values(own), date).Some? && r.value.rev.version == Governing(Values(own), date).value.version
  {
  }

  /** The point test accepts an occurrence exactly when every window around its date contains it. */
  lemma PointTestIsTheWindow(records: seq<Record>, id: string, version: int, date: int, from: int, to: int)
    requires ValidRows(records, id) && from <= date <= to
    ensures var own := OwnRecords(records, id); var r := OccurrenceRecord(own, date);
      r.Some? && r.value.rev.version == version <==>
        exists o :: o in Window(Values(own), from, to) && o.date == date && o.version == version
  {
    var own := OwnRecords(records, id);
    var values := Values(own);
    VersionOfOccurrence(own, date);
    match Governing(values, date) {
      case None =>
      case Some(g) =>
        assert RevisionFor(own, g.version).Some? by {
          var i :| 0 <= i < |values| && values[i] == g;
          assert own[i].rev.version == g.version;
        }
        if Occurs(g, date) {
          assert Occurrence(g.scheduleId, g.version, date) in Window(values, from, to);
        }
    }
  }

  function Positive(offsets: seq<int>): seq<int> {
    if offsets == [] then [] else
    Positive(offsets[..|offsets| - 1]) + if offsets[|offsets| - 1] > 0 then [offsets[|offsets| - 1]] else []
  }

  /** The positive offsets, in order and as often as given. */
  lemma {:induction false} PositiveKeeps(before: seq<int>, offset: int, after: seq<int>)
    ensures Positive(before + [offset] + after)
            == Positive(before) + (if offset >= 1 then [offset] else []) + Positive(after)
    ensures Positive([]) == []
    decreases |after|
  {
    var whole := before + [offset] + after;
    if after == [] {
      assert whole[..|whole| - 1] == before;
    } else {
      assert whole[..|whole| - 1] == before + [offset] + after[..|after| - 1];
      PositiveKeeps(before, offset, after[..|after| - 1]);
    }
  }

  datatype ResolveError = InvalidTimezone | InvalidClock | InvalidDuration

  /**
    One reminder for each positive offset, in order, each exactly its offset before the resolved
    start; none for an occurrence cancelled or superseded, whatever its record; an error exactly for
    a current one whose record cannot be resolved.
   */
  method EligibleReminders(records: seq<Record>, zones: nat -> Zone, known: nat -> bool, id: string, version: int,
                           date: int, cancelled: bool, offsets: seq<int>)
    returns (result: Result<seq<Reminder>, ResolveError>)
    requires ValidRows(records, id)
    ensures var record := OccurrenceRecord(OwnRecords(records, id), date);
      if cancelled || record == None || record.value.rev.version != version then result == Success([])
      else if !known(record.value.zone) then result == Failure(InvalidTimezone)
      else if !ValidClock(record.value.startClock) then result == Failure(InvalidClock)
      else if record.value.duration < 1 || record.value.duration > 44_640 then result == Failure(InvalidDuration)
      else
        var startsAt := ResolveStart(zones(record.value.zone), date, record.value.startClock);
        && result.Success? && |result.value| == |Positive(offsets)|
        && forall k :: 0 <= k < |result.value| ==>
             var offset := Positive(offsets)[k];
             result.value[k] == Reminder(id, date, version, startsAt, offset, startsAt - offset)
  {
    if cancelled { return Success([]); }
    var revision := ReminderRevision(records, id, version, date);
    if revision == None { return Success([]); }
    var record := revision.value;
    if !known(record.zone) { return Failure(InvalidTimezone); }
    if !ValidClock(record.startClock) { return Failure(InvalidClock); }
    if !ValidDuration(record.duration) { return Failure(InvalidDuration); }
    var startsAt := ResolveStartUTC(zones(record.zone), date, record.startClock);
    var reminders: seq<Reminder> := [];
    for k := 0 to |offsets|
      invariant |reminders| == |Positive(offsets[..k])|
      invariant var kept := Positive(offsets[..k]);
        forall j :: 0 <= j < |reminders| ==>
          reminders[j] == Reminder(id, date, version, startsAt, kept[j], startsAt - kept[j])
    {
      assert offsets[..k + 1][..k] == offsets[..k];
      var offset := offsets[k];
      if offset <= 0 { continue; }
      reminders := reminders + [Reminder(id, date, version, startsAt, offset, startsAt - offset)];
    }
    assert offsets[..|offsets|] == offsets;
    return Success(reminders);
  }
}
