/**
  The overlap check: expand the proposed plan, fetch the viewer months it touches, and
  compare. The theorem is that fetching only those months loses no conflict.
 */
module OverlapCheck {
  import opened Wrappers
  import opened Days
  import opened Recurrence
  import opened Timezone
  import opened Calendar
  import opened CalendarMonth
  import opened Overlap
  import opened ViewerMonths

  // ------------------------------------------------------------- keys as text

  /** How a civil date is written inside a key. */
  type DateText = int -> string

  ghost predicate FaithfulDates(dt: DateText) {
    && (forall d :: ':' !in dt(d))
    && (forall d, e :: dt(d) == dt(e) ==> d == e)
  }

  ghost predicate PlainId(id: string) {
    ':' !in id && id != "preview"
  }

  ghost predicate PlainKey(key: Key) {
    match key
    case SessionKey(id) => PlainId(id)
    case OccurrenceKey(id, _) => PlainId(id)
    case PreviewKey(_) => true
  }

  function KeyText(dt: DateText, key: Key): string {
    match key
    case SessionKey(id) => id
    case OccurrenceKey(id, date) => id + ":" + dt(date)
    case PreviewKey(date) => "preview:" + dt(date)
  }

  predicate HasPrefix(s: string, prefix: string) {
    prefix <= s
  }

  predicate ShouldExcludeOverlap(key: string, exclude: string) {
    if exclude == "" then false
    else if key == exclude then true
    else if ':' in exclude then false
    else HasPrefix(key, exclude + ":")
  }

  lemma SplitAtColon(a: string, x: string, b: string, y: string)
    requires ':' !in a && ':' !in b && a + ":" + x == b + ":" + y
    ensures a == b && x == y
  {
    var s := a + ":" + x;
    assert s[|a|] == ':' && s[|b|] == ':';
    assert forall i :: 0 <= i < |a| ==> s[i] == a[i] && a[i] in a;
    assert forall i :: 0 <= i < |b| ==> s[i] == b[i] && b[i] in b;
    assert |a| == |b|;
    assert a == s[..|a|] == b;
    assert x == s[|a| + 1..] == y;
  }

  lemma OnlySessionsLackAColon(dt: DateText, key: Key)
    requires PlainKey(key)
    ensures ':' in KeyText(dt, key) <==> !key.SessionKey?
  {
  }

  /** Distinct occurrences never share a key text. */
  lemma KeyTextIsInjective(dt: DateText, k: Key, l: Key)
    requires FaithfulDates(dt) && PlainKey(k) && PlainKey(l) && KeyText(dt, k) == KeyText(dt, l)
    ensures k == l
  {
    OnlySessionsLackAColon(dt, k);
    OnlySessionsLackAColon(dt, l);
    if !k.SessionKey? && !l.SessionKey? {
      assert "preview:" == "preview" + ":";
      var a := if k.OccurrenceKey? then k.scheduleId else "preview";
      var b := if l.OccurrenceKey? then l.scheduleId else "preview";
      SplitAtColon(a, dt(k.date), b, dt(l.date));
    }
  }

  lemma PrefixHasColon(s: string, id: string)
    ensures HasPrefix(s, id + ":") ==> ':' in s && s == id + ":" + s[|id| + 1..]
  {
  }

  /** Excluding a schedule or session id drops exactly that id's own entries. */
  lemma ExcludingAnId(dt: DateText, key: Key, id: string)
    requires FaithfulDates(dt) && PlainKey(key) && PlainId(id) && id != ""
    ensures ShouldExcludeOverlap(KeyText(dt, key), id)
            <==> key == SessionKey(id) || (key.OccurrenceKey? && key.scheduleId == id)
  {
    var text := KeyText(dt, key);
    OnlySessionsLackAColon(dt, key);
    PrefixHasColon(text, id);
    if !key.SessionKey? {
      assert "preview:" == "preview" + ":";
      var own := if key.OccurrenceKey? then key.scheduleId else "preview";
      assert text == own + ":" + dt(key.date);
      if HasPrefix(text, id + ":") { SplitAtColon(own, dt(key.date), id, text[|id| + 1..]); }
    }
  }

  /** Excluding nothing drops nothing. */
  lemma ExcludingNothing(dt: DateText, key: Key)
    ensures !ShouldExcludeOverlap(KeyText(dt, key), "")
  {
  }

  /** Excluding one occurrence drops that occurrence alone. */
  lemma ExcludingAnOccurrence(dt: DateText, key: Key, excluded: Key)
    requires FaithfulDates(dt) && PlainKey(key) && PlainKey(excluded) && excluded.OccurrenceKey?
    ensures ShouldExcludeOverlap(KeyText(dt, key), KeyText(dt, excluded)) <==> key == excluded
  {
    assert KeyText(dt, excluded)[|excluded.scheduleId|] == ':';
    if KeyText(dt, key) == KeyText(dt, excluded) { KeyTextIsInjective(dt, key, excluded); }
  }

  // ----------------------------------------------------------- proposed intervals

  const LAST_DATE := 2932896 // 9999-12-31

  /** The proposed interval of one date of the plan. */
  function PreviewInterval(zone: Zone, record: Record, circle: string, dt: DateText, date: int): OverlapInterval {
    OverlapInterval(KeyText(dt, PreviewKey(date)), circle, ResolveStart(zone, date, record.startClock),
                    ResolveEnd(zone, date, record.startClock, record.duration))
  }

  /** Thirty days from the first affected date, or every selected date. */
  function PreviewDays(r: Revision): seq<int> {
    var from := MaxTime(r.anchor, r.effective);
    OccurrenceDays(r, from, if r.mode == SelectedDates then LAST_DATE else from + 30)
  }

  /** The days that are previewed: the rule's within thirty days of its first affected one, or all it selects. */
  ghost predicate Previewed(r: Revision, d: int) {
    && Occurs(r, d)
    && (r.mode != SelectedDates ==> d <= r.anchor + 30 || d <= r.effective + 30)
    && (r.mode == SelectedDates ==> d < 2_932_897)
  }

  lemma PreviewDaysAre(r: Revision, d: int)
    ensures d in PreviewDays(r) <==> Previewed(r, d)
  {
  }

  method PreviewDates(r: Revision) returns (dates: seq<int>)
    requires WellFormed(r)
    ensures dates == PreviewDays(r)
  {
    var from := MaxTime(r.anchor, r.effective);
    var to := from + 30;
    if r.end.Some? && r.end.value < to { to := r.end.value; }
    dates := OccurrenceDates(r, from, to);
    if r.mode == SelectedDates {
      dates := OccurrenceDates(r, from, LAST_DATE);
    } else {
      EndIsAlreadyClipped(r, from, to, from + 30);
    }
  }

  lemma EndIsAlreadyClipped(r: Revision, from: int, to: int, wide: int)
    requires to <= wide && (to == wide || (r.end.Some? && r.end.value == to))
    ensures OccurrenceDays(r, from, to) == OccurrenceDays(r, from, wide)
  {
    AscendingListsAgree(OccurrenceDays(r, from, to), OccurrenceDays(r, from, wide));
  }

  method PreviewWindow(zone: Zone, record: Record, circle: string, dt: DateText)
    returns (intervals: seq<OverlapInterval>)
    requires WellFormed(record.rev) && ValidDuration(record.duration)
    ensures |intervals| == |PreviewDays(record.rev)|
    ensures forall i :: 0 <= i < |intervals| ==>
      intervals[i] == PreviewInterval(zone, record, circle, dt, PreviewDays(record.rev)[i])
    ensures forall d :: Previewed(record.rev, d) ==>
      exists x :: x in intervals && PreviewsDay(zone, record, circle, dt, d, x)
    ensures forall x :: x in intervals ==>
      exists d :: Previewed(record.rev, d) && PreviewsDay(zone, record, circle, dt, d, x)
    ensures Proper(intervals)
  {
    var dates := PreviewDates(record.rev);
    intervals := [];
    for i := 0 to |dates|
      invariant |intervals| == i
      invariant forall k :: 0 <= k < i ==> intervals[k] == PreviewInterval(zone, record, circle, dt, dates[k])
    {
      intervals := intervals + [PreviewInterval(zone, record, circle, dt, dates[i])];
    }
    forall d | Previewed(record.rev, d)
      ensures exists x :: x in intervals && PreviewsDay(zone, record, circle, dt, d, x) {
      PreviewDaysAre(record.rev, d);
      var i :| 0 <= i < |dates| && dates[i] == d;
      assert intervals[i] in intervals && PreviewsDay(zone, record, circle, dt, d, intervals[i]);
    }
    forall x | x in intervals
      ensures exists d :: Previewed(record.rev, d) && PreviewsDay(zone, record, circle, dt, d, x) {
      var i :| 0 <= i < |intervals| && intervals[i] == x;
      PreviewDaysAre(record.rev, dates[i]);
      assert dates[i] in dates && PreviewsDay(zone, record, circle, dt, dates[i], x);
    }
  }

  /** x is the plan's interval on one day. */
  ghost predicate PreviewsDay(zone: Zone, record: Record, circle: string, dt: DateText, d: int, x: OverlapInterval) {
    && x.key == "preview:" + dt(d) && x.circle == circle
    && x.startsAt == ResolveStart(zone, d, record.startClock) && x.endsAt == x.startsAt + record.duration * 60
  }

  ghost predicate Proper(xs: seq<OverlapInterval>) {
    forall i :: 0 <= i < |xs| ==> xs[i].startsAt < xs[i].endsAt
  }

  // ------------------------------------------------------------- viewer months

  /** The months fetched for one of the proposed intervals. */
  ghost predicate Fetched(v: Viewer, proposed: seq<OverlapInterval>, m: int)
    requires Dates(v)
  {
    exists p :: p in proposed && m in Touched(v, p.startsAt, p.endsAt)
  }

  datatype MonthName = MonthName(index: int)

  method TouchedMonths(v: Viewer, proposed: seq<OverlapInterval>) returns (months: set<MonthName>)
    requires Dates(v)
    ensures forall m :: MonthName(m) in months <==> Fetched(v, proposed, m)
  {
    months := {};
    for i := 0 to |proposed|
      invariant forall m :: MonthName(m) in months <==>
        exists k :: 0 <= k < i && m in Touched(v, proposed[k].startsAt, proposed[k].endsAt)
    {
      var candidate := proposed[i];
      var last := candidate.endsAt - 1;
      var month := Edge(v, MonthOf(v, candidate.startsAt));
      ghost var before := months;
      while month <= last
        invariant forall m :: MonthName(m) in months || m in MonthsWalked(v, month, last) <==>
          MonthName(m) in before || m in Touched(v, candidate.startsAt, candidate.endsAt)
        decreases last - month
      {
        months := months + {MonthName(MonthOf(v, month))};
        month := NextMonth(v, month);
      }
    }
  }

  // ---------------------------------------------------------- what is compared

  predicate Eligible(item: Item) {
    item.state == Scheduled || item.state == Active
  }

  function ItemInterval(dt: DateText, item: Item): OverlapInterval {
    OverlapInterval(KeyText(dt, item.key), item.circle, item.startsAt, item.endsAt)
  }

  /** A commitment of the viewer that counts: visible in any month at all, live, not excluded. */
  ghost predicate Commitment(w: World, dt: DateText, exclude: string, key: Key)
    requires Valid(w)
  {
    && VisibleItem(w, key).Some? && Eligible(VisibleItem(w, key).value)
    && !ShouldExcludeOverlap(KeyText(dt, key), exclude)
  }

  function CommitmentInterval(w: World, dt: DateText, key: Key): OverlapInterval
    requires Valid(w) && VisibleItem(w, key).Some?
  {
    ItemInterval(dt, VisibleItem(w, key).value)
  }

  ghost predicate Reads(w: World, dt: DateText, exclude: string, key: Key, monthStart: int, monthEnd: int,
                        x: OverlapInterval)
    requires Valid(w)
  {
    && Commitment(w, dt, exclude, key) && x == CommitmentInterval(w, dt, key)
    && Meets(x.startsAt, x.endsAt, monthStart, monthEnd)
  }

  /** The eligible, non-excluded intervals of one month. */
  method MonthIntervals(w: World, dt: DateText, exclude: string, monthStart: int, monthEnd: int)
    returns (intervals: seq<OverlapInterval>)
    requires Valid(w)
    ensures forall key, x :: Reads(w, dt, exclude, key, monthStart, monthEnd, x) ==> x in intervals
    ensures forall x :: x in intervals ==> exists key :: Reads(w, dt, exclude, key, monthStart, monthEnd, x)
  {
    var items := Month(w, monthStart, monthEnd);
    intervals := [];
    var rest := items.Keys;
    forall key, x | Reads(w, dt, exclude, key, monthStart, monthEnd, x) ensures key in rest {
      assert Holds(items, key, InMonth(w, key, monthStart, monthEnd));
    }
    while rest != {}
      invariant rest <= items.Keys
      invariant forall key, x :: Reads(w, dt, exclude, key, monthStart, monthEnd, x) ==> key in rest || x in intervals
      invariant forall x :: x in intervals ==> exists key :: Reads(w, dt, exclude, key, monthStart, monthEnd, x)
      decreases |rest|
    {
      var key :| key in rest;
      rest := rest - {key};
      var item := items[key];
      assert InMonth(w, key, monthStart, monthEnd) == Some(item);
      if ShouldExcludeOverlap(KeyText(dt, item.key), exclude) || !Eligible(item) { continue; }
      assert Reads(w, dt, exclude, key, monthStart, monthEnd, ItemInterval(dt, item));
      intervals := intervals + [ItemInterval(dt, item)];
    }
  }

  /** w warns of proposed interval p against the viewer's commitment under key. */
  ghost predicate WarnsAbout(w: World, dt: DateText, h: Digest, exclude: string, p: OverlapInterval, key: Key,
                             warning: Warning)
    requires Valid(w)
  {
    && Commitment(w, dt, exclude, key)
    && Conflict(p, CommitmentInterval(w, dt, key))
    && warning == PairWarning(h, p, CommitmentInterval(w, dt, key))
  }

  /** Every conflict with anything the viewer can see, in any month, and nothing else. */
  ghost predicate AllConflicts(w: World, dt: DateText, h: Digest, exclude: string, proposed: seq<OverlapInterval>,
                               r: seq<Warning>)
    requires Valid(w)
  {
    && Ordered(r, (x: Warning) => x.id)
    && (forall x :: x in r ==> exists p, key :: p in proposed && WarnsAbout(w, dt, h, exclude, p, key, x))
    && (forall p, key, x :: p in proposed && WarnsAbout(w, dt, h, exclude, p, key, x) ==> x in r)
  }

  ghost predicate MeetsMonth(v: Viewer, x: OverlapInterval, m: int)
    requires Dates(v)
  {
    Meets(x.startsAt, x.endsAt, Edge(v, m), NextMonth(v, Edge(v, m)))
  }

  /** The interval is shown by some month fetched for the proposed ones. */
  ghost predicate MeetsFetched(v: Viewer, proposed: seq<OverlapInterval>, x: OverlapInterval)
    requires Dates(v)
  {
    exists m :: Fetched(v, proposed, m) && MeetsMonth(v, x, m)
  }

  /** Every conflict with a commitment some fetched month shows, and nothing else. */
  ghost predicate FetchedConflicts(w: World, v: Viewer, dt: DateText, h: Digest, exclude: string,
                                   proposed: seq<OverlapInterval>, r: seq<Warning>)
    requires Valid(w) && Dates(v)
  {
    && Ordered(r, (x: Warning) => x.id)
    && (forall x :: x in r ==>
          exists p, key :: p in proposed && FetchedWarning(w, v, dt, h, exclude, proposed, p, key, x))
    && (forall p, key, x :: p in proposed && FetchedWarning(w, v, dt, h, exclude, proposed, p, key, x) ==> x in r)
  }

  ghost predicate FetchedWarning(w: World, v: Viewer, dt: DateText, h: Digest, exclude: string,
                                 proposed: seq<OverlapInterval>, p: OverlapInterval, key: Key, x: Warning)
    requires Valid(w) && Dates(v)
  {
    WarnsAbout(w, dt, h, exclude, p, key, x) && MeetsFetched(v, proposed, CommitmentInterval(w, dt, key))
  }

  ghost predicate AllCovered(v: Viewer, proposed: seq<OverlapInterval>)
    requires Dates(v)
  {
    forall p :: p in proposed ==> Covers(v, p.startsAt, p.endsAt)
  }

  /** Fetching the touched months of p loses no conflict, whatever it is, exactly when they cover p. */
  lemma ConflictsAreFetched(v: Viewer, p: OverlapInterval)
    requires Dates(v) && p.startsAt < p.endsAt
    ensures Covers(v, p.startsAt, p.endsAt)
            <==> forall x :: Conflict(p, x) && x.startsAt < x.endsAt ==> MeetsFetched(v, [p], x)
  {
    var months := Touched(v, p.startsAt, p.endsAt);
    if Covers(v, p.startsAt, p.endsAt) {
      forall x | Conflict(p, x) && x.startsAt < x.endsAt ensures MeetsFetched(v, [p], x) {
        CoveredIsFetched(v, [p], p, x);
      }
    }
    if forall x :: Conflict(p, x) && x.startsAt < x.endsAt ==> MeetsFetched(v, [p], x) {
      forall t | p.startsAt <= t < p.endsAt ensures Shown(v, months, t) {
        var x := OverlapInterval(p.key + "x", p.circle, t, t + 1);
        assert x.key[|p.key|] == 'x';
        assert Conflict(p, x);
        var m :| Fetched(v, [p], m) && MeetsMonth(v, x, m);
        assert m in months && MonthShows(v, m, t);
      }
    }
  }

  lemma CoveredIsFetched(v: Viewer, proposed: seq<OverlapInterval>, p: OverlapInterval, x: OverlapInterval)
    requires Dates(v) && p in proposed && Covers(v, p.startsAt, p.endsAt)
    requires Conflict(p, x) && p.startsAt < p.endsAt && x.startsAt < x.endsAt
    ensures MeetsFetched(v, proposed, x)
  {
    var t := MaxTime(p.startsAt, x.startsAt);
    assert Shown(v, Touched(v, p.startsAt, p.endsAt), t);
    var m :| m in Touched(v, p.startsAt, p.endsAt) && MonthShows(v, m, t);
    assert Fetched(v, proposed, m) && MeetsMonth(v, x, m);
  }

  /** With every proposed interval covered, the fetched conflicts are all there are. */
  lemma CoveredLosesNothing(w: World, v: Viewer, dt: DateText, h: Digest, exclude: string,
                            proposed: seq<OverlapInterval>, p: OverlapInterval, key: Key, x: Warning)
    requires Valid(w) && ProperSessions(w) && Dates(v) && Proper(proposed) && AllCovered(v, proposed)
    requires p in proposed && WarnsAbout(w, dt, h, exclude, p, key, x)
    ensures FetchedWarning(w, v, dt, h, exclude, proposed, p, key, x)
  {
    CommitmentsAreProper(w, dt, key);
    CoveredIsFetched(v, proposed, p, CommitmentInterval(w, dt, key));
  }

  ghost predicate ProperSessions(w: World) {
    forall i :: 0 <= i < |w.oneOffs| ==> w.oneOffs[i].startsAt < w.oneOffs[i].endsAt
  }

  lemma CommitmentsAreProper(w: World, dt: DateText, key: Key)
    requires Valid(w) && ProperSessions(w) && VisibleItem(w, key).Some?
    ensures CommitmentInterval(w, dt, key).startsAt < CommitmentInterval(w, dt, key).endsAt
  {
    if key.SessionKey? { return; }
    var s := FindSchedule(w.schedules, key.scheduleId).value;
    VisibleFields(w, s, key, FindException(w.exceptions, key));
    FoundRecord(s, key.date);
  }

  method FetchMonths(w: World, v: Viewer, dt: DateText, exclude: string, months: set<MonthName>)
    returns (existing: seq<OverlapInterval>)
    requires Valid(w) && Dates(v)
    ensures forall m, key, x :: MonthName(m) in months && ReadsIn(w, v, dt, exclude, m, key, x) ==> x in existing
    ensures forall x :: x in existing ==>
      exists m, key :: MonthName(m) in months && ReadsIn(w, v, dt, exclude, m, key, x)
  {
    existing := [];
    var rest := months;
    while rest != {}
      invariant rest <= months
      invariant forall m, key, x | MonthName(m) in months && MonthName(m) !in rest
        && ReadsIn(w, v, dt, exclude, m, key, x) :: x in existing
      invariant forall x :: x in existing ==>
        exists m, key :: MonthName(m) in months && ReadsIn(w, v, dt, exclude, m, key, x)
      decreases |rest|
    {
      var month :| month in rest;
      rest := rest - {month};
      var found := MonthIntervals(w, dt, exclude, Edge(v, month.index), NextMonth(v, Edge(v, month.index)));
      forall x | x in found ensures exists m, key :: MonthName(m) in months && ReadsIn(w, v, dt, exclude, m, key, x) {
        var key :| Reads(w, dt, exclude, key, Edge(v, month.index), NextMonth(v, Edge(v, month.index)), x);
        assert ReadsIn(w, v, dt, exclude, month.index, key, x);
      }
      existing := existing + found;
    }
  }

  ghost predicate ReadsIn(w: World, v: Viewer, dt: DateText, exclude: string, m: int, key: Key, x: OverlapInterval)
    requires Valid(w) && Dates(v)
  {
    Reads(w, dt, exclude, key, Edge(v, m), NextMonth(v, Edge(v, m)), x)
  }

  /** The conflicts the fetched months show; all there are, once these months cover what is proposed. */
  method Warnings(w: World, v: Viewer, dt: DateText, h: Digest, proposed: seq<OverlapInterval>, exclude: string)
    returns (r: seq<Warning>)
    requires Valid(w) && ProperSessions(w) && Dates(v) && Injective(h) && Proper(proposed)
    ensures FetchedConflicts(w, v, dt, h, exclude, proposed, r)
    ensures AllCovered(v, proposed) ==> AllConflicts(w, dt, h, exclude, proposed, r)
  {
    var months := TouchedMonths(v, proposed);
    var existing := FetchMonths(w, v, dt, exclude, months);
    r := EvaluateOverlapWarnings(h, proposed, existing);
    WarningsAreFetched(w, v, dt, h, exclude, proposed, months, existing, r);
    if AllCovered(v, proposed) {
      forall p, key, x | p in proposed && WarnsAbout(w, dt, h, exclude, p, key, x) ensures x in r {
        CoveredLosesNothing(w, v, dt, h, exclude, proposed, p, key, x);
      }
      forall x | x in r ensures exists p, key :: p in proposed && WarnsAbout(w, dt, h, exclude, p, key, x) {
        var p, key :| p in proposed && FetchedWarning(w, v, dt, h, exclude, proposed, p, key, x);
      }
    }
  }

  lemma WarningsAreFetched(w: World, v: Viewer, dt: DateText, h: Digest, exclude: string,
                           proposed: seq<OverlapInterval>, months: set<MonthName>, existing: seq<OverlapInterval>,
                           r: seq<Warning>)
    requires Valid(w) && Dates(v) && WarningList(h, proposed, existing, r)
    requires forall m :: MonthName(m) in months <==> Fetched(v, proposed, m)
    requires forall m, key, x :: MonthName(m) in months && ReadsIn(w, v, dt, exclude, m, key, x) ==> x in existing
    requires forall x :: x in existing ==>
      exists m, key :: MonthName(m) in months && ReadsIn(w, v, dt, exclude, m, key, x)
    ensures FetchedConflicts(w, v, dt, h, exclude, proposed, r)
  {
    forall x | x in r
      ensures exists p, key :: p in proposed && FetchedWarning(w, v, dt, h, exclude, proposed, p, key, x)
    {
      var p, y :| p in proposed && y in existing && Conflict(p, y) && x == PairWarning(h, p, y);
      var m, key :| MonthName(m) in months && ReadsIn(w, v, dt, exclude, m, key, y);
      assert MeetsMonth(v, y, m);
      assert FetchedWarning(w, v, dt, h, exclude, proposed, p, key, x);
    }
    forall p, key, x | p in proposed && FetchedWarning(w, v, dt, h, exclude, proposed, p, key, x) ensures x in r {
      var y := CommitmentInterval(w, dt, key);
      var m :| Fetched(v, proposed, m) && MeetsMonth(v, y, m);
      assert ReadsIn(w, v, dt, exclude, m, key, y);
    }
  }

  // ------------------------------------------------------------- confirmation

  method RequireOverlapConfirmation(current: seq<Warning>, confirmed: bool, reviewedIds: seq<int>)
    returns (accepted: bool)
    ensures accepted <==> current == [] || (confirmed && forall x :: x in current ==> x.id in reviewedIds)
  {
    if |current| == 0 { return true; }
    if !confirmed { return false; }
    var reviewed := set id | id in reviewedIds;
    for i := 0 to |current|
      invariant forall k :: 0 <= k < i ==> current[k].id in reviewedIds
    {
      if current[i].id !in reviewed {
        assert current[i] in current;
        return false;
      }
    }
    return true;
  }

  /**
    A check succeeds exactly when every conflict it fetches has been reviewed and confirmed;
    where the fetched months cover the proposal, that is every conflict there is.
   */
  method Check(w: World, v: Viewer, dt: DateText, h: Digest, proposed: seq<OverlapInterval>, exclude: string,
               confirmed: bool, reviewedIds: seq<int>)
    returns (accepted: bool, current: seq<Warning>)
    requires Valid(w) && ProperSessions(w) && Dates(v) && Injective(h) && Proper(proposed)
    ensures FetchedConflicts(w, v, dt, h, exclude, proposed, current)
    ensures accepted <==>
      forall p, key, x :: p in proposed && FetchedWarning(w, v, dt, h, exclude, proposed, p, key, x) ==>
        confirmed && x.id in reviewedIds
    ensures AllCovered(v, proposed) ==>
      (accepted <==>
       forall p, key, x :: p in proposed && WarnsAbout(w, dt, h, exclude, p, key, x) ==>
         confirmed && x.id in reviewedIds)
  {
    current := Warnings(w, v, dt, h, proposed, exclude);
    accepted := RequireOverlapConfirmation(current, confirmed, reviewedIds);
    if current != [] {
      assert current[0] in current;
    }
    if AllCovered(v, proposed) {
      forall p, key, x | p in proposed && WarnsAbout(w, dt, h, exclude, p, key, x)
        ensures FetchedWarning(w, v, dt, h, exclude, proposed, p, key, x)
      {
        CoveredLosesNothing(w, v, dt, h, exclude, proposed, p, key, x);
      }
    }
  }

  // ------------------------------------------------------- the month's own warnings

  ghost predicate PlainWorld(w: World)
    requires Valid(w)
  {
    forall key :: VisibleItem(w, key).Some? ==> PlainKey(key)
  }

  /** Two different commitments of the month overlap, and x warns of them. */
  ghost predicate WarnsOfItems(w: World, dt: DateText, h: Digest, monthStart: int, monthEnd: int, k: Key, l: Key,
                               x: Warning)
    requires Valid(w)
  {
    && k != l && Commitment(w, dt, "", k) && Commitment(w, dt, "", l)
    && var a, b := CommitmentInterval(w, dt, k), CommitmentInterval(w, dt, l);
    && Meets(a.startsAt, a.endsAt, monthStart, monthEnd) && Meets(b.startsAt, b.endsAt, monthStart, monthEnd)
    && a.startsAt < b.endsAt && b.startsAt < a.endsAt
    && x == PairWarning(h, a, b)
  }

  /** The warnings of a month: one for every overlapping pair of its live items, in order of id. */
  method CalendarWarnings(w: World, dt: DateText, h: Digest, monthStart: int, monthEnd: int) returns (r: seq<Warning>)
    requires Valid(w) && PlainWorld(w) && FaithfulDates(dt) && Injective(h)
    ensures Ordered(r, (x: Warning) => x.id)
    ensures forall x :: x in r ==> exists k, l :: WarnsOfItems(w, dt, h, monthStart, monthEnd, k, l, x)
    ensures forall k, l, x :: WarnsOfItems(w, dt, h, monthStart, monthEnd, k, l, x) ==> x in r
  {
    var intervals := MonthIntervals(w, dt, "", monthStart, monthEnd);
    r := EvaluateOverlapWarnings(h, intervals, intervals);
    forall x | x in r ensures exists k, l :: WarnsOfItems(w, dt, h, monthStart, monthEnd, k, l, x) {
      var a, b :| a in intervals && b in intervals && Conflict(a, b) && x == PairWarning(h, a, b);
      var k :| Reads(w, dt, "", k, monthStart, monthEnd, a);
      var l :| Reads(w, dt, "", l, monthStart, monthEnd, b);
      assert WarnsOfItems(w, dt, h, monthStart, monthEnd, k, l, x);
    }
    forall k, l, x | WarnsOfItems(w, dt, h, monthStart, monthEnd, k, l, x) ensures x in r {
      ItemsConflict(w, dt, h, monthStart, monthEnd, k, l, x);
    }
  }

  lemma ItemsConflict(w: World, dt: DateText, h: Digest, monthStart: int, monthEnd: int, k: Key, l: Key, x: Warning)
    requires Valid(w) && PlainWorld(w) && FaithfulDates(dt) && WarnsOfItems(w, dt, h, monthStart, monthEnd, k, l, x)
    ensures var a, b := CommitmentInterval(w, dt, k), CommitmentInterval(w, dt, l);
      && Reads(w, dt, "", k, monthStart, monthEnd, a) && Reads(w, dt, "", l, monthStart, monthEnd, b)
      && Conflict(a, b) && x == PairWarning(h, a, b)
  {
    KeyTextTellsApart(dt, k, l);
    hide FaithfulDates, PlainKey, KeyText, VisibleItem;
  }

  /** Different pairs of items have different warnings. */
  lemma CalendarWarningsTellPairsApart(w: World, dt: DateText, h: Digest, monthStart: int, monthEnd: int,
                                       k: Key, l: Key, m: Key, n: Key, x: Warning)
    requires Valid(w) && PlainWorld(w) && FaithfulDates(dt)
    requires WarnsOfItems(w, dt, h, monthStart, monthEnd, k, l, x)
    requires WarnsOfItems(w, dt, h, monthStart, monthEnd, m, n, x)
    ensures {k, l} == {m, n}
  {
    ItemsOfWarning(w, dt, h, monthStart, monthEnd, k, l, x);
    ItemsOfWarning(w, dt, h, monthStart, monthEnd, m, n, x);
    hide *;
    KeyTextTellsApart(dt, k, m);
    KeyTextTellsApart(dt, k, n);
    KeyTextTellsApart(dt, l, m);
    KeyTextTellsApart(dt, l, n);
  }

  lemma KeyTextTellsApart(dt: DateText, k: Key, l: Key)
    requires FaithfulDates(dt) && PlainKey(k) && PlainKey(l)
    ensures KeyText(dt, k) == KeyText(dt, l) <==> k == l
  {
    if KeyText(dt, k) == KeyText(dt, l) { KeyTextIsInjective(dt, k, l); }
  }

  lemma ItemsOfWarning(w: World, dt: DateText, h: Digest, monthStart: int, monthEnd: int, k: Key, l: Key, x: Warning)
    requires Valid(w) && PlainWorld(w) && WarnsOfItems(w, dt, h, monthStart, monthEnd, k, l, x)
    ensures k != l && PlainKey(k) && PlainKey(l)
    ensures (x.firstKey == KeyText(dt, k) && x.secondKey == KeyText(dt, l))
            || (x.firstKey == KeyText(dt, l) && x.secondKey == KeyText(dt, k))
  {
  }
}
