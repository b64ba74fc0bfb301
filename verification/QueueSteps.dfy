/** Every command that commits keeps the queue invariant and only moves the state forward. */
module QueueSteps {
  import opened Wrappers
  import opened QueueModel
  import opened QueueInvariants

  // ------------------------------------------------------------ one entry's turn

  lemma RequestsKept(entries: seq<Entry>, requests: seq<Request>, e: nat, entry: Entry)
    requires RequestsInv(entries, requests) && e < |entries|
    requires entry.student == entries[e].student
    requires IsTerminal(entries[e].status) ==> entry.status == entries[e].status
    ensures RequestsInv(entries[e := entry], requests)
  {
  }

  /** Entry e becomes entry: the state it may be in, and what it owes its round, progress and requests. */
  ghost predicate TurnAllowed(db: Db, e: nat, entry: Entry, deselect: bool)
    requires Refs(db) && e < |db.entries|
  {
    var was, round := db.entries[e], db.rounds[db.entries[e].round];
    && entry.round == was.round && entry.student == was.student && entry.position == was.position
    && (IsTerminal(was.status) ==> entry.status == was.status)
    && (round.lifecycle == Finalized ==>
          entry == was.(grade := entry.grade, notes := entry.notes, version := entry.version))
    && (entry.status == Reciting ==> round.lifecycle == Active && round.selected == Some(e) && !deselect)
    && (deselect || Unfinished(entry.status) || round.selected != Some(e))
  }

  ghost predicate ProgressElsewhere(db: Db, e: nat, progress: map<nat, Progress>) {
    forall d :: d != e ==> (d in progress <==> d in db.progress) && (d in db.progress ==> progress[d] == db.progress[d])
  }

  lemma TurnKeepsTurns(round: Round, x: Round, r: nat, entries: seq<Entry>, e: nat, entry: Entry)
    requires TurnAt(round, r, entries) && e < |entries| && entries[e].round == entry.round == r
    requires x.lifecycle == round.lifecycle
    requires x.selected == round.selected || (round.selected == Some(e) && x.selected == None)
    requires entry.status == Reciting ==>
      round.lifecycle == Active && round.selected == Some(e) && x.selected == Some(e)
    requires x.selected == Some(e) ==> Unfinished(entry.status)
    ensures TurnAt(x, r, entries[e := entry])
  {
  }

  lemma TurnKeepsSlots(round: Round, x: Round, r: nat, entries: seq<Entry>, e: nat, entry: Entry)
    requires SlotsAt(round, r, entries) && e < |entries| && x.lifecycle == round.lifecycle
    requires entry.round == entries[e].round && entry.student == entries[e].student
      && entry.position == entries[e].position
    ensures SlotsAt(x, r, entries[e := entry])
  {
    var next := entries[e := entry];
    forall d, p | 0 <= d < |next| && next[d].round == r && 1 <= p < next[d].position ensures PositionTaken(next, r, p) {
      assert entries[d].round == r && p < entries[d].position;
      assert PositionTaken(entries, r, p);
      var k :| 0 <= k < |entries| && entries[k].round == r && entries[k].position == p;
      assert next[k].round == r && next[k].position == p;
    }
  }

  function TurnResult(db: Db, e: nat, entry: Entry, deselect: bool, kind: EventKind, progress: map<nat, Progress>,
                      requests: seq<Request>): Db
    requires Refs(db) && e < |db.entries|
  {
    Turn(db, e, entry, deselect, kind).(progress := progress, requests := requests)
  }

  lemma TurnOnRound(db: Db, e: nat, entry: Entry, deselect: bool, kind: EventKind, progress: map<nat, Progress>,
                    requests: seq<Request>)
    requires Refs(db) && e < |db.entries| && TurnAllowed(db, e, entry, deselect)
    requires kind != OptOutRequested && kind != PolicyChanged
    requires ProgressElsewhere(db, e, progress) && |db.requests| <= |requests|
    requires forall d :: d in progress ==> d < |db.entries|
    ensures OnRound(db, TurnResult(db, e, entry, deselect, kind, progress, requests), db.entries[e].round)
  {
  }

  lemma TurnAdvances(db: Db, e: nat, entry: Entry, deselect: bool, x: Round)
    requires Refs(db) && e < |db.entries| && TurnAllowed(db, e, entry, deselect)
    requires TurnAt(db.rounds[db.entries[e].round], db.entries[e].round, db.entries) && Activated(db.rounds)
    requires var w := db.rounds[db.entries[e].round];
      x == w.(version := w.version + 1, selected := if deselect && w.selected == Some(e) then None else w.selected)
    ensures AdvancesAt(db.rounds, db.entries[e].round, x, db.entries,
                       db.entries[e := entry.(version := db.entries[e].version + 1)])
  {
  }

  lemma TurnKeepsProgress(db: Db, e: nat, entry: Entry, progress: map<nat, Progress>, r: nat)
    requires ProgressInv(db.rounds, db.entries, db.progress) && Refs(db) && e < |db.entries|
    requires ProgressElsewhere(db, e, progress) && ProgressFits(db.rounds[db.entries[e].round], entry, e, progress)
    requires r == db.entries[e].round == entry.round
    ensures forall d :: d in progress ==> d < |db.entries|
    ensures forall d :: 0 <= d < |db.entries| && db.entries[d].round == r ==>
      ProgressFits(db.rounds[r], db.entries[e := entry][d], d, progress)
  {
  }

  lemma TurnFits(db: Db, b: Db, e: nat, next: Entry, r: nat)
    requires Refs(db) && TurnsInv(db.rounds, db.entries) && SlotsInv(db.rounds, db.entries)
      && PreordersDistinct(db.rounds)
    requires LocksInv(db.rounds, db.resetting) && RequestsInv(b.entries, b.requests)
    requires OnRound(db, b, r) && e < |db.entries| && r == db.entries[e].round
    requires b.entries == db.entries[e := next] && b.resetting == db.resetting
      && next.position == db.entries[e].position
    requires var round, x := db.rounds[r], b.rounds[r];
      && x.lifecycle == round.lifecycle && x.preorder == round.preorder
      && (x.selected == round.selected || (round.selected == Some(e) && x.selected == None))
      && (next.status == Reciting ==> round.lifecycle == Active && round.selected == Some(e) && x.selected == Some(e))
      && (x.selected == Some(e) ==> Unfinished(next.status))
    requires forall d :: 0 <= d < |b.entries| && b.entries[d].round == r ==>
      ProgressFits(b.rounds[r], b.entries[d], d, b.progress)
    ensures FitsAt(db, b, r)
  {
    assert TurnAt(db.rounds[r], r, db.entries) && SlotsAt(db.rounds[r], r, db.entries);
    TurnKeepsTurns(db.rounds[r], b.rounds[r], r, db.entries, e, next);
    TurnKeepsSlots(db.rounds[r], b.rounds[r], r, db.entries, e, next);
  }

  lemma TurnSteps(db: Db, e: nat, entry: Entry, deselect: bool, kind: EventKind, progress: map<nat, Progress>,
                  requests: seq<Request>)
    requires Inv(db) && e < |db.entries| && TurnAllowed(db, e, entry, deselect)
    requires kind != OptOutRequested && kind != PolicyChanged
    requires ProgressElsewhere(db, e, progress) && ProgressFits(db.rounds[db.entries[e].round], entry, e, progress)
    requires |db.requests| <= |requests|
    requires RequestsInv(db.entries[e := entry.(version := db.entries[e].version + 1)], requests)
    ensures Steps(db, TurnResult(db, e, entry, deselect, kind, progress, requests))
  {
    hide Steps, TurnAt, SlotsAt, FitsAt, RequestsInv, LocksInv, LogInv, Numbered, AdvancesAt;
    var r := db.entries[e].round;
    var b := TurnResult(db, e, entry, deselect, kind, progress, requests);
    var next := entry.(version := db.entries[e].version + 1);
    TurnKeepsProgress(db, e, next, progress, r);
    TurnOnRound(db, e, entry, deselect, kind, progress, requests);
    TurnAdvances(db, e, entry, deselect, b.rounds[r]);
    TurnFits(db, b, e, next, r);
    OnRoundSteps(db, b, r);
  }

  lemma StepsSelf(db: Db)
    requires Inv(db)
    ensures Steps(db, db)
  {
  }

  lemma StartSteps(db: Db, e: nat, expected: int)
    requires Inv(db) && DoStart(db, e, expected).Success?
    ensures Steps(db, DoStart(db, e, expected).value)
  {
    hide Steps;
    var started := Moved(db.entries[e], Reciting, None, None, None);
    assert ProgressFits(db.rounds[db.entries[e].round], db.entries[e], e, db.progress);
    RequestsKept(db.entries, db.requests, e, started.(version := db.entries[e].version + 1));
    TurnSteps(db, e, started, false, EntryUpdated, db.progress, db.requests);
  }

  lemma CompleteSteps(db: Db, e: nat, expected: int, actor: nat, grade: Option<Grade>, notes: Option<string>)
    requires Inv(db) && DoComplete(db, e, expected, actor, grade, notes).Success?
    ensures Steps(db, DoComplete(db, e, expected, actor, grade, notes).value)
  {
    hide Steps;
    var done := Moved(db.entries[e], Completed, grade, notes, Some(actor));
    var round := db.rounds[db.entries[e].round];
    assert ProgressFits(round, db.entries[e], e, db.progress);
    RequestsKept(db.entries, db.requests, e, done.(version := db.entries[e].version + 1));
    TurnSteps(db, e, done, true, GradeSubmitted, RecordProgress(db.progress, e, ProgressOf(round, done)), db.requests);
  }

  lemma CorrectSteps(db: Db, e: nat, expected: int, grade: Option<Grade>, notes: Option<string>)
    requires Inv(db) && DoCorrect(db, e, expected, grade, notes).Success?
    ensures Steps(db, DoCorrect(db, e, expected, grade, notes).value)
  {
    hide Steps;
    var corrected := Corrected(db.entries[e], grade, notes);
    var round := db.rounds[db.entries[e].round];
    assert TurnAt(round, db.entries[e].round, db.entries);
    assert ProgressFits(round, db.entries[e], e, db.progress);
    RequestsKept(db.entries, db.requests, e, corrected.(version := db.entries[e].version + 1));
    TurnSteps(db, e, corrected, false, GradeSubmitted, RecordProgress(db.progress, e, ProgressOf(round, corrected)),
              db.requests);
  }

  lemma SkipSteps(db: Db, e: nat, expected: int, actor: nat)
    requires Inv(db) && DoSkip(db, e, expected, actor).Success?
    ensures Steps(db, DoSkip(db, e, expected, actor).value)
  {
    hide Steps;
    var skipped := Moved(db.entries[e], Skipped, None, None, Some(actor));
    assert ProgressFits(db.rounds[db.entries[e].round], db.entries[e], e, db.progress);
    RequestsKept(db.entries, db.requests, e, skipped.(version := db.entries[e].version + 1));
    TurnSteps(db, e, skipped, true, EntryUpdated, db.progress, db.requests);
  }

  /** Opting out an unfinished entry, with requests already settled for it. */
  lemma OptOutSteps(db: Db, e: nat, actor: nat, requests: seq<Request>)
    requires Inv(db) && e < |db.entries| && Unfinished(db.entries[e].status)
    requires db.rounds[db.entries[e].round].lifecycle != Finalized && |db.requests| <= |requests|
    requires var out := Moved(db.entries[e], OptedOut, None, None, Some(actor)).(version := db.entries[e].version + 1);
      RequestsInv(db.entries[e := out], requests)
    ensures var out := Moved(db.entries[e], OptedOut, None, None, Some(actor));
      Steps(db, TurnResult(db, e, out, true, EntryUpdated, db.progress, requests))
  {
    hide Steps, TurnAt, SlotsAt, RequestsInv, LocksInv, LogInv, Numbered;
    assert ProgressFits(db.rounds[db.entries[e].round], db.entries[e], e, db.progress);
    TurnSteps(db, e, Moved(db.entries[e], OptedOut, None, None, Some(actor)), true, EntryUpdated, db.progress,
              requests);
  }

  // ------------------------------------------- steps that touch no round or entry

  /** Events that announce no version leave every round's log as it was. */
  lemma LogIgnores(rounds: seq<Round>, outbox: seq<Event>, event: Event)
    requires LogInv(rounds, outbox) && event.round < |rounds|
    requires event.kind == OptOutRequested || event.kind == PolicyChanged
    ensures LogInv(rounds, outbox + [event])
  {
  }

  lemma QuietSteps(a: Db, b: Db)
    requires Inv(a)
    requires b.rounds == a.rounds && b.entries == a.entries && b.progress == a.progress
    requires |a.sessions| <= |b.sessions|
    requires forall s :: 0 <= s < |a.sessions| && a.sessions[s].status == Ended ==> b.sessions[s].status == Ended
    requires |a.requests| <= |b.requests| && RequestsInv(b.entries, b.requests)
    requires a.outbox <= b.outbox && LogInv(b.rounds, b.outbox)
    requires LocksInv(b.rounds, b.resetting) && LocksOnlyLive(a, b)
    ensures Steps(a, b)
  {
    assert Refs(b);
    QuietEvolves(a, b);
  }

  lemma QuietEvolves(a: Db, b: Db)
    requires Refs(a) && b.rounds == a.rounds && b.entries == a.entries
    requires |a.sessions| <= |b.sessions| && |a.requests| <= |b.requests| && a.outbox <= b.outbox
    requires forall s :: 0 <= s < |a.sessions| && a.sessions[s].status == Ended ==> b.sessions[s].status == Ended
    requires LocksOnlyLive(a, b)
    ensures Evolves(a, b)
  {
  }

  lemma DecideSteps(db: Db, route: Option<nat>, q: nat, manager: nat, decision: RequestStatus, expected: int)
    requires Inv(db) && DoDecide(db, route, q, manager, decision, expected).Success?
    ensures Steps(db, DoDecide(db, route, q, manager, decision, expected).value)
  {
    hide Steps, RoundsInv, TurnsInv, SlotsInv, ProgressInv, LogInv, LocksInv;
    var e := db.requests[q].entry;
    var requests := db.requests[q := db.requests[q].(status := decision, decidedBy := Some(manager))];
    if decision == Approved {
      OptOutSteps(db, e, manager, requests);
    } else {
      QuietSteps(db, db.(requests := requests));
    }
  }

  lemma AskSteps(db: Db, e: nat, event: Event)
    requires Inv(db) && e < |db.entries| && PendingRequest(db.requests, e) == None
    requires event.kind == OptOutRequested && event.round < |db.rounds|
    ensures var request := Request(e, db.entries[e].student, Pending, None);
      Steps(db, db.(requests := db.requests + [request], outbox := db.outbox + [event]))
  {
    hide Steps;
    var b := db.(requests := db.requests + [Request(e, db.entries[e].student, Pending, None)],
                 outbox := db.outbox + [event]);
    LogIgnores(db.rounds, db.outbox, event);
    AskKeepsRequests(db.entries, db.requests, e);
    QuietSteps(db, b);
  }

  lemma AskKeepsRequests(entries: seq<Entry>, requests: seq<Request>, e: nat)
    requires RequestsInv(entries, requests) && e < |entries| && PendingRequest(requests, e) == None
    ensures RequestsInv(entries, requests + [Request(e, entries[e].student, Pending, None)])
  {
  }

  lemma ApproveKeepsRequests(entries: seq<Entry>, requests: seq<Request>, e: nat, out: Entry, student: nat)
    requires RequestsInv(entries, requests) && e < |entries| && out.student == entries[e].student == student
    requires out.status == OptedOut && Unfinished(entries[e].status)
    ensures RequestsInv(entries[e := out], requests)
    ensures RequestsInv(entries[e := out], requests + [Request(e, student, Approved, Some(student))])
  {
  }

  lemma AutoApproveSteps(db: Db, e: nat, student: nat, requests: seq<Request>)
    requires Inv(db) && e < |db.entries| && Unfinished(db.entries[e].status) && student == db.entries[e].student
    requires db.rounds[db.entries[e].round].lifecycle == Active
    requires requests == db.requests || requests == db.requests + [Request(e, student, Approved, Some(student))]
    ensures var out := Moved(db.entries[e], OptedOut, None, None, Some(student));
      Steps(db, TurnResult(db, e, out, true, EntryUpdated, db.progress, requests))
  {
    hide Steps, TurnAt, SlotsAt, ProgressFits, RequestsInv, LocksInv, LogInv, Numbered;
    var out := Moved(db.entries[e], OptedOut, None, None, Some(student)).(version := db.entries[e].version + 1);
    ApproveKeepsRequests(db.entries, db.requests, e, out, student);
    OptOutSteps(db, e, student, requests);
  }

  lemma RequestSteps(db: Db, s: nat, student: nat)
    requires Inv(db) && DoRequestOptOut(db, s, student).Success?
    ensures Steps(db, DoRequestOptOut(db, s, student).value)
  {
    hide Steps, TurnAt, SlotsAt, ProgressFits, RequestsInv, LocksInv, LogInv, Numbered;
    var r := ActiveRound(db.rounds, s).value;
    var e := EntryOf(db.entries, r, student).value;
    var latest := LatestRequest(db.requests, e, student);
    if latest.Some? && db.requests[latest.value].status != Declined {
      StepsSelf(db);
    } else if db.sessions[s].policy.optOut == AutoApprove {
      var approved := db.requests + [Request(e, student, Approved, Some(student))];
      AutoApproveSteps(db, e, student, if latest.Some? then db.requests else approved);
    } else if PendingRequest(db.requests, e).Some? {
      StepsSelf(db);
    } else {
      AskSteps(db, e, Event(OptOutRequested, s, r, Some(|db.requests|), db.rounds[r].version));
    }
  }

  // ---------------------------------------------------- steps on one round's row

  /** A round announces a change of its selection or preorder only. */
  lemma RowSteps(db: Db, r: nat, x: Round, kind: EventKind, resource: Option<nat>)
    requires Inv(db) && r < |db.rounds| && kind != OptOutRequested && kind != PolicyChanged
    requires x == db.rounds[r].(selected := x.selected, preorder := x.preorder)
    requires db.rounds[r].lifecycle != Finalized && NoDuplicates(x.preorder)
    requires TurnAt(x, r, db.entries)
    ensures Steps(db, Announce(db, r, x, kind, resource))
  {
    hide Steps, TurnAt, SlotsAt, ProgressFits, FitsAt, OnRound, AdvancesAt, RequestsInv, LocksInv, LogInv, Numbered;
    var b := Announce(db, r, x, kind, resource);
    RowFits(db, b, r, x);
    OnRoundSteps(db, b, r);
  }

  lemma RowFits(db: Db, b: Db, r: nat, x: Round)
    requires Refs(db) && r < |db.rounds| && b.entries == db.entries && b.progress == db.progress
      && b.sessions == db.sessions
    requires b.requests == db.requests && b.resetting == db.resetting
    requires x == db.rounds[r].(selected := x.selected, preorder := x.preorder)
    requires b.rounds == db.rounds[r := x.(version := db.rounds[r].version + 1)]
    requires |b.outbox| == |db.outbox| + 1 && b.outbox == db.outbox + [b.outbox[|db.outbox|]]
    requires Announces(b.outbox[|db.outbox|], r) && b.outbox[|db.outbox|].version == b.rounds[r].version
    requires TurnAt(x, r, db.entries) && NoDuplicates(x.preorder) && db.rounds[r].lifecycle != Finalized
    requires SlotsInv(db.rounds, db.entries) && ProgressInv(db.rounds, db.entries, db.progress) && Activated(db.rounds)
    requires RequestsInv(db.entries, db.requests) && LocksInv(db.rounds, db.resetting)
    ensures OnRound(db, b, r) && FitsAt(db, b, r) && AdvancesAt(db.rounds, r, b.rounds[r], db.entries, b.entries)
  {
    assert SlotsAt(db.rounds[r], r, db.entries);
    forall d | 0 <= d < |b.entries| && b.entries[d].round == r
      ensures ProgressFits(b.rounds[r], b.entries[d], d, b.progress) {
      assert ProgressFits(db.rounds[r], db.entries[d], d, db.progress);
    }
  }

  lemma ReorderSteps(db: Db, r: nat, expected: int, students: seq<nat>, roster: Roster)
    requires Inv(db) && DoReorder(db, r, expected, students, roster).Success?
    ensures Steps(db, DoReorder(db, r, expected, students, roster).value)
  {
    hide Steps;
    assert TurnAt(db.rounds[r], r, db.entries);
    RowSteps(db, r, db.rounds[r].(preorder := students), Reordered, None);
  }

  lemma AdvanceSteps(db: Db, r: nat, expected: int)
    requires Inv(db) && DoAdvance(db, r, expected).Success?
    ensures Steps(db, DoAdvance(db, r, expected).value)
  {
    hide Steps;
    var e := NextWaiting(db.entries, r, db.rounds[r].selected);
    assert TurnAt(db.rounds[r], r, db.entries);
    RowSteps(db, r, db.rounds[r].(selected := e), Advanced, e);
  }

  // ------------------------------------------- steps on many entries of one round

  lemma EntriesOnRound(db: Db, r: nat, x: Round, entries: seq<Entry>, kind: EventKind, resource: Option<nat>)
    requires r < |db.rounds| && kind != OptOutRequested && kind != PolicyChanged
    requires SameRoundFacts(db.rounds[r], x) && Elsewhere(db.entries, entries, r)
    requires forall e :: e in db.progress ==> e < |db.entries|
    ensures OnRound(db, AnnounceEntries(db, r, x, entries, kind, resource), r)
  {
  }

  /** A round announces a change of its row and entries; progress, requests and sessions stay. */
  lemma EntriesStep(db: Db, r: nat, x: Round, entries: seq<Entry>, kind: EventKind, resource: Option<nat>)
    requires Inv(db) && r < |db.rounds| && kind != OptOutRequested && kind != PolicyChanged
    requires SameRoundFacts(db.rounds[r], x) && x.preorder == db.rounds[r].preorder
    requires Elsewhere(db.entries, entries, r)
    requires TurnAt(x, r, entries) && SlotsAt(x, r, entries)
    requires forall e :: 0 <= e < |entries| && entries[e].round == r ==> ProgressFits(x, entries[e], e, db.progress)
    requires RequestsInv(entries, db.requests)
    requires LocksInv(db.rounds[r := x.(version := db.rounds[r].version + 1)], db.resetting)
    requires AdvancesAt(db.rounds, r, x.(version := db.rounds[r].version + 1), db.entries, entries)
    ensures Steps(db, AnnounceEntries(db, r, x, entries, kind, resource))
  {
    hide Steps;
    var b := AnnounceEntries(db, r, x, entries, kind, resource);
    EntriesOnRound(db, r, x, entries, kind, resource);
    EntriesFit(db, b, r, x);
    OnRoundSteps(db, b, r);
  }

  lemma EntriesFit(db: Db, b: Db, r: nat, x: Round)
    requires OnRound(db, b, r) && b.progress == db.progress && b.rounds[r] == x.(version := b.rounds[r].version)
    requires PreordersDistinct(db.rounds) && x.preorder == db.rounds[r].preorder
    requires TurnAt(x, r, b.entries) && SlotsAt(x, r, b.entries)
    requires forall e :: 0 <= e < |b.entries| && b.entries[e].round == r ==>
      ProgressFits(x, b.entries[e], e, b.progress)
    requires RequestsInv(b.entries, b.requests) && LocksInv(b.rounds, b.resetting)
    ensures FitsAt(db, b, r)
  {
  }

  lemma JoinKeepsSlots(round: Round, r: nat, entries: seq<Entry>, user: nat)
    requires SlotsAt(round, r, entries) && round.lifecycle == Active && EntryOf(entries, r, user) == None
    ensures SlotsAt(round, r, entries + [FreshEntry(r, user, MaxPosition(entries, r) + 1)])
  {
    var next := entries + [FreshEntry(r, user, MaxPosition(entries, r) + 1)];
    forall e, p | 0 <= e < |next| && next[e].round == r && 1 <= p < next[e].position ensures PositionTaken(next, r, p) {
      var top := MaxPosition(entries, r);
      if p == top {
        var d :| 0 <= d < |entries| && entries[d].round == r && entries[d].position == top;
        assert next[d].round == r && next[d].position == p;
      } else {
        var d :| 0 <= d < |entries| && entries[d].round == r && entries[d].position == top;
        assert PositionTaken(entries, r, p);
        var k :| 0 <= k < |entries| && entries[k].round == r && entries[k].position == p;
        assert next[k].round == r && next[k].position == p;
      }
    }
  }

  lemma JoinKeepsTurns(round: Round, r: nat, entries: seq<Entry>, entry: Entry)
    requires TurnAt(round, r, entries) && entry.status == Waiting
    ensures TurnAt(round, r, entries + [entry])
  {
  }

  lemma JoinKeepsProgress(db: Db, r: nat, entry: Entry)
    requires ProgressInv(db.rounds, db.entries, db.progress) && r < |db.rounds|
    requires entry.status == Waiting && entry.grade == None && entry.notes == None
    ensures forall e :: 0 <= e <= |db.entries| && (db.entries + [entry])[e].round == r ==>
              ProgressFits(db.rounds[r], (db.entries + [entry])[e], e, db.progress)
  {
  }

  lemma JoinKeepsRequests(db: Db, r: nat, entry: Entry)
    requires Refs(db) && r < |db.rounds| && RequestsInv(db.entries, db.requests) && LocksInv(db.rounds, db.resetting)
    requires Activated(db.rounds) && db.rounds[r].lifecycle == Active && entry.round == r
    ensures RequestsInv(db.entries + [entry], db.requests)
    ensures LocksInv(db.rounds[r := db.rounds[r].(version := db.rounds[r].version + 1)], db.resetting)
    ensures Elsewhere(db.entries, db.entries + [entry], r)
    ensures AdvancesAt(db.rounds, r, db.rounds[r].(version := db.rounds[r].version + 1), db.entries,
                       db.entries + [entry])
  {
  }

  lemma JoinerSteps(db: Db, r: nat, user: nat, entry: Entry)
    requires Inv(db) && r < |db.rounds| && db.rounds[r].lifecycle == Active && EntryOf(db.entries, r, user) == None
    requires entry == FreshEntry(r, user, MaxPosition(db.entries, r) + 1)
    ensures Steps(db, AnnounceEntries(db, r, db.rounds[r], db.entries + [entry], EntryUpdated, Some(|db.entries|)))
  {
    hide Steps, TurnAt, SlotsAt, ProgressFits, RequestsInv, LocksInv, LogInv, Elsewhere, AdvancesAt, Numbered,
      PreordersDistinct;
    JoinKeepsTurns(db.rounds[r], r, db.entries, entry);
    JoinKeepsSlots(db.rounds[r], r, db.entries, user);
    JoinKeepsProgress(db, r, entry);
    JoinKeepsRequests(db, r, entry);
    EntriesStep(db, r, db.rounds[r], db.entries + [entry], EntryUpdated, Some(|db.entries|));
  }

  lemma JoinSteps(db: Db, s: nat, user: nat, membership: Option<Membership>)
    requires Inv(db) && DoAppendLateJoiner(db, s, user, membership).Success?
    ensures Steps(db, DoAppendLateJoiner(db, s, user, membership).value)
  {
    hide Inv, Steps;
    var r := ActiveRound(db.rounds, s);
    if db.sessions[s].status != Live || r == None || EntryOf(db.entries, r.value, user).Some?
       || membership == None || !membership.value.isStudent
       || (db.sessions[s].policy.population == AllActiveStudents && db.rounds[r.value].activatedAt.Some?
           && membership.value.joinedAt <= db.rounds[r.value].activatedAt.value)
    {
      assert DoAppendLateJoiner(db, s, user, membership) == Success(db);
      StepsSelf(db);
    } else {
      JoinerSteps(db, r.value, user, FreshEntry(r.value, user, MaxPosition(db.entries, r.value) + 1));
    }
  }

  // ------------------------------------------------------------- moving an entry

  ghost predicate PositionsDistinct(entries: seq<Entry>, r: nat) {
    forall d, e :: 0 <= d < e < |entries| && entries[d].round == r && entries[e].round == r ==>
      entries[d].position != entries[e].position
  }

  ghost function PositionSet(entries: seq<Entry>, r: nat): (taken: set<int>)
    ensures forall p :: p in taken ==> PositionTaken(entries, r, p)
    ensures forall e :: 0 <= e < |entries| && entries[e].round == r ==> entries[e].position in taken
  {
    if entries == [] then {} else
    var front, last := entries[..|entries| - 1], entries[|entries| - 1];
    var taken := PositionSet(front, r);
    assert forall p :: p in taken ==> PositionTaken(entries, r, p) by {
      forall p | p in taken ensures PositionTaken(entries, r, p) {
        var e :| 0 <= e < |front| && front[e].round == r && front[e].position == p;
        assert entries[e].round == r && entries[e].position == p;
      }
    }
    if last.round == r then taken + {last.position} else taken
  }

  lemma {:induction false} PositionSetSize(entries: seq<Entry>, r: nat)
    requires PositionsDistinct(entries, r)
    ensures |PositionSet(entries, r)| == EntryCount(entries, r)
  {
    if entries != [] {
      var front, last := entries[..|entries| - 1], entries[|entries| - 1];
      PositionSetSize(front, r);
      assert last.round == r ==> !PositionTaken(front, r, last.position);
    }
  }

  ghost function UpTo(n: nat): (s: set<int>)
    ensures forall p :: p in s <==> 1 <= p <= n
    ensures |s| == n
  {
    if n == 0 then {} else UpTo(n - 1) + {n}
  }

  lemma AllTakenUpToTop(round: Round, r: nat, entries: seq<Entry>, p: int)
    requires SlotsAt(round, r, entries)
    ensures PositionTaken(entries, r, p) <==> 1 <= p <= MaxPosition(entries, r)
  {
  }

  /** A round of n entries uses exactly the positions 1..n. */
  lemma PositionsAreOneToCount(round: Round, r: nat, entries: seq<Entry>)
    requires SlotsAt(round, r, entries)
    ensures MaxPosition(entries, r) == EntryCount(entries, r)
    ensures forall p: int :: PositionTaken(entries, r, p) <==> 1 <= p <= EntryCount(entries, r)
  {
    PositionSetSize(entries, r);
    forall p: int ensures PositionTaken(entries, r, p) <==> 1 <= p <= MaxPosition(entries, r) {
      AllTakenUpToTop(round, r, entries, p);
    }
    hide SlotsAt, PositionSet, UpTo;
    forall p: int ensures p in PositionSet(entries, r) <==> p in UpTo(MaxPosition(entries, r)) {
      assert PositionTaken(entries, r, p) <==> 1 <= p <= MaxPosition(entries, r);
    }
    assert PositionSet(entries, r) == UpTo(MaxPosition(entries, r));
  }

  /** Moving back undoes moving: both are one-to-one on the positions. */
  lemma ShiftedBack(p: int, from: int, to: int, n: nat)
    requires 1 <= from <= n && 1 <= to <= n
    ensures Shifted(Shifted(p, from, to), to, from) == p
    ensures 1 <= p <= n <==> 1 <= Shifted(p, from, to) <= n
  {
  }

  lemma MoveKeepsSlots(round: Round, r: nat, entries: seq<Entry>, from: int, to: int)
    requires SlotsAt(round, r, entries)
    requires 1 <= from <= EntryCount(entries, r) && 1 <= to <= EntryCount(entries, r)
    ensures SlotsAt(round, r, Repositioned(entries, r, from, to))
  {
    var next := Repositioned(entries, r, from, to);
    PositionsAreOneToCount(round, r, entries);
    forall d, e | 0 <= d < e < |next| && next[d].round == r && next[e].round == r
      ensures next[d].position != next[e].position {
      ShiftedBack(entries[d].position, from, to, EntryCount(entries, r));
      ShiftedBack(entries[e].position, from, to, EntryCount(entries, r));
    }
    forall e, p | 0 <= e < |next| && next[e].round == r && 1 <= p < next[e].position ensures PositionTaken(next, r, p) {
      assert PositionTaken(entries, r, entries[e].position);
      ShiftedBack(entries[e].position, from, to, EntryCount(entries, r));
      ShiftedBack(p, to, from, EntryCount(entries, r));
      assert PositionTaken(entries, r, Shifted(p, to, from));
      var k :| 0 <= k < |entries| && entries[k].round == r && entries[k].position == Shifted(p, to, from);
      assert next[k].round == r && next[k].position == p;
    }
    forall e | 0 <= e < |next| && next[e].round == r ensures next[e].position >= 1 {
      assert PositionTaken(entries, r, entries[e].position);
      ShiftedBack(entries[e].position, from, to, EntryCount(entries, r));
    }
  }

  /** Rewriting the entries of one round row by row, statuses and marks kept. */
  ghost predicate OnlyPlaced(a: seq<Entry>, b: seq<Entry>, r: nat) {
    && |a| == |b|
    && (forall e :: 0 <= e < |a| && a[e].round != r ==> b[e] == a[e])
    && (forall e :: 0 <= e < |a| && a[e].round == r ==>
          b[e] == a[e].(position := b[e].position, version := a[e].version + 1))
  }

  lemma PlacingKeepsTurns(round: Round, r: nat, a: seq<Entry>, b: seq<Entry>)
    requires TurnAt(round, r, a) && OnlyPlaced(a, b, r)
    ensures TurnAt(round, r, b)
  {
  }

  lemma PlacingKeepsRows(db: Db, r: nat, b: seq<Entry>)
    requires Refs(db) && r < |db.rounds| && OnlyPlaced(db.entries, b, r)
    requires RequestsInv(db.entries, db.requests) && LocksInv(db.rounds, db.resetting)
    requires Activated(db.rounds) && db.rounds[r].lifecycle == Active
    requires ProgressInv(db.rounds, db.entries, db.progress)
    ensures RequestsInv(b, db.requests) && Elsewhere(db.entries, b, r)
    ensures LocksInv(db.rounds[r := db.rounds[r].(version := db.rounds[r].version + 1)], db.resetting)
    ensures AdvancesAt(db.rounds, r, db.rounds[r].(version := db.rounds[r].version + 1), db.entries, b)
    ensures forall e :: 0 <= e < |b| && b[e].round == r ==> ProgressFits(db.rounds[r], b[e], e, db.progress)
  {
    forall e | 0 <= e < |b| && b[e].round == r ensures ProgressFits(db.rounds[r], b[e], e, db.progress) {
      assert ProgressFits(db.rounds[r], db.entries[e], e, db.progress);
    }
  }

  lemma MoveSteps(db: Db, e: nat, expected: int, position: int)
    requires Inv(db) && DoMove(db, e, expected, position).Success?
    ensures Steps(db, DoMove(db, e, expected, position).value)
  {
    hide Steps, TurnAt, SlotsAt, ProgressFits, RequestsInv, LocksInv, LogInv, Elsewhere, AdvancesAt, Numbered;
    var r, from := db.entries[e].round, db.entries[e].position;
    var next := Repositioned(db.entries, r, from, position);
    PositionsAreOneToCount(db.rounds[r], r, db.entries);
    assert PositionTaken(db.entries, r, from);
    MoveKeepsSlots(db.rounds[r], r, db.entries, from, position);
    PlacingKeepsTurns(db.rounds[r], r, db.entries, next);
    PlacingKeepsRows(db, r, next);
    EntriesStep(db, r, db.rounds[r], next, Reordered, Some(e));
  }

  // ------------------------------------------------------------ closing a round

  lemma CutKeepsSlots(round: Round, x: Round, r: nat, entries: seq<Entry>, next: seq<Entry>)
    requires SlotsAt(round, r, entries) && x.lifecycle != Prepared && |next| == |entries|
    requires forall e :: 0 <= e < |entries| ==>
               next[e].round == entries[e].round && next[e].student == entries[e].student
                 && next[e].position == entries[e].position
    ensures SlotsAt(x, r, next)
  {
    forall e, p | 0 <= e < |next| && next[e].round == r && 1 <= p < next[e].position ensures PositionTaken(next, r, p) {
      assert PositionTaken(entries, r, p);
      var k :| 0 <= k < |entries| && entries[k].round == r && entries[k].position == p;
      assert next[k].round == r && next[k].position == p;
    }
  }

  lemma CutKeepsRows(db: Db, r: nat, actor: Option<nat>, next: seq<Entry>)
    requires Refs(db) && r < |db.rounds|
    requires next == SkipUnfinished(db.entries, r, actor) || next == db.entries
    requires TurnAt(db.rounds[r], r, db.entries) && RequestsInv(db.entries, db.requests)
    requires ProgressInv(db.rounds, db.entries, db.progress)
    ensures RequestsInv(next, db.requests) && Elsewhere(db.entries, next, r)
    ensures TurnAt(db.rounds[r].(lifecycle := Finalized, selected := None), r, next)
    ensures forall e :: 0 <= e < |next| && next[e].round == r ==>
      ProgressFits(db.rounds[r].(lifecycle := Finalized, selected := None), next[e], e, db.progress)
  {
    forall e | 0 <= e < |next| && next[e].round == r
      ensures ProgressFits(db.rounds[r].(lifecycle := Finalized, selected := None), next[e], e, db.progress)
    {
      assert ProgressFits(db.rounds[r], db.entries[e], e, db.progress);
    }
  }

  lemma CutAdvances(rounds: seq<Round>, r: nat, entries: seq<Entry>, actor: Option<nat>, next: seq<Entry>)
    requires Activated(rounds) && r < |rounds| && rounds[r].lifecycle != Finalized
    requires next == SkipUnfinished(entries, r, actor) || next == entries
    ensures AdvancesAt(rounds, r,
                       rounds[r].(lifecycle := Finalized, selected := None, version := rounds[r].version + 1),
                       entries, next)
  {
  }

  lemma FinalizeSteps(db: Db, r: nat, actor: Option<nat>)
    requires Inv(db) && r < |db.rounds| && db.rounds[r].lifecycle != Finalized && db.rounds[r].session !in db.resetting
    ensures Steps(db, FinalizeRound(db, r, actor))
  {
    hide Steps, TurnAt, SlotsAt, ProgressFits, RequestsInv, LogInv, Elsewhere, AdvancesAt, Numbered;
    var policy := db.sessions[db.rounds[r].session].policy.finalization;
    var next := if policy == MarkUnfinishedSkipped then SkipUnfinished(db.entries, r, actor) else db.entries;
    var x := db.rounds[r].(lifecycle := Finalized, selected := None);
    CutKeepsSlots(db.rounds[r], x, r, db.entries, next);
    CutKeepsRows(db, r, actor, next);
    CutAdvances(db.rounds, r, db.entries, actor, next);
    EntriesStep(db, r, x, next, RoundFinalized, None);
  }

  // ----------------------------------------------------------- creating a round

  lemma {:induction false} NothingLogged(outbox: seq<Event>, r: nat)
    requires forall k :: 0 <= k < |outbox| ==> outbox[k].round != r
    ensures LogOf(outbox, r) == []
  {
    if outbox != [] {
      NothingLogged(outbox[..|outbox| - 1], r);
    }
  }

  lemma NewRoundNumbers(rounds: seq<Round>, x: Round)
    requires RoundsInv(rounds) && x.number == MaxNumber(rounds, x.session) + 1
    requires x.lifecycle == Prepared && x.activatedAt == None && NoDuplicates(x.preorder)
    ensures RoundsInv(rounds + [x])
  {
    hide MaxNumber;
    forall q, n | 0 <= q <= |rounds| && 1 <= n < (rounds + [x])[q].number
      ensures NumberTaken(rounds + [x], (rounds + [x])[q].session, n)
    {
      EarlierTaken(rounds, x, q, n);
    }
  }

  lemma EarlierTaken(rounds: seq<Round>, x: Round, q: nat, n: int)
    requires Numbered(rounds) && x.number == MaxNumber(rounds, x.session) + 1
    requires q <= |rounds| && 1 <= n < (rounds + [x])[q].number
    ensures NumberTaken(rounds + [x], (rounds + [x])[q].session, n)
  {
    var s := (rounds + [x])[q].session;
    AllNumbersTaken(rounds, s, n);
    KeepsTaken(rounds, x, s, n);
  }

  lemma AllNumbersTaken(rounds: seq<Round>, s: nat, n: int)
    requires Numbered(rounds)
    ensures NumberTaken(rounds, s, n) <==> 1 <= n <= MaxNumber(rounds, s)
  {
  }

  lemma KeepsTaken(rounds: seq<Round>, x: Round, s: nat, n: int)
    requires NumberTaken(rounds, s, n)
    ensures NumberTaken(rounds + [x], s, n)
  {
    var k :| 0 <= k < |rounds| && rounds[k].session == s && rounds[k].number == n;
    assert (rounds + [x])[k] == rounds[k];
  }

  lemma NewRoundTables(db: Db, x: Round)
    requires Inv(db) && x.selected == None && x.version == 1
    ensures var rounds := db.rounds + [x];
      && TurnsInv(rounds, db.entries)
      && SlotsInv(rounds, db.entries)
      && LogInv(rounds, db.outbox)
  {
    var rounds := db.rounds + [x];
    NothingLogged(db.outbox, |db.rounds|);
    forall r | 0 <= r < |rounds| ensures TurnAt(rounds[r], r, db.entries) && SlotsAt(rounds[r], r, db.entries) {
      if r < |db.rounds| {
        assert TurnAt(db.rounds[r], r, db.entries) && SlotsAt(db.rounds[r], r, db.entries);
      }
    }
  }

  lemma NewRoundProgress(db: Db, x: Round)
    requires Refs(db) && ProgressInv(db.rounds, db.entries, db.progress)
    ensures ProgressInv(db.rounds + [x], db.entries, db.progress)
  {
  }

  lemma NewRoundEvolves(db: Db, x: Round)
    requires Refs(db) && RoundsInv(db.rounds) && x.session < |db.sessions| && db.sessions[x.session].status != Ended
    requires x.activatedAt == None
    ensures Evolves(db, db.(rounds := db.rounds + [x]))
  {
  }

  lemma CreateSteps(db: Db, s: nat, input: RoundInput, roster: Roster)
    requires Inv(db) && s < |db.sessions| && db.sessions[s].status != Ended && NoDuplicates(input.preorder)
    requires CreateRound(db, s, input, roster).Success?
    ensures Steps(db, CreateRound(db, s, input, roster).value)
  {
    hide TurnsInv, SlotsInv, ProgressInv, LogInv, RequestsInv, RoundsInv, Evolves;
    var b := CreateRound(db, s, input, roster).value;
    var x := b.rounds[|db.rounds|];
    NewRoundNumbers(db.rounds, x);
    NewRoundTables(db, x);
    NewRoundProgress(db, x);
    NewRoundEvolves(db, x);
  }

  // ---------------------------------------------------------- activating a round

  /** The first k entries an activation materializes. */
  function Rows(r: nat, students: seq<nat>, k: nat): (rows: seq<Entry>)
    requires k <= |students|
    ensures |rows| == k && forall i :: 0 <= i < k ==> rows[i] == FreshEntry(r, students[i], i + 1)
  {
    seq(k, i requires 0 <= i < k => FreshEntry(r, students[i], i + 1))
  }

  ghost predicate NoEntries(entries: seq<Entry>, r: nat) {
    forall e :: 0 <= e < |entries| ==> entries[e].round != r
  }

  lemma ClashIsRepeat(base: seq<Entry>, r: nat, students: seq<nat>, k: nat)
    requires NoEntries(base, r) && k < |students| && NoDuplicates(students[..k])
    ensures Clashes(base + Rows(r, students, k), r, students[k], k + 1) <==> !NoDuplicates(students[..k + 1])
  {
    var entries := base + Rows(r, students, k);
    if !NoDuplicates(students[..k + 1]) {
      var i :| 0 <= i < k && students[i] == students[k];
      assert entries[|base| + i] == FreshEntry(r, students[i], i + 1);
    }
    if Clashes(entries, r, students[k], k + 1) {
      var e :| 0 <= e < |entries| && entries[e].round == r
        && (entries[e].student == students[k] || entries[e].position == k + 1);
      assert entries[e] == FreshEntry(r, students[e - |base|], e - |base| + 1);
      assert students[..k + 1][e - |base|] == students[..k + 1][k];
    }
  }

  /** Into a round without entries, a list of students is inserted exactly when it has no repetition. */
  lemma {:induction false} InsertsAll(base: seq<Entry>, r: nat, students: seq<nat>, k: nat)
    requires NoEntries(base, r) && k <= |students| && NoDuplicates(students[..k])
    ensures InsertEntries(base + Rows(r, students, k), r, students, k)
            == if NoDuplicates(students) then Success(base + Rows(r, students, |students|))
               else Failure(ConstraintViolation)
    decreases |students| - k
  {
    if k == |students| {
      assert students[..k] == students;
    } else {
      ClashIsRepeat(base, r, students, k);
      if NoDuplicates(students[..k + 1]) {
        assert base + Rows(r, students, k + 1) == base + Rows(r, students, k) + [FreshEntry(r, students[k], k + 1)];
        InsertsAll(base, r, students, k + 1);
      } else {
        assert students[..k + 1] == students[..k] + [students[k]];
        assert !NoDuplicates(students);
      }
    }
  }

  lemma RowsFit(x: Round, r: nat, base: seq<Entry>, students: seq<nat>)
    requires NoEntries(base, r) && NoDuplicates(students)
    requires x.lifecycle == Active && x.selected == None
    ensures var entries := base + Rows(r, students, |students|);
      TurnAt(x, r, entries) && SlotsAt(x, r, entries) && Elsewhere(base, entries, r)
  {
    var entries := base + Rows(r, students, |students|);
    forall e, p | 0 <= e < |entries| && entries[e].round == r && 1 <= p < entries[e].position
      ensures PositionTaken(entries, r, p) {
      assert entries[|base| + p - 1] == FreshEntry(r, students[p - 1], p);
    }
  }

  lemma RowsKeepTables(db: Db, r: nat, x: Round, students: seq<nat>, entries: seq<Entry>)
    requires Refs(db) && r < |db.rounds| && NoEntries(db.entries, r)
    requires RequestsInv(db.entries, db.requests) && ProgressInv(db.rounds, db.entries, db.progress)
    requires entries == db.entries + Rows(r, students, |students|)
    ensures RequestsInv(entries, db.requests)
    ensures forall e :: 0 <= e < |entries| && entries[e].round == r ==> ProgressFits(x, entries[e], e, db.progress)
  {
  }

  lemma ActivationAdvances(rounds: seq<Round>, s: nat, r: nat, x: Round, before: seq<Entry>, after: seq<Entry>)
    requires Activated(rounds) && NoEntries(before, r) && |before| <= |after|
    requires ActiveRound(rounds, s) == None && LowestPrepared(rounds, s) == Some(r)
    requires x == rounds[r].(lifecycle := Active, activatedAt := x.activatedAt, version := x.version)
      && x.activatedAt.Some?
    ensures AdvancesAt(rounds, r, x, before, after)
  {
  }

  lemma PreparedHasNoEntries(db: Db, r: nat)
    requires Inv(db) && r < |db.rounds| && db.rounds[r].lifecycle == Prepared
    ensures NoEntries(db.entries, r) && db.rounds[r].selected == None
  {
  }

  lemma MaterializeSteps(db: Db, s: nat, r: nat, students: seq<nat>, x: Round)
    requires Inv(db) && s < |db.sessions| && s !in db.resetting && NoDuplicates(students)
    requires ActiveRound(db.rounds, s) == None && LowestPrepared(db.rounds, s) == Some(r)
    requires x == db.rounds[r].(lifecycle := Active, activatedAt := x.activatedAt) && x.activatedAt.Some?
    ensures Steps(db, AnnounceEntries(db, r, x, db.entries + Rows(r, students, |students|), RoundStarted, None))
  {
    hide Steps, TurnAt, SlotsAt, ProgressFits, RequestsInv, LogInv, Elsewhere, AdvancesAt, Numbered;
    var entries := db.entries + Rows(r, students, |students|);
    PreparedHasNoEntries(db, r);
    RowsFit(x, r, db.entries, students);
    RowsKeepTables(db, r, x, students, entries);
    ActivationAdvances(db.rounds, s, r, x.(version := x.version + 1), db.entries, entries);
    EntriesStep(db, r, x, entries, RoundStarted, None);
  }

  /** What an activation does when there is a prepared round to open. */
  lemma ActivationResult(db: Db, s: nat, r: nat, students: seq<nat>, roster: Roster, now: int)
    requires Inv(db) && s < |db.sessions|
    requires ActiveRound(db.rounds, s) == None && LowestPrepared(db.rounds, s) == Some(r)
    requires students == PopulationOrder(db.rounds[r].preorder, db.sessions[s].policy.population, roster)
    ensures ActivateLowest(db, s, roster, now) ==
      if NoDuplicates(students) then
        Success(AnnounceEntries(db, r, db.rounds[r].(lifecycle := Active, activatedAt := Some(now)),
                                db.entries + Rows(r, students, |students|), RoundStarted, None))
      else Failure(ConstraintViolation)
  {
    hide Inv, PopulationOrder, ActiveRound, LowestPrepared, InsertEntries, NoDuplicates;
    PreparedHasNoEntries(db, r);
    assert db.entries + Rows(r, students, 0) == db.entries;
    InsertsAll(db.entries, r, students, 0);
  }

  lemma ActivateSteps(db: Db, s: nat, roster: Roster, now: int)
    requires Inv(db) && s < |db.sessions| && s !in db.resetting
    requires ActivateLowest(db, s, roster, now).Success?
    ensures Steps(db, ActivateLowest(db, s, roster, now).value)
  {
    hide Inv, Steps;
    if ActiveRound(db.rounds, s).Some? || LowestPrepared(db.rounds, s) == None {
      StepsSelf(db);
    } else {
      var r := LowestPrepared(db.rounds, s).value;
      var students := PopulationOrder(db.rounds[r].preorder, db.sessions[s].policy.population, roster);
      ActivationResult(db, s, r, students, roster, now);
      MaterializeSteps(db, s, r, students, db.rounds[r].(lifecycle := Active, activatedAt := Some(now)));
    }
  }

  // -------------------------------------------------------------- steps compose

  lemma GrowsTogether(a: Db, b: Db, c: Db)
    requires Grows(a, b) && Grows(b, c)
    ensures Grows(a, c)
  {
  }

  lemma VersionsTogether(a: Db, b: Db, c: Db)
    requires Grows(a, b) && Grows(b, c) && VersionsIdentify(a, b) && VersionsIdentify(b, c)
    ensures VersionsIdentify(a, c)
  {
  }

  lemma FinalizedTogether(a: Db, b: Db, c: Db)
    requires Grows(a, b) && Grows(b, c) && FinalizedStays(a, b) && FinalizedStays(b, c)
    ensures FinalizedStays(a, c)
  {
  }

  lemma ForwardTogether(a: Db, b: Db, c: Db)
    requires Grows(a, b) && Grows(b, c) && Forward(a, b) && Forward(b, c)
    ensures Forward(a, c)
  {
  }

  lemma ActivatesTogether(a: Db, b: Db, c: Db)
    requires Grows(a, b) && Grows(b, c) && ActivatesUpward(a, b) && ActivatesUpward(b, c)
    ensures ActivatesUpward(a, c)
  {
  }

  lemma StepsTogether(a: Db, b: Db, c: Db)
    requires Steps(a, b) && Steps(b, c)
    ensures Steps(a, c)
  {
    hide Inv, Grows, VersionsIdentify, FinalizedStays, Forward, ActivatesUpward;
    GrowsTogether(a, b, c);
    VersionsTogether(a, b, c);
    FinalizedTogether(a, b, c);
    ForwardTogether(a, b, c);
    ActivatesTogether(a, b, c);
  }

  // ---------------------------------------------------------- composite commands

  lemma PrepareSteps(db: Db, s: nat, input: RoundInput, roster: Roster, now: int)
    requires Inv(db) && DoPrepare(db, s, input, roster, now).Success?
    ensures Steps(db, DoPrepare(db, s, input, roster, now).value)
  {
    hide Inv, Evolves, PopulationOrder;
    CreateSteps(db, s, input, roster);
    var created := CreateRound(db, s, input, roster).value;
    if db.sessions[s].status != Planned {
      ActivateSteps(created, s, roster, now);
      StepsTogether(db, created, ActivateLowest(created, s, roster, now).value);
    }
  }

  lemma ActivateIfNeededSteps(db: Db, s: nat, roster: Roster, now: int)
    requires Inv(db) && DoActivateIfNeeded(db, s, roster, now).Success?
    ensures Steps(db, DoActivateIfNeeded(db, s, roster, now).value)
  {
    hide Inv, Evolves;
    StepsSelf(db);
    if db.sessions[s].status == Live {
      ActivateSteps(db, s, roster, now);
    }
  }

  lemma FinalizeActiveSteps(db: Db, s: nat, actor: Option<nat>)
    requires Inv(db) && DoFinalizeActiveRound(db, s, actor).Success?
    ensures Steps(db, DoFinalizeActiveRound(db, s, actor).value)
  {
    hide Inv, Evolves;
    StepsSelf(db);
    if ActiveRound(db.rounds, s).Some? {
      FinalizeSteps(db, ActiveRound(db.rounds, s).value, actor);
    }
  }

  lemma ConvergeSteps(db: Db, r: nat)
    requires Inv(db) && DoConvergeRound(db, r).Success?
    ensures Steps(db, DoConvergeRound(db, r).value)
  {
    hide RoundsInv, TurnsInv, SlotsInv, ProgressInv, LogInv, RequestsInv, LocksInv, Evolves;
    StepsSelf(db);
    if db.rounds[r].lifecycle != Finalized {
      FinalizeSteps(db, r, None);
    }
  }

  /** Finalizing and creating the successor, before any lock is recorded. */
  lemma CloseSteps(db: Db, s: nat, input: RoundInput, roster: Roster, actor: Option<nat>)
    requires Inv(db) && DoResetClose(db, s, input, roster, actor).Success?
    ensures DoResetClose(db, s, input, roster, actor).value.resetting == db.resetting[s := |db.rounds|]
    ensures var closed := DoResetClose(db, s, input, roster, actor).value.(resetting := db.resetting);
      && Steps(db, closed)
      && |closed.rounds| == |db.rounds| + 1
      && closed.rounds[|db.rounds|].session == s && closed.rounds[|db.rounds|].lifecycle == Prepared
      && closed.sessions == db.sessions
      && (forall r :: 0 <= r < |closed.rounds| && closed.rounds[r].session == s ==>
            closed.rounds[r].lifecycle != Active)
  {
    hide TurnsInv, SlotsInv, ProgressInv, LogInv, RequestsInv, LocksInv, Evolves, Numbered;
    var r := ActiveRound(db.rounds, s).value;
    var finalized := FinalizeRound(db, r, actor);
    FinalizeSteps(db, r, actor);
    CreateSteps(finalized, s, input, roster);
    StepsTogether(db, finalized, CreateRound(finalized, s, input, roster).value);
  }

  lemma ResetCloseSteps(db: Db, s: nat, input: RoundInput, roster: Roster, actor: Option<nat>)
    requires Inv(db) && DoResetClose(db, s, input, roster, actor).Success?
    ensures Steps(db, DoResetClose(db, s, input, roster, actor).value)
    ensures var b := DoResetClose(db, s, input, roster, actor).value;
      && b.resetting == db.resetting[s := |db.rounds|]
      && |b.rounds| == |db.rounds| + 1 && b.rounds[|db.rounds|].session == s
      && b.rounds[|db.rounds|].lifecycle == Prepared
  {
    hide Refs, RoundsInv, TurnsInv, SlotsInv, ProgressInv, LogInv, RequestsInv, Evolves;
    var b := DoResetClose(db, s, input, roster, actor).value;
    var closed := b.(resetting := db.resetting);
    CloseSteps(db, s, input, roster, actor);
    LockSteps(closed, b);
    StepsTogether(db, closed, b);
  }

  /** Taking or releasing a lock changes nothing else. */
  lemma LockSteps(a: Db, b: Db)
    requires Inv(a) && b == a.(resetting := b.resetting) && LocksInv(b.rounds, b.resetting) && LocksOnlyLive(a, b)
    ensures Steps(a, b)
  {
    hide RoundsInv, TurnsInv, SlotsInv, ProgressInv, Evolves;
    QuietSteps(a, b);
  }

  lemma ResetSteps(db: Db, s: nat, input: RoundInput, roster: Roster, actor: Option<nat>, now: int)
    requires Inv(db) && DoReset(db, s, input, roster, actor, now).Success?
    ensures Steps(db, DoReset(db, s, input, roster, actor, now).value)
  {
    hide Refs, RoundsInv, TurnsInv, SlotsInv, ProgressInv, LogInv, RequestsInv, LocksInv, Evolves;
    CloseSteps(db, s, input, roster, actor);
    var closed := DoResetClose(db, s, input, roster, actor).value.(resetting := db.resetting);
    ActivateSteps(closed, s, roster, now);
    StepsTogether(db, closed, ActivateLowest(closed, s, roster, now).value);
  }

  lemma ReleaseSteps(db: Db, s: nat)
    requires Inv(db)
    ensures Steps(db, db.(resetting := db.resetting - {s}))
  {
    hide Refs, RoundsInv, TurnsInv, SlotsInv, ProgressInv, LogInv, RequestsInv, Evolves;
    LockSteps(db, db.(resetting := db.resetting - {s}));
  }

  lemma ResetOpenSteps(db: Db, s: nat, roster: Roster, now: int)
    requires Inv(db) && DoResetOpen(db, s, roster, now).Success?
    ensures Steps(db, DoResetOpen(db, s, roster, now).value)
  {
    hide Inv, Evolves;
    var released := db.(resetting := db.resetting - {s});
    ReleaseSteps(db, s);
    ActivateSteps(released, s, roster, now);
    StepsTogether(db, released, ActivateLowest(released, s, roster, now).value);
  }

  // --------------------------------------------------------------- session facts

  lemma SessionSteps(db: Db, b: Db)
    requires Inv(db) && b == db.(sessions := b.sessions, outbox := b.outbox)
    requires |db.sessions| <= |b.sessions|
    requires forall s :: 0 <= s < |db.sessions| && db.sessions[s].status == Ended ==> b.sessions[s].status == Ended
    requires b.outbox == db.outbox || (|b.outbox| == |db.outbox| + 1 && b.outbox == db.outbox + [b.outbox[|db.outbox|]]
             && b.outbox[|db.outbox|].kind == PolicyChanged && b.outbox[|db.outbox|].round < |db.rounds|)
    ensures Steps(db, b)
  {
    hide RoundsInv, TurnsInv, SlotsInv, ProgressInv, Evolves, RequestsInv, LocksInv, Refs;
    if b.outbox != db.outbox {
      LogIgnores(db.rounds, db.outbox, b.outbox[|db.outbox|]);
    }
    QuietSteps(db, b);
  }

  lemma PolicySteps(db: Db, s: nat, isManager: bool, expected: int, policy: Policy)
    requires Inv(db) && DoUpdatePolicy(db, s, isManager, expected, policy).Success?
    ensures Steps(db, DoUpdatePolicy(db, s, isManager, expected, policy).value)
  {
    hide Inv, Steps;
    StepsSelf(db);
    SessionSteps(db, DoUpdatePolicy(db, s, isManager, expected, policy).value);
  }

  lemma StatusSteps(db: Db, s: nat, from: SessionStatus, to: SessionStatus)
    requires Inv(db) && from != Ended && SetStatus(db, s, from, to).Success?
    ensures Steps(db, SetStatus(db, s, from, to).value)
  {
    hide Inv, Steps;
    SessionSteps(db, SetStatus(db, s, from, to).value);
  }

  lemma NewSessionSteps(db: Db, policy: Policy)
    requires Inv(db)
    ensures Steps(db, db.(sessions := db.sessions + [Session(Planned, policy)]))
  {
    hide Inv, Steps;
    SessionSteps(db, db.(sessions := db.sessions + [Session(Planned, policy)]));
  }

  lemma ApplySteps(db: Db, c: Command)
    requires Inv(db) && Apply(db, c).Success?
    ensures Steps(db, Apply(db, c).value)
  {
    hide Inv, Steps;
    match c
    case CreateSession(policy) => NewSessionSteps(db, policy);
    case StartSession(s) => StatusSteps(db, s, Planned, Live);
    case EndSession(s) => StatusSteps(db, s, Live, Ended);
    case Prepare(s, input, roster, now) => PrepareSteps(db, s, input, roster, now);
    case ActivateIfNeeded(s, roster, now) => ActivateIfNeededSteps(db, s, roster, now);
    case Reorder(r, expected, students, roster) => ReorderSteps(db, r, expected, students, roster);
    case Move(e, expected, position) => MoveSteps(db, e, expected, position);
    case AppendLateJoiner(s, user, membership) => JoinSteps(db, s, user, membership);
    case FinalizeActiveRound(s, actor) => FinalizeActiveSteps(db, s, actor);
    case Reset(s, input, roster, actor, now) => ResetSteps(db, s, input, roster, actor, now);
    case ResetClose(s, input, roster, actor) => ResetCloseSteps(db, s, input, roster, actor);
    case ResetOpen(s, roster, now) => ResetOpenSteps(db, s, roster, now);
    case ResetAbandon(s) => ReleaseSteps(db, s);
    case Advance(r, expected) => AdvanceSteps(db, r, expected);
    case Start(e, expected) => StartSteps(db, e, expected);
    case Complete(e, expected, actor, grade, notes) => CompleteSteps(db, e, expected, actor, grade, notes);
    case Correct(e, expected, grade, notes) => CorrectSteps(db, e, expected, grade, notes);
    case Skip(e, expected, actor) => SkipSteps(db, e, expected, actor);
    case RequestOptOut(s, student) => RequestSteps(db, s, student);
    case Decide(route, q, manager, decision, expected) => DecideSteps(db, route, q, manager, decision, expected);
    case UpdatePolicy(s, isManager, expected, policy) => PolicySteps(db, s, isManager, expected, policy);
    case ConvergeRound(r) => ConvergeSteps(db, r);
  }
}
