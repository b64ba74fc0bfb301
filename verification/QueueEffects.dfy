/** What each committed command does, seen from outside, and everything it leaves alone. */
module QueueEffects {
  import opened Wrappers
  import opened QueueModel
  import opened QueueInvariants
  import opened QueueSteps
  import opened QueueRuns
  import opened QueueVerdicts

  // ------------------------------------------------------------------- frames

  /** Nothing but round r and its entries may differ, apart from requests, progress and the outbox. */
  ghost predicate OnlyRound(a: Db, b: Db, r: nat) {
    && r < |a.rounds| && |b.rounds| == |a.rounds| && b.sessions == a.sessions && b.resetting == a.resetting
    && (forall q :: 0 <= q < |a.rounds| && q != r ==> b.rounds[q] == a.rounds[q])
    && Elsewhere(a.entries, b.entries, r)
  }

  /** Within round r, nothing but entry e and the round's selection and version. */
  ghost predicate OnlyEntry(a: Db, b: Db, r: nat, e: nat) {
    && OnlyRound(a, b, r) && e < |a.entries| && a.entries[e].round == r && |b.entries| == |a.entries|
    && (forall d :: 0 <= d < |a.entries| && d != e ==> b.entries[d] == a.entries[d])
    && b.entries[e].student == a.entries[e].student && b.entries[e].position == a.entries[e].position
    && b.rounds[r] == a.rounds[r].(selected := b.rounds[r].selected, version := b.rounds[r].version)
  }

  ghost predicate OnlyRecord(a: Db, b: Db, e: nat) {
    forall d :: d != e ==>
      (d in b.progress <==> d in a.progress) && (d in a.progress ==> b.progress[d] == a.progress[d])
  }

  ghost predicate SamePeripherals(a: Db, b: Db) { b.requests == a.requests && b.progress == a.progress }

  /** e is the one entry reciting in round r. */
  ghost predicate Recites(entries: seq<Entry>, r: nat, e: nat) {
    forall d :: 0 <= d < |entries| && entries[d].round == r ==> (entries[d].status == Reciting <==> d == e)
  }

  /** Round r takes its next version, and one event carries it. */
  ghost predicate Announced(a: Db, b: Db, r: nat, kind: EventKind, resource: Option<nat>) {
    && r < |a.rounds| && r < |b.rounds| && b.rounds[r].version == a.rounds[r].version + 1
    && b.outbox == a.outbox + [Event(kind, a.rounds[r].session, r, resource, a.rounds[r].version + 1)]
  }

  /** The round's selection is dropped exactly if it was e. */
  ghost predicate Deselects(a: Db, b: Db, r: nat, e: nat)
    requires r < |a.rounds| && r < |b.rounds|
  {
    b.rounds[r].selected == if a.rounds[r].selected == Some(e) then None else a.rounds[r].selected
  }

  // --------------------------------------------------------------------- turns

  /** The selected waiting entry becomes the only one reciting. */
  lemma StartEffect(db: Db, e: nat, expected: int)
    requires Refs(db) && TurnsInv(db.rounds, db.entries) && DoStart(db, e, expected).Success?
    ensures var b := DoStart(db, e, expected).value; var r := db.entries[e].round;
      && OnlyEntry(db, b, r, e) && SamePeripherals(db, b)
      && db.entries[e].status == Waiting && db.rounds[r].selected == Some(e) == b.rounds[r].selected
      && Recites(b.entries, r, e)
      && b.entries[e] == db.entries[e].(status := Reciting, grade := None, notes := None, resolvedBy := None,
                                        version := db.entries[e].version + 1)
      && Announced(db, b, r, EntryUpdated, Some(e))
  {
    assert TurnAt(db.rounds[db.entries[e].round], db.entries[e].round, db.entries);
  }

  /** The one reciting entry completes: it gains its progress row, and the round its silence. */
  lemma CompleteEffect(db: Db, e: nat, expected: int, actor: nat, grade: Option<Grade>, notes: Option<string>)
    requires Refs(db) && TurnsInv(db.rounds, db.entries) && ProgressInv(db.rounds, db.entries, db.progress)
      && DoComplete(db, e, expected, actor, grade, notes).Success?
    ensures var b := DoComplete(db, e, expected, actor, grade, notes).value; var r := db.entries[e].round;
      && OnlyEntry(db, b, r, e) && OnlyRecord(db, b, e) && b.requests == db.requests
      && Recites(db.entries, r, e) && !AnyReciting(b.entries, r) && b.rounds[r].selected == None
      && b.entries[e].status == Completed && b.entries[e].grade == grade && b.entries[e].notes == notes
      && (grade.Some? <==> db.rounds[r].gradingRequired)
      && e !in db.progress && e in b.progress
      && var was, round := db.entries[e], db.rounds[r];
      && b.progress[e] == Progress(was.student, round.session, round.surah, round.fromAyah, round.toAyah, round.kind,
                                   grade, notes)
      && b.entries[e] == was.(status := Completed, grade := grade, notes := notes, resolvedBy := Some(actor),
                              version := was.version + 1)
      && Announced(db, b, r, GradeSubmitted, Some(e))
  {
    var r := db.entries[e].round;
    assert TurnAt(db.rounds[r], r, db.entries);
    assert ProgressFits(db.rounds[r], db.entries[e], e, db.progress);
  }

  /** Grade and note change, on the entry and its progress row alike, and nothing else but versions. */
  lemma CorrectEffect(db: Db, e: nat, expected: int, grade: Option<Grade>, notes: Option<string>)
    requires Refs(db) && TurnsInv(db.rounds, db.entries) && ProgressInv(db.rounds, db.entries, db.progress)
      && DoCorrect(db, e, expected, grade, notes).Success?
    ensures var b := DoCorrect(db, e, expected, grade, notes).value; var r := db.entries[e].round;
      && OnlyEntry(db, b, r, e) && OnlyRecord(db, b, e) && b.requests == db.requests
      && SameButMarks(db.entries[e], b.entries[e]) && b.rounds[r].selected == db.rounds[r].selected
      && e in db.progress && e in b.progress
      && b.progress[e] == db.progress[e].(grade := b.entries[e].grade, notes := b.entries[e].notes)
      && b.entries[e].version == db.entries[e].version + 1
      && b.entries[e].grade == (if grade.Some? then grade else db.entries[e].grade)
      && (notes == None ==> b.entries[e].notes == db.entries[e].notes)
      && (notes.Some? ==> b.entries[e].notes == if |notes.value| == 0 then None else notes)
      && Announced(db, b, r, GradeSubmitted, Some(e))
  {
    var r := db.entries[e].round;
    assert TurnAt(db.rounds[r], r, db.entries);
    assert ProgressFits(db.rounds[r], db.entries[e], e, db.progress);
  }

  /** An unfinished entry is skipped, and the selection passes from nobody but it. */
  lemma SkipEffect(db: Db, e: nat, expected: int, actor: nat)
    requires Refs(db) && DoSkip(db, e, expected, actor).Success?
    ensures var b := DoSkip(db, e, expected, actor).value; var r := db.entries[e].round;
      && OnlyEntry(db, b, r, e) && SamePeripherals(db, b)
      && Unfinished(db.entries[e].status)
      && b.entries[e] == db.entries[e].(status := Skipped, grade := None, notes := None, resolvedBy := Some(actor),
                                        version := db.entries[e].version + 1)
      && Deselects(db, b, r, e) && Announced(db, b, r, EntryUpdated, Some(e))
  {
  }

  /** Of all waiting entries but the selected one, the first is selected; nobody was reciting; no entry changes. */
  lemma AdvanceEffect(db: Db, r: nat, expected: int)
    requires Refs(db) && DoAdvance(db, r, expected).Success?
    ensures var b := DoAdvance(db, r, expected).value;
      && OnlyRound(db, b, r) && b.entries == db.entries && SamePeripherals(db, b)
      && b.rounds[r] == db.rounds[r].(selected := b.rounds[r].selected, version := b.rounds[r].version)
      && Announced(db, b, r, Advanced, b.rounds[r].selected)
      && !AnyReciting(db.entries, r) && b.rounds[r].selected.Some? && b.rounds[r].selected != db.rounds[r].selected
      && var e := b.rounds[r].selected.value;
      && e < |db.entries| && db.entries[e].round == r && db.entries[e].status == Waiting
      && forall d | 0 <= d < |db.entries| && db.entries[d].round == r && db.entries[d].status == Waiting
           && Some(d) != db.rounds[r].selected ::
           db.entries[e].position <= db.entries[d].position
  {
  }

  // ------------------------------------------------------------------- opting out

  /** Every entry that changes was the student's own, unfinished, in the active round, and opts out. */
  ghost predicate OnlyOwnOptsOut(a: Db, b: Db, s: nat, student: nat) {
    && |b.entries| == |a.entries| && |b.rounds| == |a.rounds|
    && forall d :: 0 <= d < |a.entries| && b.entries[d] != a.entries[d] ==>
         && a.entries[d].round < |a.rounds| && a.rounds[a.entries[d].round].session == s
         && a.rounds[a.entries[d].round].lifecycle == Active
         && a.entries[d].student == student && Unfinished(a.entries[d].status) && b.entries[d].status == OptedOut
  }

  lemma RequestEffect(db: Db, s: nat, student: nat)
    requires Refs(db) && DoRequestOptOut(db, s, student).Success?
    ensures var b := DoRequestOptOut(db, s, student).value;
      && b.progress == db.progress && b.sessions == db.sessions && s < |db.sessions|
      && OnlyOwnOptsOut(db, b, s, student)
      && (b.requests == db.requests
          || exists request ::
               b.requests == db.requests + [request] && request.requester == student && request.status != Declined)
      && (b.entries != db.entries ==> db.sessions[s].policy.optOut == AutoApprove)
  {
    var r := ActiveRound(db.rounds, s).value;
    var e := EntryOf(db.entries, r, student).value;
    var latest := LatestRequest(db.requests, e, student);
    var out := Moved(db.entries[e], OptedOut, None, None, Some(student));
    if (latest == None || db.requests[latest.value].status == Declined) && db.sessions[s].policy.optOut == AutoApprove {
      hide Refs;
      assert DoRequestOptOut(db, s, student).value.entries ==
        db.entries[e := out.(version := db.entries[e].version + 1)];
    }
  }

  /**
    A settled request is answered as it is. Otherwise the policy decides: one pending request is filed,
    unless one is pending already, or the entry opts out at once, with an approved request if it had none.
   */
  lemma RequestCases(db: Db, s: nat, student: nat, e: nat, q: Option<nat>)
    requires Refs(db) && Activated(db.rounds) && SlotsInv(db.rounds, db.entries)
    requires IsOwnEntry(db, s, student, e) && IsLatest(db.requests, e, student, q)
    requires Apply(db, RequestOptOut(s, student)).Success?
    ensures var b := Apply(db, RequestOptOut(s, student)).value; var r := db.entries[e].round;
      if q.Some? && db.requests[q.value].status != Declined then b == db
      else match db.sessions[s].policy.optOut
      case ApprovalRequired =>
        if AwaitsDecision(db.requests, e) then b == db
        else b == db.(requests := db.requests + [Request(e, student, Pending, None)],
                      outbox := db.outbox + [Event(OptOutRequested, s, r, Some(|db.requests|), db.rounds[r].version)])
      case AutoApprove =>
        && OptsOut(db, b, e, student)
        && b.requests == db.requests + if q == None then [Request(e, student, Approved, Some(student))] else []
  {
    OwnEntryIsFound(db, s, student);
    LatestIsUnique(db.requests, e, student, q);
    assert AwaitsDecision(db.requests, e) <==> PendingRequest(db.requests, e).Some?;
    var approved := db.requests + if q == None then [Request(e, student, Approved, Some(student))] else [];
    TurnOptsOut(db, e, student, db.requests);
    TurnOptsOut(db, e, student, approved);
    assert Apply(db, RequestOptOut(s, student)) == DoRequestOptOut(db, s, student);
    hide Activated, SlotsInv, IsLatest, AwaitsDecision, Turn, OptsOut, Refs, Apply, IsOwnEntry;
    assert db.requests + [] == db.requests;
  }

  /** Entry e leaves the queue, its round's selection too if it was this entry, and one event says so. */
  ghost predicate OptsOut(a: Db, b: Db, e: nat, actor: nat) {
    && e < |a.entries| && OnlyEntry(a, b, a.entries[e].round, e) && b.progress == a.progress
    && b.entries[e] == a.entries[e].(status := OptedOut, grade := None, notes := None, resolvedBy := Some(actor),
                                     version := a.entries[e].version + 1)
    && Deselects(a, b, a.entries[e].round, e) && Announced(a, b, a.entries[e].round, EntryUpdated, Some(e))
  }

  lemma TurnOptsOut(db: Db, e: nat, actor: nat, requests: seq<Request>)
    requires Refs(db) && e < |db.entries|
    ensures var turned := Turn(db, e, Moved(db.entries[e], OptedOut, None, None, Some(actor)), true, EntryUpdated);
      OptsOut(db, turned.(requests := requests), e, actor)
  {
  }

  /** The request is decided; its entry opts out if it was approved, and nothing but the request changes if not. */
  lemma DecideEffect(db: Db, route: Option<nat>, q: nat, manager: nat, decision: RequestStatus, expected: int)
    requires Refs(db) && DoDecide(db, route, q, manager, decision, expected).Success?
    ensures var b := DoDecide(db, route, q, manager, decision, expected).value; var e := db.requests[q].entry;
      && db.requests[q].status == Pending && |b.requests| == |db.requests|
      && b.requests[q] == db.requests[q].(status := decision, decidedBy := Some(manager))
      && (forall p :: 0 <= p < |db.requests| && p != q ==> b.requests[p] == db.requests[p])
      && b.progress == db.progress
      && (if decision == Approved then
            Unfinished(db.entries[e].status) && OptsOut(db, b, e, manager)
          else b == db.(requests := b.requests))
  {
  }

  // ------------------------------------------------------------------------ order

  /** The preorder of a prepared round is replaced, and nothing else of any round or entry. */
  lemma ReorderEffect(db: Db, r: nat, expected: int, students: seq<nat>, roster: Roster)
    requires Refs(db) && DoReorder(db, r, expected, students, roster).Success?
    ensures var b := DoReorder(db, r, expected, students, roster).value;
      && OnlyRound(db, b, r) && b.entries == db.entries && SamePeripherals(db, b)
      && db.rounds[r].lifecycle == Prepared
      && b.rounds[r] == db.rounds[r].(preorder := students, version := b.rounds[r].version)
      && Announced(db, b, r, Reordered, None)
  {
  }

  /** Two entries of the round stand in the same order before and after. */
  ghost predicate SameOrder(a: seq<Entry>, b: seq<Entry>, c: nat, d: nat)
    requires c < |a| == |b| && d < |a|
  {
    a[c].position < a[d].position <==> b[c].position < b[d].position
  }

  /**
    The waiting entry stands where asked, the others as before among themselves; only positions and
    versions change.
   */
  lemma MoveEffect(db: Db, e: nat, expected: int, position: int)
    requires Refs(db) && SlotsInv(db.rounds, db.entries) && DoMove(db, e, expected, position).Success?
    ensures var b := DoMove(db, e, expected, position).value; var r := db.entries[e].round;
      && OnlyRound(db, b, r) && SamePeripherals(db, b) && OnlyPlaced(db.entries, b.entries, r)
      && db.entries[e].status == Waiting && b.entries[e].position == position
      && 1 <= position <= |RowsIn(db.entries, r)|
      && b.rounds[r] == db.rounds[r].(version := b.rounds[r].version) && Announced(db, b, r, Reordered, Some(e))
      && forall c, d | 0 <= c < |db.entries| && 0 <= d < |db.entries| && c != e && d != e
           && db.entries[c].round == r == db.entries[d].round ::
           SameOrder(db.entries, b.entries, c, d)
  {
    assert SlotsAt(db.rounds[db.entries[e].round], db.entries[e].round, db.entries);
    EntryCountIsTheNumber(db.entries, db.entries[e].round);
  }

  /** Who is seated late: a student member without an entry, unless counted in at the activation already. */
  ghost predicate IsNewcomer(db: Db, s: nat, user: nat, membership: Option<Membership>, r: nat) {
    && s < |db.sessions| && db.sessions[s].status == Live && IsActiveOf(db.rounds, s, r)
    && (forall d :: 0 <= d < |db.entries| && db.entries[d].round == r ==> db.entries[d].student != user)
    && membership.Some? && membership.value.isStudent
    && (db.sessions[s].policy.population == AllActiveStudents && db.rounds[r].activatedAt.Some? ==>
          membership.value.joinedAt > db.rounds[r].activatedAt.value)
  }

  ghost predicate IsActiveOf(rounds: seq<Round>, s: nat, r: nat) {
    r < |rounds| && rounds[r].session == s && rounds[r].lifecycle == Active
  }

  /** A newcomer takes one waiting entry behind all others of the active round; nobody else changes anything. */
  lemma JoinEffect(db: Db, s: nat, user: nat, membership: Option<Membership>)
    requires Refs(db) && Activated(db.rounds) && SlotsInv(db.rounds, db.entries)
    requires Apply(db, AppendLateJoiner(s, user, membership)).Success?
    ensures var b := Apply(db, AppendLateJoiner(s, user, membership)).value;
      && (forall r: nat :: IsNewcomer(db, s, user, membership, r) ==> SeatsLast(db, b, r, user))
      && ((forall r: nat :: !IsNewcomer(db, s, user, membership, r)) ==> b == db)
  {
    var active := ActiveRound(db.rounds, s);
    forall r: nat | IsNewcomer(db, s, user, membership, r) ensures active == Some(r) {}
    if active.Some? { NewcomerIsSeated(db, s, user, membership, active.value); }
    hide IsNewcomer, SeatsLast, SlotsInv, Activated;
  }

  lemma NewcomerIsSeated(db: Db, s: nat, user: nat, membership: Option<Membership>, r: nat)
    requires Refs(db) && SlotsInv(db.rounds, db.entries) && ActiveRound(db.rounds, s) == Some(r)
    requires Apply(db, AppendLateJoiner(s, user, membership)).Success?
    ensures var b := Apply(db, AppendLateJoiner(s, user, membership)).value;
      if IsNewcomer(db, s, user, membership, r) then SeatsLast(db, b, r, user) else b == db
  {
    assert Apply(db, AppendLateJoiner(s, user, membership)) == DoAppendLateJoiner(db, s, user, membership);
    AppendSeats(db, r, user);
    hide SlotsInv, Apply, Refs, SeatsLast, AnnounceEntries;
  }

  lemma AppendSeats(db: Db, r: nat, user: nat)
    requires Refs(db) && SlotsInv(db.rounds, db.entries) && r < |db.rounds|
    ensures var entry := FreshEntry(r, user, MaxPosition(db.entries, r) + 1);
      SeatsLast(db, AnnounceEntries(db, r, db.rounds[r], db.entries + [entry], EntryUpdated, Some(|db.entries|)), r,
                user)
  {
    assert SlotsAt(db.rounds[r], r, db.entries);
    PositionsAreOneToCount(db.rounds[r], r, db.entries);
    EntryCountIsTheNumber(db.entries, r);
    hide SlotsInv, SlotsAt, PositionTaken;
  }

  ghost predicate SeatsLast(a: Db, b: Db, r: nat, user: nat) {
    && OnlyRound(a, b, r) && SamePeripherals(a, b) && |b.entries| == |a.entries| + 1 && a.entries <= b.entries
    && b.entries[|a.entries|] == Entry(r, user, |RowsIn(a.entries, r)| + 1, Waiting, None, None, 1, None)
    && b.rounds[r] == a.rounds[r].(version := b.rounds[r].version)
    && Announced(a, b, r, EntryUpdated, Some(|a.entries|))
  }

  // ----------------------------------------------------------------------- policy

  /** Nothing but the session's policy changes, and no round announces a version. */
  lemma PolicyEffect(db: Db, s: nat, isManager: bool, expected: int, policy: Policy)
    requires Refs(db) && DoUpdatePolicy(db, s, isManager, expected, policy).Success?
    ensures var b := DoUpdatePolicy(db, s, isManager, expected, policy).value;
      && b == db.(sessions := b.sessions, outbox := b.outbox)
      && s < |db.sessions| && b.sessions == db.sessions[s := db.sessions[s].(policy := b.sessions[s].policy)]
      && SamePolicy(b.sessions[s].policy, policy)
      && b.sessions[s].policy.version ==
           db.sessions[s].policy.version + (if SamePolicy(db.sessions[s].policy, policy) then 0 else 1)
      && (forall r: nat :: LogOf(b.outbox, r) == LogOf(db.outbox, r))
      && (forall r: nat :: IsActiveOf(db.rounds, s, r) && Activated(db.rounds)
                           && db.sessions[s].status == Live && !SamePolicy(db.sessions[s].policy, policy) ==>
            b.outbox == db.outbox + [Event(PolicyChanged, s, r, None, b.sessions[s].policy.version)])
      && (b.outbox != db.outbox ==> db.sessions[s].status == Live && HasActive(db.rounds, s)
                                    && !SamePolicy(db.sessions[s].policy, policy))
  {
    var b := DoUpdatePolicy(db, s, isManager, expected, policy).value;
    if b.outbox != db.outbox {
      assert b.outbox[..|db.outbox|] == db.outbox;
    }
  }
}
