/** Commands that converge: delivering one of them again changes nothing more. */
module QueueRetries {
  import opened Wrappers
  import opened QueueModel
  import opened QueueInvariants
  import opened QueueSteps
  import opened QueueRuns

  lemma TheActiveRound(rounds: seq<Round>, s: nat, r: nat)
    requires Activated(rounds) && r < |rounds| && rounds[r].session == s && rounds[r].lifecycle == Active
    ensures ActiveRound(rounds, s) == Some(r)
  {
  }

  lemma TheEntry(round: Round, r: nat, entries: seq<Entry>, e: nat)
    requires SlotsAt(round, r, entries) && e < |entries| && entries[e].round == r
    ensures EntryOf(entries, r, entries[e].student) == Some(e)
  {
  }

  lemma ActivateTwice(db: Db, s: nat, roster: Roster, now: int, again: Roster, later: int)
    requires Inv(db) && DoActivateIfNeeded(db, s, roster, now).Success?
    ensures var b := DoActivateIfNeeded(db, s, roster, now).value;
      DoActivateIfNeeded(b, s, again, later) == Success(b)
  {
    hide TurnsInv, SlotsInv, ProgressInv, LogInv, RequestsInv, LocksInv, Numbered, PopulationOrder;
    if db.sessions[s].status == Live && ActiveRound(db.rounds, s) == None && LowestPrepared(db.rounds, s).Some? {
      var r := LowestPrepared(db.rounds, s).value;
      var students := PopulationOrder(db.rounds[r].preorder, db.sessions[s].policy.population, roster);
      ActivationResult(db, s, r, students, roster, now);
      var b := DoActivateIfNeeded(db, s, roster, now).value;
      assert b.rounds[r].session == s && b.rounds[r].lifecycle == Active;
    }
  }

  lemma JoinTwice(db: Db, s: nat, user: nat, membership: Option<Membership>, again: Option<Membership>)
    requires Inv(db) && DoAppendLateJoiner(db, s, user, membership).Success?
    requires DoAppendLateJoiner(db, s, user, membership) != Success(db)
    ensures var b := DoAppendLateJoiner(db, s, user, membership).value;
      DoAppendLateJoiner(b, s, user, again) == Success(b)
  {
    hide TurnsInv, SlotsInv, ProgressInv, LogInv, RequestsInv, LocksInv, Numbered;
    var b := DoAppendLateJoiner(db, s, user, membership).value;
    var r := ActiveRound(db.rounds, s).value;
    TheActiveRound(b.rounds, s, r);
    assert b.entries[|db.entries|].student == user && b.entries[|db.entries|].round == r;
  }

  lemma FinalizeTwice(db: Db, s: nat, actor: Option<nat>, again: Option<nat>)
    requires Inv(db) && DoFinalizeActiveRound(db, s, actor).Success?
    ensures var b := DoFinalizeActiveRound(db, s, actor).value;
      DoFinalizeActiveRound(b, s, again) == Success(b)
  {
    hide TurnsInv, SlotsInv, ProgressInv, LogInv, RequestsInv, LocksInv, Numbered;
  }

  /** A request that is settled, or whose entry is, is answered without a change. */
  lemma SettledRequest(b: Db, s: nat, student: nat, r: nat, e: nat)
    requires Refs(b) && ActiveRound(b.rounds, s) == Some(r) && EntryOf(b.entries, r, student) == Some(e)
    requires var latest := LatestRequest(b.requests, e, student);
      (latest.Some? && b.requests[latest.value].status != Declined) || IsTerminal(b.entries[e].status)
      || (b.sessions[s].policy.optOut == ApprovalRequired && PendingRequest(b.requests, e).Some?)
    ensures var again := DoRequestOptOut(b, s, student); again == Success(b) || again.Failure?
  {
  }

  lemma LatestIsLast(requests: seq<Request>, request: Request)
    ensures LatestRequest(requests + [request], request.entry, request.requester) == Some(|requests|)
  {
    assert (requests + [request])[..|requests|] == requests;
  }

  /** A student's request leaves it, or its entry, settled. */
  lemma RequestSettles(db: Db, s: nat, student: nat, r: nat, e: nat, b: Db)
    requires Refs(db) && ActiveRound(db.rounds, s) == Some(r) && EntryOf(db.entries, r, student) == Some(e)
    requires DoRequestOptOut(db, s, student) == Success(b)
    ensures b.sessions == db.sessions && |b.rounds| == |db.rounds| && |b.entries| == |db.entries|
    ensures b.rounds[r].lifecycle == Active && b.rounds[r].session == s
    ensures b.entries[e].round == r && b.entries[e].student == student
    ensures var latest := LatestRequest(b.requests, e, student);
      (latest.Some? && latest.value < |b.requests| && b.requests[latest.value].status != Declined)
        || IsTerminal(b.entries[e].status)
      || (b.sessions[s].policy.optOut == ApprovalRequired && PendingRequest(b.requests, e).Some?)
  {
    LatestIsLast(db.requests, Request(e, student, Pending, None));
    LatestIsLast(db.requests, Request(e, student, Approved, Some(student)));
  }

  /** Repeating a student's request changes nothing. */
  lemma RequestTwice(db: Db, s: nat, student: nat)
    requires Inv(db)
    ensures var c := RequestOptOut(s, student); Step(Step(db, c), c) == Step(db, c)
  {
    var c := RequestOptOut(s, student);
    var b := Step(db, c);
    if Apply(db, c).Success? {
      var r := ActiveRound(db.rounds, s).value;
      var e := EntryOf(db.entries, r, student).value;
      RequestSettles(db, s, student, r, e, b);
      assert SlotsAt(b.rounds[r], r, b.entries);
      hide Inv, Steps, SlotsAt, DoRequestOptOut;
      TheActiveRound(b.rounds, s, r);
      TheEntry(b.rounds[r], r, b.entries, e);
      SettledRequest(b, s, student, r, e);
    }
  }
}
