/**
  When each command commits, and which error it reports when it does not, read off the tables. The
  conditions of one lemma are exact: every one is an equivalence, so together they name the outcome.
 */
module QueueVerdicts {
  import opened Wrappers
  import opened QueueModel
  import opened QueueInvariants
  import opened QueueSteps
  import opened QueueRuns

  // ------------------------------------------------------------- what a query returns

  /** A query keyed by student returns each one once. */
  ghost predicate Keyed(roster: Roster) { NoDuplicates(roster.members) && NoDuplicates(roster.present) }

  ghost predicate AllIn(ids: seq<nat>, members: seq<nat>) { forall x :: x in ids ==> x in members }

  function Listed(ids: seq<nat>): (named: set<nat>)
    ensures forall x :: x in named <==> x in ids
  {
    set x | x in ids
  }

  /** Counting how many members a list of distinct students names tells whether all of them are members. */
  lemma EligibleMeansMembers(ids: seq<nat>, roster: Roster)
    requires NoDuplicates(ids) && NoDuplicates(roster.members)
    ensures EligiblePreorder(ids, roster) <==> AllIn(ids, roster.members)
  {
    var named, found := Listed(ids), Listed(roster.members) * Listed(ids);
    CountIsFound(roster.members, ids);
    SizeOfDistinct(ids);
    if AllIn(ids, roster.members) {
      assert found == named;
    } else {
      var x :| x in ids && x !in roster.members;
      SmallerSet(found, named - {x});
    }
  }

  lemma SmallerSet(a: set<nat>, b: set<nat>)
    requires a <= b
    ensures |a| <= |b|
  {
    assert b == a + (b - a);
  }

  lemma {:induction false} CountIsFound(members: seq<nat>, ids: seq<nat>)
    requires NoDuplicates(members)
    ensures CountIn(members, ids) == |Listed(members) * Listed(ids)|
  {
    if members == [] {
      assert Listed(members) * Listed(ids) == {};
    } else {
      var first, rest := members[0], members[1..];
      assert members == [first] + rest;
      assert first !in rest;
      CountIsFound(rest, ids);
      var later := Listed(rest) * Listed(ids);
      assert Listed(members) * Listed(ids) == if first in ids then later + {first} else later;
    }
  }

  lemma {:induction false} SizeOfDistinct(ids: seq<nat>)
    requires NoDuplicates(ids)
    ensures |Listed(ids)| == |ids|
  {
    if ids != [] {
      var rest := ids[1..];
      assert ids == [ids[0]] + rest;
      assert ids[0] !in rest;
      SizeOfDistinct(rest);
      assert Listed(ids) == Listed(rest) + {ids[0]};
    }
  }

  function RowsIn(entries: seq<Entry>, r: nat): (rows: set<nat>)
    ensures forall e :: e in rows <==> 0 <= e < |entries| && entries[e].round == r
  {
    set e | 0 <= e < |entries| && entries[e].round == r
  }

  lemma {:induction false} EntryCountIsTheNumber(entries: seq<Entry>, r: nat)
    ensures EntryCount(entries, r) == |RowsIn(entries, r)|
  {
    if entries == [] {
      assert RowsIn(entries, r) == {};
    } else {
      var n := |entries| - 1;
      var early := RowsIn(entries[..n], r);
      EntryCountIsTheNumber(entries[..n], r);
      assert RowsIn(entries, r) == if entries[n].round == r then early + {n} else early;
    }
  }

  /** The latest request of a student for an entry is the last such row. */
  ghost predicate IsLatest(requests: seq<Request>, e: nat, student: nat, q: Option<nat>) {
    match q
    case Some(k) =>
      && k < |requests| && requests[k].entry == e && requests[k].requester == student
      && forall j :: k < j < |requests| ==> !(requests[j].entry == e && requests[j].requester == student)
    case None => forall j :: 0 <= j < |requests| ==> !(requests[j].entry == e && requests[j].requester == student)
  }

  lemma {:induction false} LatestIsFound(requests: seq<Request>, e: nat, student: nat)
    ensures IsLatest(requests, e, student, LatestRequest(requests, e, student))
  {
    if requests != [] {
      var n := |requests| - 1;
      if !(requests[n].entry == e && requests[n].requester == student) {
        LatestIsFound(requests[..n], e, student);
        assert forall j :: 0 <= j < n ==> requests[..n][j] == requests[j];
      }
    }
  }

  // -------------------------------------------------------------------- the session

  lemma SessionVerdict(db: Db, s: nat, policy: Policy)
    requires Refs(db)
    ensures Apply(db, CreateSession(policy)) == Success(db.(sessions := db.sessions + [Session(Planned, policy)]))
    ensures var v := Apply(db, StartSession(s));
      && (v == Failure(NotFound) <==> s >= |db.sessions|)
      && (v == Failure(InvalidTransition) <==> s < |db.sessions| && db.sessions[s].status != Planned)
      && (v.Success? <==> s < |db.sessions| && db.sessions[s].status == Planned)
      && (v.Success? ==> v.value == db.(sessions := db.sessions[s := db.sessions[s].(status := Live)]))
    ensures var v := Apply(db, EndSession(s));
      && (v == Failure(NotFound) <==> s >= |db.sessions|)
      && (v == Failure(InvalidTransition) <==> s < |db.sessions| && db.sessions[s].status != Live)
      && (v.Success? <==> s < |db.sessions| && db.sessions[s].status == Live)
      && (v.Success? ==> v.value == db.(sessions := db.sessions[s := db.sessions[s].(status := Ended)]))
  {
  }

  lemma UpdatePolicyVerdict(db: Db, s: nat, isManager: bool, expected: int, policy: Policy)
    requires Refs(db)
    ensures var v := Apply(db, UpdatePolicy(s, isManager, expected, policy));
      var known := expected >= 1 && s < |db.sessions|;
      && (v == Failure(Validation) <==> expected < 1)
      && (v == Failure(NotFound) <==> expected >= 1 && s >= |db.sessions|)
      && (v == Failure(InvalidTransition) <==> known && !isManager)
      && (v == Failure(RoundIsFinalized) <==> known && isManager && db.sessions[s].status == Ended)
      && (v == Failure(StaleVersion) <==>
            known && isManager && db.sessions[s].status != Ended && db.sessions[s].policy.version != expected)
      && (v.Success? <==>
            known && isManager && db.sessions[s].status != Ended && db.sessions[s].policy.version == expected)
  {
  }

  // --------------------------------------------------------------------- the rounds

  /** The range lies in one of 114 chapters, and no student is listed twice. */
  ghost predicate GoodInput(input: RoundInput) {
    && 1 <= input.surah <= 114
    && 1 <= input.fromAyah && input.fromAyah <= input.toAyah && input.toAyah <= input.surahAyahs
    && forall i, j :: 0 <= i < j < |input.preorder| ==> input.preorder[i] != input.preorder[j]
  }

  lemma GoodInputIsValid(input: RoundInput)
    ensures ValidInput(input) <==> GoodInput(input)
  {
  }

  lemma PrepareVerdict(db: Db, s: nat, input: RoundInput, roster: Roster, now: int)
    requires Inv(db) && Keyed(roster)
    ensures var v := Apply(db, Prepare(s, input, roster, now));
      var free := GoodInput(input) && s !in db.resetting;
      var accepting := free && s < |db.sessions| && db.sessions[s].status != Ended;
      && (v == Failure(Validation) <==> !GoodInput(input) || (accepting && !AllIn(input.preorder, roster.members)))
      && (v == Failure(LockHeld) <==> GoodInput(input) && s in db.resetting)
      && (v == Failure(NotFound) <==> free && s >= |db.sessions|)
      && (v == Failure(RoundIsFinalized) <==> free && s < |db.sessions| && db.sessions[s].status == Ended)
      && (v.Success? <==> accepting && AllIn(input.preorder, roster.members))
  {
    hide Inv, ActivateLowest, CreateRound, NoDuplicates;
    GoodInputIsValid(input);
    if GoodInput(input) {
      NoRepeats(input.preorder);
      EligibleMeansMembers(input.preorder, roster);
    }
    CreateVerdict(db, s, input, roster);
    var accepting := s < |db.sessions| && db.sessions[s].status != Ended && s !in db.resetting;
    if accepting && CreateRound(db, s, input, roster).Success? && GoodInput(input) {
      CreatedActivates(db, s, input, roster, now);
    }
  }

  lemma NoRepeats(ids: seq<nat>)
    ensures NoDuplicates(ids) <==> forall i, j :: 0 <= i < j < |ids| ==> ids[i] != ids[j]
  {
  }

  lemma CreateVerdict(db: Db, s: nat, input: RoundInput, roster: Roster)
    ensures CreateRound(db, s, input, roster) == Failure(Validation) <==> !EligiblePreorder(input.preorder, roster)
    ensures CreateRound(db, s, input, roster).Success? <==> EligiblePreorder(input.preorder, roster)
  {
  }

  lemma CreatedActivates(db: Db, s: nat, input: RoundInput, roster: Roster, now: int)
    requires Inv(db) && s < |db.sessions| && db.sessions[s].status != Ended
    requires Keyed(roster) && NoDuplicates(input.preorder)
    requires CreateRound(db, s, input, roster).Success?
    ensures var created := CreateRound(db, s, input, roster).value;
      Inv(created) && s < |created.sessions| && ActivateLowest(created, s, roster, now).Success?
  {
    hide Inv, ActivateLowest;
    CreateSteps(db, s, input, roster);
    ActivationSucceeds(CreateRound(db, s, input, roster).value, s, roster, now);
  }

  lemma ActivateIfNeededVerdict(db: Db, s: nat, roster: Roster, now: int)
    requires Inv(db) && Keyed(roster)
    ensures var v := Apply(db, ActivateIfNeeded(s, roster, now));
      && (v == Failure(LockHeld) <==> s in db.resetting)
      && (v == Failure(NotFound) <==> s !in db.resetting && s >= |db.sessions|)
      && (v == Failure(RoundIsFinalized) <==>
            s !in db.resetting && s < |db.sessions| && db.sessions[s].status == Ended)
      && (v.Success? <==> s !in db.resetting && s < |db.sessions| && db.sessions[s].status != Ended)
  {
    hide Inv, ActivateLowest;
    if s < |db.sessions| { ActivationSucceeds(db, s, roster, now); }
  }

  lemma ReorderVerdict(db: Db, r: nat, expected: int, students: seq<nat>, roster: Roster)
    requires Refs(db) && Keyed(roster)
    ensures var v := Apply(db, Reorder(r, expected, students, roster));
      var asked := expected >= 1 && NoDuplicates(students);
      var editable := asked && r < |db.rounds| && db.rounds[r].lifecycle == Prepared;
      && (v == Failure(Validation) <==>
            !asked || (editable && db.rounds[r].version == expected && !AllIn(students, roster.members)))
      && (v == Failure(NotFound) <==> asked && r >= |db.rounds|)
      && (v == Failure(InvalidTransition) <==> asked && r < |db.rounds| && db.rounds[r].lifecycle != Prepared)
      && (v == Failure(StaleVersion) <==> editable && db.rounds[r].version != expected)
      && (v.Success? <==> editable && db.rounds[r].version == expected && AllIn(students, roster.members))
  {
    if NoDuplicates(students) { EligibleMeansMembers(students, roster); }
    hide Refs, NoDuplicates, EligiblePreorder, AllIn;
  }

  /** Two rows of the round a million positions apart, the higher one later in the table. */
  ghost predicate AMillionApart(entries: seq<Entry>, r: nat) {
    exists d, e :: 0 <= d < e < |entries| && entries[d].round == r == entries[e].round
                   && entries[d].position + 1_000_000 == entries[e].position
  }

  lemma MoveVerdict(db: Db, e: nat, expected: int, position: int)
    requires Refs(db)
    ensures var v := Apply(db, Move(e, expected, position));
      var known := expected >= 1 && e < |db.entries|;
      && (v == Failure(NotFound) <==> expected >= 1 && e >= |db.entries|)
      && (known ==>
            var r := db.entries[e].round;
            var movable := db.entries[e].status == Waiting && db.rounds[r].lifecycle == Active;
            var current := movable && db.rounds[r].version == expected;
            var inside := 1 <= position <= |RowsIn(db.entries, r)|;
            var far := position - db.entries[e].position > 1_000_000;
            && (v == Failure(InvalidTransition) <==> !movable)
            && (v == Failure(StaleVersion) <==> movable && db.rounds[r].version != expected)
            && (v == Failure(Validation) <==> current && !AMillionApart(db.entries, r) && !inside)
            && (v == Failure(ConstraintViolation) <==> current && (AMillionApart(db.entries, r) || (inside && far)))
            && (v.Success? <==> current && !AMillionApart(db.entries, r) && inside && !far))
      && (expected < 1 ==> v == Failure(Validation))
  {
    if e < |db.entries| {
      var r := db.entries[e].round;
      assert StagingClashes(db.entries, r) <==> AMillionApart(db.entries, r);
      EntryCountIsTheNumber(db.entries, r);
      hide StagingClashes, AMillionApart, Repositioned;
    }
  }

  lemma JoinVerdict(db: Db, s: nat, user: nat, membership: Option<Membership>)
    requires Refs(db)
    ensures var v := Apply(db, AppendLateJoiner(s, user, membership));
      && (v == Failure(NotFound) <==> s >= |db.sessions|)
      && (v.Success? <==> s < |db.sessions|)
  {
    hide Refs;
  }

  lemma FinalizeVerdict(db: Db, s: nat, actor: Option<nat>)
    requires Refs(db)
    ensures var v := Apply(db, FinalizeActiveRound(s, actor));
      && (v == Failure(LockHeld) <==> s in db.resetting)
      && (v == Failure(NotFound) <==> s !in db.resetting && s >= |db.sessions|)
      && (v.Success? <==> s !in db.resetting && s < |db.sessions|)
  {
  }

  lemma ConvergeVerdict(db: Db, r: nat)
    requires Refs(db)
    ensures var v := Apply(db, ConvergeRound(r));
      && (v == Failure(NotFound) <==> r >= |db.rounds|)
      && (v == Failure(LockHeld) <==> r < |db.rounds| && db.rounds[r].session in db.resetting)
      && (v.Success? <==> r < |db.rounds| && db.rounds[r].session !in db.resetting)
  {
  }

  ghost predicate HasActive(rounds: seq<Round>, s: nat) {
    exists r :: 0 <= r < |rounds| && rounds[r].session == s && rounds[r].lifecycle == Active
  }

  lemma ResetCloseVerdict(db: Db, s: nat, input: RoundInput, roster: Roster, actor: Option<nat>)
    requires Refs(db) && Keyed(roster)
    ensures var v := Apply(db, ResetClose(s, input, roster, actor));
      var free := GoodInput(input) && s !in db.resetting;
      var live := free && s < |db.sessions| && db.sessions[s].status == Live;
      && (v == Failure(Validation) <==>
            !GoodInput(input) || (live && HasActive(db.rounds, s) && !AllIn(input.preorder, roster.members)))
      && (v == Failure(LockHeld) <==> GoodInput(input) && s in db.resetting)
      && (v == Failure(NotFound) <==> free && (s >= |db.sessions| || (live && !HasActive(db.rounds, s))))
      && (v == Failure(RoundIsFinalized) <==> free && s < |db.sessions| && db.sessions[s].status != Live)
      && (v.Success? <==> live && HasActive(db.rounds, s) && AllIn(input.preorder, roster.members))
  {
    GoodInputIsValid(input);
    if GoodInput(input) {
      NoRepeats(input.preorder);
      EligibleMeansMembers(input.preorder, roster);
    }
    assert HasActive(db.rounds, s) <==> ActiveRound(db.rounds, s).Some?;
    hide GoodInput, AllIn, EligiblePreorder, HasActive, FinalizeRound, ValidInput;
  }

  lemma ResetVerdict(db: Db, s: nat, input: RoundInput, roster: Roster, actor: Option<nat>, now: int)
    requires Inv(db) && Keyed(roster)
    ensures var whole, half := Apply(db, Reset(s, input, roster, actor, now)),
                               Apply(db, ResetClose(s, input, roster, actor));
      && (whole.Success? <==> half.Success?)
      && (half.Failure? ==> whole == Failure(half.error))
  {
    hide Inv, ActivateLowest, Steps;
    if DoResetClose(db, s, input, roster, actor).Success? {
      CloseSteps(db, s, input, roster, actor);
      var closed := DoResetClose(db, s, input, roster, actor).value.(resetting := db.resetting);
      StepsKeepInv(db, closed);
      hide DoResetClose;
      ActivationSucceeds(closed, s, roster, now);
    }
  }

  lemma StepsKeepInv(a: Db, b: Db)
    requires Steps(a, b)
    ensures Inv(b)
  {
    hide Inv, Evolves;
  }

  lemma ResetOpenVerdict(db: Db, s: nat, roster: Roster, now: int)
    requires Inv(db) && Keyed(roster)
    ensures var v := Apply(db, ResetOpen(s, roster, now));
      && (v == Failure(NotFound) <==> s !in db.resetting || s >= |db.sessions|)
      && (v == Failure(RoundIsFinalized) <==>
            s in db.resetting && s < |db.sessions| && db.sessions[s].status != Live)
      && (v.Success? <==> s in db.resetting && s < |db.sessions| && db.sessions[s].status == Live)
    ensures Apply(db, ResetAbandon(s)) ==
      if s in db.resetting then Success(db.(resetting := db.resetting - {s})) else Failure(NotFound)
  {
    if s in db.resetting && s < |db.sessions| && db.sessions[s].status == Live {
      ReleaseSteps(db, s);
      hide Inv, ActivateLowest;
      ActivationSucceeds(db.(resetting := db.resetting - {s}), s, roster, now);
    }
  }

  // ---------------------------------------------------------------------- the turns

  ghost predicate SomeoneRecites(entries: seq<Entry>, r: nat) {
    exists e :: 0 <= e < |entries| && entries[e].round == r && entries[e].status == Reciting
  }

  ghost predicate SomeoneWaits(entries: seq<Entry>, r: nat, selected: Option<nat>) {
    exists e :: 0 <= e < |entries| && entries[e].round == r && entries[e].status == Waiting && Some(e) != selected
  }

  lemma AdvanceVerdict(db: Db, r: nat, expected: int)
    requires Refs(db)
    ensures var v := Apply(db, Advance(r, expected));
      && (v == Failure(Validation) <==> expected < 1)
      && (v == Failure(NotFound) <==> expected >= 1 && r >= |db.rounds|)
      && (expected >= 1 && r < |db.rounds| ==>
            var active := db.rounds[r].lifecycle == Active;
            var current := active && db.rounds[r].version == expected;
            var silent := current && !SomeoneRecites(db.entries, r);
            && (v == Failure(RoundIsFinalized) <==> !active)
            && (v == Failure(StaleVersion) <==> active && db.rounds[r].version != expected)
            && (v == Failure(EntryReciting) <==> current && SomeoneRecites(db.entries, r))
            && (v == Failure(NoWaitingEntry) <==> silent && !SomeoneWaits(db.entries, r, db.rounds[r].selected))
            && (v.Success? <==> silent && SomeoneWaits(db.entries, r, db.rounds[r].selected)))
  {
    if r < |db.rounds| {
      assert AnyReciting(db.entries, r) <==> SomeoneRecites(db.entries, r);
      assert NextWaiting(db.entries, r, db.rounds[r].selected).Some?
             <==> SomeoneWaits(db.entries, r, db.rounds[r].selected);
      hide AnyReciting, SomeoneRecites, SomeoneWaits;
    }
  }

  lemma StartVerdict(db: Db, e: nat, expected: int)
    requires Refs(db)
    ensures var v := Apply(db, Start(e, expected));
      && (v == Failure(Validation) <==> expected < 1)
      && (v == Failure(NotFound) <==> expected >= 1 && e >= |db.entries|)
      && (expected >= 1 && e < |db.entries| ==>
            var entry, round := db.entries[e], db.rounds[db.entries[e].round];
            var current := round.lifecycle == Active && entry.version == expected;
            var chosen := round.selected == Some(e) && entry.status == Waiting;
            && (v == Failure(RoundIsFinalized) <==> round.lifecycle != Active)
            && (v == Failure(StaleVersion) <==> round.lifecycle == Active && entry.version != expected)
            && (v == Failure(InvalidTransition) <==> current && !chosen)
            && (v.Success? <==> current && chosen))
  {
  }

  lemma CompleteVerdict(db: Db, e: nat, expected: int, actor: nat, grade: Option<Grade>, notes: Option<string>)
    requires Refs(db)
    ensures var v := Apply(db, Complete(e, expected, actor, grade, notes));
      var asked := expected >= 1 && (notes.Some? ==> |notes.value| <= 500);
      && (!asked ==> v == Failure(Validation))
      && (v == Failure(NotFound) <==> asked && e >= |db.entries|)
      && (asked && e < |db.entries| ==>
            var entry, round := db.entries[e], db.rounds[db.entries[e].round];
            var current := round.lifecycle == Active && entry.version == expected;
            var fitting := if round.gradingRequired then grade != None else grade == None && notes == None;
            && (v == Failure(RoundIsFinalized) <==> round.lifecycle != Active)
            && (v == Failure(StaleVersion) <==> round.lifecycle == Active && entry.version != expected)
            && (v == Failure(InvalidTransition) <==> current && entry.status != Reciting)
            && (v == Failure(Validation) <==> current && entry.status == Reciting && !fitting)
            && (v.Success? <==> current && entry.status == Reciting && fitting))
  {
  }

  /** Which corrections a policy lets through, by the state of the round. */
  lemma CorrectVerdict(db: Db, e: nat, expected: int, grade: Option<Grade>, notes: Option<string>)
    requires Refs(db)
    ensures var v := Apply(db, Correct(e, expected, grade, notes));
      var asked := expected >= 1 && (notes.Some? ==> |notes.value| <= 500);
      && (v == Failure(Validation) <==> !asked)
      && (v == Failure(NotFound) <==> asked && e >= |db.entries|)
      && (asked && e < |db.entries| ==>
            var entry, round := db.entries[e], db.rounds[db.entries[e].round];
            var policy := db.sessions[round.session].policy.correction;
            var completed := entry.version == expected && entry.status == Completed;
            var tooLate := policy == BeforeRoundFinalization && round.lifecycle == Finalized;
            && (v == Failure(StaleVersion) <==> entry.version != expected)
            && (v == Failure(InvalidTransition) <==>
                  entry.version == expected && (entry.status != Completed || policy == Immutable))
            && (v == Failure(RoundIsFinalized) <==> completed && tooLate)
            && (v.Success? <==>
                  completed && (policy == AuditedAnyTime
                                || (policy == BeforeRoundFinalization && round.lifecycle != Finalized))))
  {
  }

  lemma SkipVerdict(db: Db, e: nat, expected: int, actor: nat)
    requires Refs(db)
    ensures var v := Apply(db, Skip(e, expected, actor));
      && (v == Failure(Validation) <==> expected < 1)
      && (v == Failure(NotFound) <==> expected >= 1 && e >= |db.entries|)
      && (expected >= 1 && e < |db.entries| ==>
            var entry, round := db.entries[e], db.rounds[db.entries[e].round];
            var current := round.lifecycle == Active && entry.version == expected;
            var unfinished := entry.status == Waiting || entry.status == Reciting;
            && (v == Failure(RoundIsFinalized) <==> round.lifecycle != Active)
            && (v == Failure(StaleVersion) <==> round.lifecycle == Active && entry.version != expected)
            && (v == Failure(InvalidTransition) <==> current && !unfinished)
            && (v.Success? <==> current && unfinished))
  {
  }

  // -------------------------------------------------------------------- opting out

  ghost predicate IsOwnEntry(db: Db, s: nat, student: nat, e: nat) {
    && e < |db.entries| && db.entries[e].student == student && db.entries[e].round < |db.rounds|
    && db.rounds[db.entries[e].round].session == s && db.rounds[db.entries[e].round].lifecycle == Active
  }

  lemma OwnEntryIsFound(db: Db, s: nat, student: nat)
    requires Refs(db) && Activated(db.rounds) && SlotsInv(db.rounds, db.entries)
    ensures var r := ActiveRound(db.rounds, s);
      forall e: nat :: IsOwnEntry(db, s, student, e) <==>
        r.Some? && EntryOf(db.entries, r.value, student) == Some(e)
  {
    var r := ActiveRound(db.rounds, s);
    if r.Some? {
      var q := r.value;
      assert SlotsAt(db.rounds[q], q, db.entries);
      forall e: nat | IsOwnEntry(db, s, student, e) ensures EntryOf(db.entries, q, student) == Some(e) {
        assert db.entries[e].round == q;
      }
    }
  }

  ghost predicate AwaitsDecision(requests: seq<Request>, e: nat) {
    exists q :: 0 <= q < |requests| && requests[q].entry == e && requests[q].status == Pending
  }

  /** A student without an entry in an active round of the session has nothing to opt out of. */
  lemma RequestNeedsAnEntry(db: Db, s: nat, student: nat)
    requires Refs(db) && Activated(db.rounds) && SlotsInv(db.rounds, db.entries)
    ensures Apply(db, RequestOptOut(s, student)) == Failure(NotFound) <==>
      forall e: nat :: !IsOwnEntry(db, s, student, e)
  {
    OwnEntryIsFound(db, s, student);
    hide Activated, SlotsInv, Turn, Moved;
    var r := ActiveRound(db.rounds, s);
    if r.Some? && EntryOf(db.entries, r.value, student).Some? {
      assert IsOwnEntry(db, s, student, EntryOf(db.entries, r.value, student).value);
    }
  }

  lemma RequestVerdict(db: Db, s: nat, student: nat, e: nat, q: Option<nat>)
    requires Refs(db) && Activated(db.rounds) && SlotsInv(db.rounds, db.entries)
    requires IsOwnEntry(db, s, student, e) && IsLatest(db.requests, e, student, q)
    ensures var v := Apply(db, RequestOptOut(s, student)); var status := db.entries[e].status;
      var settled := q.Some? && db.requests[q.value].status != Declined;
      var over := status == Completed || status == Skipped || status == OptedOut;
      && (v == Failure(EntryTerminal) <==> !settled && over)
      && (v == Failure(RoundIsFinalized) <==> !settled && !over && db.sessions[s].status != Live)
      && (v.Success? <==> settled || (!over && db.sessions[s].status == Live))
      && (settled ==> v == Success(db))
  {
    OwnEntryIsFound(db, s, student);
    LatestIsUnique(db.requests, e, student, q);
    hide Activated, SlotsInv, Turn, Moved, IsLatest;
  }

  lemma LatestIsUnique(requests: seq<Request>, e: nat, student: nat, q: Option<nat>)
    requires IsLatest(requests, e, student, q)
    ensures q == LatestRequest(requests, e, student)
  {
    LatestIsFound(requests, e, student);
  }

  lemma DecideVerdict(db: Db, route: Option<nat>, q: nat, manager: nat, decision: RequestStatus, expected: int)
    requires Refs(db)
    ensures var v := Apply(db, Decide(route, q, manager, decision, expected));
      var asked := (decision == Approved || decision == Declined) && expected >= 1;
      && (v == Failure(Validation) <==> !asked)
      && (v == Failure(NotFound) <==> asked && q >= |db.requests|)
      && (asked && q < |db.requests| ==>
            var entry := db.entries[db.requests[q].entry];
            var round := db.rounds[entry.round];
            var here := route == None || round.session == route.value;
            var open := here && round.lifecycle != Finalized;
            var pending := open && db.requests[q].status == Pending;
            var leaves := decision == Declined || entry.status == Waiting || entry.status == Reciting;
            && (v == Failure(RoundIsFinalized) <==> here && round.lifecycle == Finalized)
            && (v == Failure(StaleVersion) <==> pending && entry.version != expected)
            && (v == Failure(InvalidTransition) <==>
                  !here || (open && !pending) || (pending && entry.version == expected && !leaves))
            && (v.Success? <==> pending && entry.version == expected && leaves))
  {
  }
}
