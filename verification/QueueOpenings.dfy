/** What preparing, opening, closing and resetting rounds leaves in the tables, and nothing else. */
module QueueOpenings {
  import opened Wrappers
  import opened QueueModel
  import opened QueueInvariants
  import opened QueueSteps
  import opened QueueRuns
  import opened QueueEffects
  import opened QueueVerdicts

  // ------------------------------------------------------------------- the population

  ghost predicate Precedes(ids: seq<nat>, x: nat, y: nat) {
    exists i, j :: 0 <= i < j < |ids| && ids[i] == x && ids[j] == y
  }

  /** Everyone of the pool once: the pre-ordered in their order, then the others in the pool's. */
  ghost predicate IsPopulation(students: seq<nat>, preorder: seq<nat>, pool: seq<nat>) {
    && (forall x :: x in students <==> x in pool)
    && (forall i, j :: 0 <= i < j < |students| ==> Ahead(students[i], students[j], preorder, pool))
  }

  ghost predicate Ahead(x: nat, y: nat, preorder: seq<nat>, pool: seq<nat>) {
    && x != y
    && if x in preorder then y in preorder ==> Precedes(preorder, x, y) else y !in preorder && Precedes(pool, x, y)
  }

  /** A list whose members stand in the order of another. */
  ghost predicate InOrder(list: seq<nat>, ids: seq<nat>) {
    forall i, j :: 0 <= i < j < |list| ==> Precedes(ids, list[i], list[j])
  }

  lemma TailPrecedes(ids: seq<nat>, x: nat, y: nat)
    requires ids != [] && (Precedes(ids[1..], x, y) || (x == ids[0] && y in ids[1..]))
    ensures Precedes(ids, x, y)
  {
    if Precedes(ids[1..], x, y) {
      var i, j :| 0 <= i < j < |ids[1..]| && ids[1..][i] == x && ids[1..][j] == y;
      assert ids[i + 1] == x && ids[j + 1] == y;
    } else {
      var k :| 0 <= k < |ids[1..]| && ids[1..][k] == y;
      assert ids[0] == x && ids[k + 1] == y;
    }
  }

  lemma TailInOrder(list: seq<nat>, ids: seq<nat>)
    requires ids != [] && InOrder(list, ids[1..])
    ensures InOrder(list, ids)
    ensures (forall x :: x in list ==> x in ids[1..]) ==> InOrder([ids[0]] + list, ids)
  {
    forall i, j | 0 <= i < j < |list| ensures Precedes(ids, list[i], list[j]) {
      TailPrecedes(ids, list[i], list[j]);
    }
    if forall x :: x in list ==> x in ids[1..] {
      var whole := [ids[0]] + list;
      forall i, j | 0 <= i < j < |whole| ensures Precedes(ids, whole[i], whole[j]) {
        assert whole[j] == list[j - 1] && list[j - 1] in list;
        if i == 0 {
          TailPrecedes(ids, whole[0], whole[j]);
        } else {
          assert whole[i] == list[i - 1] && Precedes(ids, list[i - 1], list[j - 1]);
        }
      }
    }
  }

  lemma {:induction false} KeepsTheOrder(ids: seq<nat>, pool: seq<nat>)
    ensures forall x :: x in Keep(ids, pool) <==> x in ids && x in pool
    ensures InOrder(Keep(ids, pool), ids)
  {
    if ids != [] {
      KeepsTheOrder(ids[1..], pool);
      TailInOrder(Keep(ids[1..], pool), ids);
      assert Keep(ids, pool) == if ids[0] in pool then [ids[0]] + Keep(ids[1..], pool) else Keep(ids[1..], pool);
    }
  }

  lemma {:induction false} DropsInOrder(ids: seq<nat>, taken: seq<nat>)
    ensures forall x :: x in Drop(ids, taken) <==> x in ids && x !in taken
    ensures InOrder(Drop(ids, taken), ids)
  {
    if ids != [] {
      DropsInOrder(ids[1..], taken);
      TailInOrder(Drop(ids[1..], taken), ids);
      assert Drop(ids, taken) == if ids[0] in taken then Drop(ids[1..], taken) else [ids[0]] + Drop(ids[1..], taken);
    }
  }

  lemma PrecedersDiffer(ids: seq<nat>, x: nat, y: nat)
    requires NoDuplicates(ids) && Precedes(ids, x, y)
    ensures x != y
  {
  }

  /** The activation order is the population of the pool its policy names. */
  lemma PopulationIsInOrder(preorder: seq<nat>, policy: PopulationPolicy, roster: Roster)
    requires NoDuplicates(preorder) && Keyed(roster)
    ensures var students := PopulationOrder(preorder, policy, roster);
      && (policy == AllActiveStudents ==> IsPopulation(students, preorder, roster.members))
      && (policy == PresentAtActivation ==> IsPopulation(students, preorder, roster.present))
  {
    var pool := if policy == AllActiveStudents then roster.members else roster.present;
    var kept, rest := Keep(preorder, pool), Drop(pool, preorder);
    var students := kept + rest;
    KeepsTheOrder(preorder, pool);
    DropsInOrder(pool, preorder);
    hide Precedes;
    forall i, j | 0 <= i < j < |students| ensures Ahead(students[i], students[j], preorder, pool) {
      if j < |kept| {
        assert Precedes(preorder, kept[i], kept[j]);
        PrecedersDiffer(preorder, kept[i], kept[j]);
        assert kept[i] in kept && kept[j] in kept;
      } else {
        assert rest[j - |kept|] in rest;
        if i < |kept| {
          assert kept[i] in kept;
        } else {
          assert rest[i - |kept|] in rest && Precedes(pool, rest[i - |kept|], rest[j - |kept|]);
          PrecedersDiffer(pool, rest[i - |kept|], rest[j - |kept|]);
        }
      }
    }
  }

  // ------------------------------------------------------------------------ opening

  /** The session's round of lowest number among those prepared. */
  ghost predicate IsLowestPrepared(rounds: seq<Round>, s: nat, r: nat) {
    && r < |rounds| && rounds[r].session == s && rounds[r].lifecycle == Prepared
    && forall q :: 0 <= q < |rounds| && rounds[q].session == s && rounds[q].lifecycle == Prepared ==>
         rounds[r].number <= rounds[q].number
  }

  ghost predicate SomethingPrepared(rounds: seq<Round>, s: nat) {
    exists r :: 0 <= r < |rounds| && rounds[r].session == s && rounds[r].lifecycle == Prepared
  }

  /** New waiting rows of round r, one for each student in turn, at positions 1, 2, ... */
  ghost predicate Seated(a: seq<Entry>, b: seq<Entry>, r: nat, students: seq<nat>) {
    && |b| == |a| + |students| && a <= b
    && forall k :: 0 <= k < |students| ==>
         b[|a| + k] == Entry(r, students[k], k + 1, Waiting, None, None, 1, None)
  }

  /** Round r is active now, with its population seated. */
  ghost predicate Opens(a: Db, b: Db, s: nat, r: nat, roster: Roster, now: int) {
    && s < |a.sessions| && IsLowestPrepared(a.rounds, s, r) && !HasActive(a.rounds, s)
    && b == a.(rounds := b.rounds, entries := b.entries, outbox := b.outbox)
    && Announced(a, b, r, RoundStarted, None)
    && b.rounds == a.rounds[r := a.rounds[r].(lifecycle := Active, activatedAt := Some(now),
                                               version := a.rounds[r].version + 1)]
    && exists students :: Seated(a.entries, b.entries, r, students) && PopulationOf(a, s, r, roster, students)
  }

  ghost predicate PopulationOf(a: Db, s: nat, r: nat, roster: Roster, students: seq<nat>)
    requires s < |a.sessions| && r < |a.rounds|
  {
    match a.sessions[s].policy.population
    case AllActiveStudents => IsPopulation(students, a.rounds[r].preorder, roster.members)
    case PresentAtActivation => IsPopulation(students, a.rounds[r].preorder, roster.present)
  }

  /** One round is active: the one that was, or the lowest prepared one, opened now; if there is neither, none is. */
  ghost predicate Restored(a: Db, b: Db, s: nat, roster: Roster, now: int) {
    if HasActive(a.rounds, s) || !SomethingPrepared(a.rounds, s) then b == a
    else exists r :: Opens(a, b, s, r, roster, now)
  }

  lemma ActivationRestores(db: Db, s: nat, roster: Roster, now: int)
    requires Inv(db) && s < |db.sessions| && Keyed(roster) && ActivateLowest(db, s, roster, now).Success?
    ensures Restored(db, ActivateLowest(db, s, roster, now).value, s, roster, now)
  {
    var active, lowest := ActiveRound(db.rounds, s), LowestPrepared(db.rounds, s);
    assert HasActive(db.rounds, s) <==> active.Some?;
    assert SomethingPrepared(db.rounds, s) <==> lowest.Some?;
    hide Inv, HasActive, SomethingPrepared, Opens;
    if active == None && lowest.Some? {
      LowestOpens(db, s, lowest.value, roster, now);
    }
  }

  lemma LowestOpens(db: Db, s: nat, r: nat, roster: Roster, now: int)
    requires Inv(db) && s < |db.sessions| && Keyed(roster) && ActivateLowest(db, s, roster, now).Success?
    requires ActiveRound(db.rounds, s) == None && LowestPrepared(db.rounds, s) == Some(r)
    ensures Opens(db, ActivateLowest(db, s, roster, now).value, s, r, roster, now)
  {
    var b := ActivateLowest(db, s, roster, now).value;
    var students := PopulationOrder(db.rounds[r].preorder, db.sessions[s].policy.population, roster);
    PreorderIsDistinct(db, r);
    hide Inv, PopulationOrder, IsPopulation, InsertEntries, ActivateLowest, NoDuplicates;
    ActivationResult(db, s, r, students, roster, now);
    PopulationIsInOrder(db.rounds[r].preorder, db.sessions[s].policy.population, roster);
    assert Seated(db.entries, b.entries, r, students) && PopulationOf(db, s, r, roster, students);
  }

  lemma PreorderIsDistinct(db: Db, r: nat)
    requires Inv(db) && r < |db.rounds|
    ensures NoDuplicates(db.rounds[r].preorder)
  {
  }

  /** In a live session nothing but a missing round is restored; before it starts nothing happens. */
  lemma ActivateIfNeededEffect(db: Db, s: nat, roster: Roster, now: int)
    requires Inv(db) && Keyed(roster) && Apply(db, ActivateIfNeeded(s, roster, now)).Success?
    ensures var b := Apply(db, ActivateIfNeeded(s, roster, now)).value;
      && s < |db.sessions|
      && (db.sessions[s].status == Planned ==> b == db)
      && (db.sessions[s].status == Live ==> Restored(db, b, s, roster, now))
  {
    hide Inv, Restored, ActivateLowest;
    if db.sessions[s].status == Live { ActivationRestores(db, s, roster, now); }
  }

  // ---------------------------------------------------------------------- preparing

  /** One more prepared round of session s, as asked, numbered one past the session's highest. */
  ghost predicate Adds(a: Db, b: Db, s: nat, input: RoundInput) {
    && b == a.(rounds := b.rounds) && |b.rounds| == |a.rounds| + 1 && a.rounds <= b.rounds
    && var x := b.rounds[|a.rounds|];
    && x == Round(s, x.number, input.kind, input.surah, input.fromAyah, input.toAyah, input.gradingRequired,
                  Prepared, None, 1, None, input.preorder)
    && x.number >= 1
    && (forall r :: 0 <= r < |a.rounds| && a.rounds[r].session == s ==> a.rounds[r].number < x.number)
    && (x.number > 1 ==> NumberTaken(a.rounds, s, x.number - 1))
  }

  lemma CreationAdds(db: Db, s: nat, input: RoundInput, roster: Roster)
    requires CreateRound(db, s, input, roster).Success?
    ensures Adds(db, CreateRound(db, s, input, roster).value, s, input)
  {
  }

  /**
    In a planned session the round is added and nothing else; in a live one the session's one active
    round is restored after that, from the rounds with the new one among them.
   */
  lemma PrepareEffect(db: Db, s: nat, input: RoundInput, roster: Roster, now: int)
    requires Inv(db) && Keyed(roster) && Apply(db, Prepare(s, input, roster, now)).Success?
    ensures var b := Apply(db, Prepare(s, input, roster, now)).value;
      && s < |db.sessions|
      && (db.sessions[s].status == Planned ==> Adds(db, b, s, input))
      && (db.sessions[s].status == Live ==>
            exists added :: Adds(db, added, s, input) && Restored(added, b, s, roster, now))
  {
    var created := CreateRound(db, s, input, roster).value;
    CreationAdds(db, s, input, roster);
    if db.sessions[s].status == Live {
      GoodInputIsValid(input);
      NoRepeats(input.preorder);
      hide Inv, ActivateLowest, CreateRound, Adds, Restored;
      CreatedActivates(db, s, input, roster, now);
      ActivationRestores(created, s, roster, now);
    }
  }

  /** After a preparation in a live session exactly one of its rounds is active. */
  lemma PrepareLeavesOneActive(db: Db, s: nat, input: RoundInput, roster: Roster, now: int)
    requires Inv(db) && Keyed(roster) && Apply(db, Prepare(s, input, roster, now)).Success?
    requires s < |db.sessions| && db.sessions[s].status == Live
    ensures exists r :: IsOnlyActive(Apply(db, Prepare(s, input, roster, now)).value.rounds, s, r)
  {
    var created := CreateRound(db, s, input, roster).value;
    CreationAdds(db, s, input, roster);
    GoodInputIsValid(input);
    NoRepeats(input.preorder);
    assert created.rounds[|db.rounds|].session == s && created.rounds[|db.rounds|].lifecycle == Prepared;
    assert Apply(db, Prepare(s, input, roster, now)) == DoPrepare(db, s, input, roster, now);
    hide Inv, ActivateLowest, CreateRound, IsOnlyActive, Apply, Keyed, NoDuplicates, LowestPrepared;
    CreatedActivates(db, s, input, roster, now);
    ActivationLeavesOne(created, s, roster, now);
  }

  // ------------------------------------------------------------------------ closing

  /** Round r is finalized, and its waiting and reciting entries are skipped if the policy marks them so. */
  ghost predicate Closes(a: Db, b: Db, r: nat, actor: Option<nat>) {
    && r < |a.rounds| && a.rounds[r].session < |a.sessions|
    && b == a.(rounds := b.rounds, entries := b.entries, outbox := b.outbox)
    && Announced(a, b, r, RoundFinalized, None)
    && b.rounds == a.rounds[r := a.rounds[r].(lifecycle := Finalized, selected := None,
                                               version := a.rounds[r].version + 1)]
    && |b.entries| == |a.entries|
    && forall e :: 0 <= e < |a.entries| ==> Ended(a, b, r, actor, e)
  }

  ghost predicate Ended(a: Db, b: Db, r: nat, actor: Option<nat>, e: nat)
    requires r < |a.rounds| && a.rounds[r].session < |a.sessions| && e < |a.entries| == |b.entries|
  {
    var was := a.entries[e];
    var marks := a.sessions[a.rounds[r].session].policy.finalization == MarkUnfinishedSkipped;
    if was.round == r && marks && (was.status == Waiting || was.status == Reciting)
    then b.entries[e] == was.(status := Skipped, resolvedBy := actor, version := was.version + 1)
    else b.entries[e] == was
  }

  lemma FinalizationCloses(db: Db, r: nat, actor: Option<nat>)
    requires r < |db.rounds| && db.rounds[r].session < |db.sessions|
    ensures Closes(db, FinalizeRound(db, r, actor), r, actor)
  {
  }

  lemma FinalizeActiveEffect(db: Db, s: nat, actor: Option<nat>)
    requires Refs(db) && Apply(db, FinalizeActiveRound(s, actor)).Success?
    ensures var b := Apply(db, FinalizeActiveRound(s, actor)).value;
      if HasActive(db.rounds, s) then exists r :: IsActiveOf(db.rounds, s, r) && Closes(db, b, r, actor) else b == db
  {
    var r := ActiveRound(db.rounds, s);
    if r.Some? {
      FinalizationCloses(db, r.value, actor);
      assert IsActiveOf(db.rounds, s, r.value);
    }
  }

  lemma ConvergeEffect(db: Db, r: nat)
    requires Refs(db) && Apply(db, ConvergeRound(r)).Success?
    ensures var b := Apply(db, ConvergeRound(r)).value;
      && r < |db.rounds|
      && if db.rounds[r].lifecycle == Finalized then b == db else Closes(db, b, r, None)
  {
    FinalizationCloses(db, r, None);
  }

  // -------------------------------------------------------------------------- reset

  /** The active round is closed and its successor added. */
  ghost predicate Succeeds(a: Db, b: Db, s: nat, input: RoundInput, actor: Option<nat>) {
    exists r, closed :: IsActiveOf(a.rounds, s, r) && Closes(a, closed, r, actor) && Adds(closed, b, s, input)
  }

  lemma ClosingSucceeds(db: Db, s: nat, input: RoundInput, roster: Roster, actor: Option<nat>)
    requires Refs(db) && DoResetClose(db, s, input, roster, actor).Success?
    ensures var b := DoResetClose(db, s, input, roster, actor).value;
      b.resetting == db.resetting[s := |db.rounds|] && Succeeds(db, b.(resetting := db.resetting), s, input, actor)
  {
    var r := ActiveRound(db.rounds, s).value;
    var closed := FinalizeRound(db, r, actor);
    var b := DoResetClose(db, s, input, roster, actor).value;
    FinalizationCloses(db, r, actor);
    CreationAdds(closed, s, input, roster);
    assert b.(resetting := db.resetting) == CreateRound(closed, s, input, roster).value;
    hide CreateRound, FinalizeRound, Closes, Adds;
    assert IsActiveOf(db.rounds, s, r);
  }

  lemma ResetCloseEffect(db: Db, s: nat, input: RoundInput, roster: Roster, actor: Option<nat>)
    requires Refs(db) && Apply(db, ResetClose(s, input, roster, actor)).Success?
    ensures var b := Apply(db, ResetClose(s, input, roster, actor)).value;
      b.resetting == db.resetting[s := |db.rounds|] && Succeeds(db, b.(resetting := db.resetting), s, input, actor)
  {
    ClosingSucceeds(db, s, input, roster, actor);
  }

  lemma ResetOpenEffect(db: Db, s: nat, roster: Roster, now: int)
    requires Inv(db) && Keyed(roster) && Apply(db, ResetOpen(s, roster, now)).Success?
    ensures Restored(db.(resetting := db.resetting - {s}), Apply(db, ResetOpen(s, roster, now)).value, s, roster, now)
  {
    assert Apply(db, ResetOpen(s, roster, now)) == DoResetOpen(db, s, roster, now);
    hide Inv, ActivateLowest, Restored, Apply, Evolves, Keyed;
    ReleaseSteps(db, s);
    ActivationRestores(db.(resetting := db.resetting - {s}), s, roster, now);
  }

  lemma ResetEffect(db: Db, s: nat, input: RoundInput, roster: Roster, actor: Option<nat>, now: int)
    requires Inv(db) && Keyed(roster) && Apply(db, Reset(s, input, roster, actor, now)).Success?
    ensures var b := Apply(db, Reset(s, input, roster, actor, now)).value;
      exists mid :: Succeeds(db, mid, s, input, actor) && Restored(mid, b, s, roster, now)
  {
    hide ActivateLowest, Restored, Succeeds, Steps, DoResetClose;
    var mid := DoResetClose(db, s, input, roster, actor).value.(resetting := db.resetting);
    ClosingSucceeds(db, s, input, roster, actor);
    CloseSteps(db, s, input, roster, actor);
    StepsKeepInv(db, mid);
    hide Inv;
    ActivationRestores(mid, s, roster, now);
  }
}
