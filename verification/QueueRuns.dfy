/**
  Runs of the queue: what holds in every reachable state, and between any state of a run and
  every later one. A command that fails leaves the state as it was.
 */
module QueueRuns {
  import opened Wrappers
  import opened QueueModel
  import opened QueueInvariants
  import opened QueueSteps

  /** One transaction: the committed state, or the old one. */
  function Step(db: Db, c: Command): (next: Db)
    requires Inv(db)
    ensures Steps(db, next)
  {
    hide Steps;
    match Apply(db, c)
    case Success(committed) => (ApplySteps(db, c); committed)
    case Failure(_) => (StepsSelf(db); db)
  }

  function Run(db: Db, cs: seq<Command>): (final: Db)
    requires Inv(db)
    ensures Steps(db, final)
    decreases |cs|
  {
    hide Grows, VersionsIdentify, FinalizedStays, Forward, ActivatesUpward;
    if cs == [] then (StepsSelf(db); db) else
    var next := Step(db, cs[0]);
    var final := Run(next, cs[1..]);
    StepsTogether(db, next, final);
    final
  }

  lemma EmptyIsValid()
    ensures Inv(EMPTY_DB)
  {
  }

  ghost function FromEmpty(cs: seq<Command>): (db: Db)
    ensures Inv(db)
  {
    EmptyIsValid();
    Run(EMPTY_DB, cs)
  }

  // ------------------------------------------------------- the outbox is a log

  ghost predicate Carries(outbox: seq<Event>, k: int, r: nat, v: int) {
    0 <= k < |outbox| && Announces(outbox[k], r) && outbox[k].version == v
  }

  lemma {:induction false} LogPlace(outbox: seq<Event>, r: nat, k: nat)
    requires k < |outbox| && Announces(outbox[k], r)
    ensures |LogOf(outbox[..k], r)| < |LogOf(outbox, r)|
      && LogOf(outbox, r)[|LogOf(outbox[..k], r)|] == outbox[k].version
  {
    var last := |outbox| - 1;
    if k < last {
      assert outbox[..last][..k] == outbox[..k];
      LogPlace(outbox[..last], r, k);
    }
  }

  lemma {:induction false} LogOrder(outbox: seq<Event>, r: nat, j: nat, k: nat)
    requires j < k <= |outbox| && Announces(outbox[j], r)
    ensures |LogOf(outbox[..j], r)| < |LogOf(outbox[..k], r)|
  {
    assert outbox[..k][..j] == outbox[..j];
    LogPlace(outbox[..k], r, j);
  }

  lemma {:induction false} LogSource(outbox: seq<Event>, r: nat, i: nat) returns (k: nat)
    requires i < |LogOf(outbox, r)|
    ensures Carries(outbox, k, r, LogOf(outbox, r)[i])
  {
    var last := |outbox| - 1;
    if i < |LogOf(outbox[..last], r)| {
      k := LogSource(outbox[..last], r, i);
    } else {
      k := last;
    }
  }

  ghost predicate Carried(outbox: seq<Event>, r: nat, v: int) {
    exists k :: Carries(outbox, k, r, v)
  }

  /** Exactly the versions 2..version are announced, each by one event, in increasing order. */
  ghost predicate GapFree(outbox: seq<Event>, r: nat, version: int) {
    && (forall v :: Carried(outbox, r, v) <==> 2 <= v <= version)
    && (forall j, k, v, w :: Carries(outbox, j, r, v) && Carries(outbox, k, r, w) ==> (j < k <==> v < w))
  }

  lemma CarriedAt(outbox: seq<Event>, r: nat, version: int, k: nat, v: int)
    requires LogOf(outbox, r) == VersionsTo(version) && Carries(outbox, k, r, v)
    ensures v == |LogOf(outbox[..k], r)| + 2 <= version
  {
    LogPlace(outbox, r, k);
  }

  lemma LogIsGapFree(outbox: seq<Event>, r: nat, version: int)
    requires LogOf(outbox, r) == VersionsTo(version)
    ensures GapFree(outbox, r, version)
  {
    forall v ensures Carried(outbox, r, v) <==> 2 <= v <= version {
      if 2 <= v <= version {
        var k := LogSource(outbox, r, v - 2);
      }
      if Carried(outbox, r, v) {
        var k :| Carries(outbox, k, r, v);
        CarriedAt(outbox, r, version, k, v);
      }
    }
    forall j, k, v, w | Carries(outbox, j, r, v) && Carries(outbox, k, r, w) ensures j < k <==> v < w {
      CarriedAt(outbox, r, version, j, v);
      CarriedAt(outbox, r, version, k, w);
      if j < k { LogOrder(outbox, r, j, k); }
      if k < j { LogOrder(outbox, r, k, j); }
    }
  }

  lemma EveryLogIsGapFree(cs: seq<Command>, r: nat)
    ensures var db := FromEmpty(cs); r < |db.rounds| ==> GapFree(db.outbox, r, db.rounds[r].version)
  {
    var db := FromEmpty(cs);
    if r < |db.rounds| {
      assert LogInv(db.rounds, db.outbox);
      LogIsGapFree(db.outbox, r, db.rounds[r].version);
    }
  }

  // -------------------------------------------- a version stands for its content

  lemma {:induction false} NextWaitingDependsOnRound(a: seq<Entry>, b: seq<Entry>, r: nat, selected: Option<nat>)
    requires SameEntries(a, b, r)
    ensures NextWaiting(a, r, selected) == NextWaiting(b, r, selected)
    decreases |a| + |b|
  {
    if |a| < |b| {
      NextWaitingDependsOnRound(a, b[..|b| - 1], r, selected);
    } else if a != [] {
      NextWaitingDependsOnRound(a[..|a| - 1], b[..|b| - 1], r, selected);
    }
  }

  lemma RecitingDependsOnRound(a: seq<Entry>, b: seq<Entry>, r: nat)
    requires SameEntries(a, b, r)
    ensures AnyReciting(a, r) == AnyReciting(b, r)
  {
  }

  lemma AdvanceDependsOnRound(a: Db, b: Db, r: nat, expected: int)
    requires r < |a.rounds| && r < |b.rounds| && a.rounds[r] == b.rounds[r] && SameEntries(a.entries, b.entries, r)
    ensures DoAdvance(a, r, expected).Success? == DoAdvance(b, r, expected).Success?
    ensures DoAdvance(a, r, expected).Success? ==>
              DoAdvance(a, r, expected).value.rounds[r] == DoAdvance(b, r, expected).value.rounds[r]
  {
    NextWaitingDependsOnRound(a.entries, b.entries, r, a.rounds[r].selected);
    RecitingDependsOnRound(a.entries, b.entries, r);
  }

  /** What an advance does after any run, given the version read before it, is what its reader saw coming. */
  lemma AdvanceActsOnWhatWasRead(a: Db, b: Db, r: nat)
    requires VersionsIdentify(a, b) && r < |a.rounds|
    requires DoAdvance(b, r, a.rounds[r].version).Success?
    ensures DoAdvance(a, r, a.rounds[r].version).Success?
    ensures DoAdvance(b, r, a.rounds[r].version).value.rounds[r] == DoAdvance(a, r, a.rounds[r].version).value.rounds[r]
  {
    AdvanceDependsOnRound(a, b, r, a.rounds[r].version);
  }

  ghost predicate RoundAsRead(a: Db, b: Db, r: nat) {
    && r < |a.rounds| && r < |b.rounds| && b.rounds[r] == a.rounds[r] && SameEntries(a.entries, b.entries, r)
  }

  /** A command guarded by a round version succeeds only on the content that was read with it. */
  lemma RoundVersionGuards(a: Db, b: Db, r: nat, students: seq<nat>, roster: Roster, e: nat, position: int)
    requires VersionsIdentify(a, b) && Refs(b) && r < |a.rounds|
    ensures DoAdvance(b, r, a.rounds[r].version).Success? ==> RoundAsRead(a, b, r)
    ensures DoReorder(b, r, a.rounds[r].version, students, roster).Success? ==> RoundAsRead(a, b, r)
    ensures e < |b.entries| && b.entries[e].round == r && DoMove(b, e, a.rounds[r].version, position).Success? ==>
      RoundAsRead(a, b, r)
  {
  }

  /** A command guarded by an entry version succeeds only on the entry that was read with it. */
  lemma EntryVersionGuards(a: Db, b: Db, e: nat, actor: nat, grade: Option<Grade>, notes: Option<string>)
    requires VersionsIdentify(a, b) && Refs(b) && e < |a.entries|
    ensures DoStart(b, e, a.entries[e].version).Success? ==> b.entries[e] == a.entries[e]
    ensures DoComplete(b, e, a.entries[e].version, actor, grade, notes).Success? ==> b.entries[e] == a.entries[e]
    ensures DoCorrect(b, e, a.entries[e].version, grade, notes).Success? ==> b.entries[e] == a.entries[e]
    ensures DoSkip(b, e, a.entries[e].version, actor).Success? ==> b.entries[e] == a.entries[e]
  {
  }

  /** Between any state of a run and every later one, a version is unchanged exactly when its content is. */
  lemma VersionsStandForContent(a: Db, cs: seq<Command>, r: nat, e: nat)
    requires Inv(a) && r < |a.rounds| && e < |a.entries|
    ensures VersionsIdentify(a, Run(a, cs))
    ensures a.rounds[r].version == Run(a, cs).rounds[r].version <==> RoundAsRead(a, Run(a, cs), r)
    ensures a.entries[e].version == Run(a, cs).entries[e].version <==> a.entries[e] == Run(a, cs).entries[e]
  {
    assert VersionsIdentify(a, Run(a, cs));
    hide Inv, Steps;
  }

  // ---------------------------------------------------------------- round numbers

  function RoundCount(rounds: seq<Round>, s: nat): nat {
    if rounds == [] then 0 else
    RoundCount(rounds[..|rounds| - 1], s) + if rounds[|rounds| - 1].session == s then 1 else 0
  }

  lemma NumberedPrefix(rounds: seq<Round>)
    requires Numbered(rounds) && rounds != []
    ensures Numbered(rounds[..|rounds| - 1])
  {
    var front := rounds[..|rounds| - 1];
    forall r, n | 0 <= r < |front| && 1 <= n < front[r].number ensures NumberTaken(front, front[r].session, n) {
      assert NumberTaken(rounds, rounds[r].session, n);
      var k :| 0 <= k < |rounds| && rounds[k].session == rounds[r].session && rounds[k].number == n;
      assert front[k] == rounds[k];
    }
  }

  lemma TakenInFront(front: seq<Round>, last: Round, s: nat, n: int)
    ensures NumberTaken(front + [last], s, n) && last.number != n ==> NumberTaken(front, s, n)
  {
    if NumberTaken(front + [last], s, n) && last.number != n {
      var k :| 0 <= k <= |front| && (front + [last])[k].session == s && (front + [last])[k].number == n;
      assert front[k].session == s && front[k].number == n;
    }
  }

  /** The last round of a session takes the number after the ones before it. */
  lemma LastIsNext(front: seq<Round>, last: Round)
    requires Numbered(front + [last]) && Numbered(front)
    ensures last.number == MaxNumber(front, last.session) + 1
  {
    var s, rounds := last.session, front + [last];
    var top := MaxNumber(front, s);
    assert rounds[|front|] == last;
    TakenInFront(front, last, s, top + 1);
    assert last.number > top + 1 ==> NumberTaken(rounds, s, top + 1);
    AllNumbersTaken(front, s, top + 1);
    if top > 0 {
      var k :| 0 <= k < |front| && front[k].session == s && front[k].number == top;
      assert rounds[k] == front[k];
    }
  }

  lemma {:induction false} CountIsTop(rounds: seq<Round>, s: nat)
    requires Numbered(rounds)
    ensures RoundCount(rounds, s) == MaxNumber(rounds, s)
  {
    if rounds != [] {
      var front, last := rounds[..|rounds| - 1], rounds[|rounds| - 1];
      assert rounds == front + [last];
      NumberedPrefix(rounds);
      CountIsTop(front, s);
      LastIsNext(front, last);
    }
  }

  /** A session's round numbers are exactly 1..n for its n rounds; no two rounds share one. */
  lemma RoundNumbersAreOneToCount(cs: seq<Command>, s: nat)
    ensures var rounds := FromEmpty(cs).rounds;
      && (forall n :: NumberTaken(rounds, s, n) <==> 1 <= n <= RoundCount(rounds, s))
      && (forall q, r :: 0 <= q < r < |rounds| && rounds[q].session == s == rounds[r].session ==>
            rounds[q].number < rounds[r].number)
  {
    var rounds := FromEmpty(cs).rounds;
    assert Numbered(rounds);
    hide Inv;
    CountIsTop(rounds, s);
    forall n ensures NumberTaken(rounds, s, n) <==> 1 <= n <= RoundCount(rounds, s) {
      AllNumbersTaken(rounds, s, n);
    }
  }

  /** A round's positions are exactly 1..n for its n entries. */
  lemma PositionsAlwaysOneToCount(cs: seq<Command>, r: nat)
    ensures var db := FromEmpty(cs); r < |db.rounds| ==>
      && (forall p: int :: PositionTaken(db.entries, r, p) <==> 1 <= p <= EntryCount(db.entries, r))
      && PositionsDistinct(db.entries, r)
  {
    var db := FromEmpty(cs);
    if r < |db.rounds| {
      assert SlotsAt(db.rounds[r], r, db.entries);
      hide Inv;
      PositionsAreOneToCount(db.rounds[r], r, db.entries);
    }
  }

  // ------------------------------------------------------------- turns and grades

  predicate BothRecite(entries: seq<Entry>, r: nat, d: nat, e: nat) {
    && d < |entries| && e < |entries| && entries[d].round == r == entries[e].round
    && entries[d].status == Reciting && entries[e].status == Reciting
  }

  /** Whoever recites in an active round is its selection; a selection can still recite. */
  lemma SelectionIsTheOneReciter(cs: seq<Command>, r: nat, d: nat, e: nat)
    ensures var db := FromEmpty(cs); r < |db.rounds| ==>
      var round := db.rounds[r];
      && (round.selected == Some(e) ==>
            round.lifecycle == Active && e < |db.entries| && db.entries[e].round == r
              && Unfinished(db.entries[e].status))
      && (e < |db.entries| && db.entries[e].round == r && db.entries[e].status == Reciting
          && round.lifecycle == Active ==>
            round.selected == Some(e))
      && (BothRecite(db.entries, r, d, e) ==> d == e)
  {
    var db := FromEmpty(cs);
    if r < |db.rounds| {
      assert TurnAt(db.rounds[r], r, db.entries);
    }
  }

  /** An entry is completed exactly when it has a progress row, which agrees with it and with its round. */
  lemma ProgressMirrorsCompletion(cs: seq<Command>, e: nat)
    ensures var db := FromEmpty(cs); e < |db.entries| ==>
      var entry := db.entries[e];
      && entry.round < |db.rounds|
      && (e in db.progress <==> entry.status == Completed)
      && (e in db.progress ==> db.progress[e] == ProgressOf(db.rounds[entry.round], entry))
      && (entry.status == Completed && db.rounds[entry.round].gradingRequired ==> entry.grade.Some?)
      && (entry.status != Completed ==> entry.grade == None && entry.notes == None)
  {
    var db := FromEmpty(cs);
    if e < |db.entries| {
      assert ProgressFits(db.rounds[db.entries[e].round], db.entries[e], e, db.progress);
    }
  }

  /**
    An entry completed without marks, as every entry of a grading-optional round is, stays so
    through a correction exactly when the correction brings none; no correction removes a grade.
   */
  lemma CorrectLeavesUnmarked(db: Db, e: nat, expected: int, grade: Option<Grade>, notes: Option<string>)
    requires Refs(db) && DoCorrect(db, e, expected, grade, notes).Success?
    ensures var was, after := db.entries[e], DoCorrect(db, e, expected, grade, notes).value.entries[e];
      && (after.grade == None <==> was.grade == None && grade == None)
      && (after.notes == None <==> notes == Some("") || (notes == None && was.notes == None))
  {
  }

  // --------------------------------------------------------- activation and reset

  lemma {:induction false} KeepsDistinct(ids: seq<nat>, pool: seq<nat>)
    requires NoDuplicates(ids)
    ensures NoDuplicates(Keep(ids, pool)) && forall x :: x in Keep(ids, pool) <==> x in ids && x in pool
  {
    if ids != [] {
      assert ids == [ids[0]] + ids[1..];
      KeepsDistinct(ids[1..], pool);
    }
  }

  lemma {:induction false} DropsDistinct(ids: seq<nat>, taken: seq<nat>)
    requires NoDuplicates(ids)
    ensures NoDuplicates(Drop(ids, taken)) && forall x :: x in Drop(ids, taken) <==> x in ids && x !in taken
  {
    if ids != [] {
      assert ids == [ids[0]] + ids[1..];
      DropsDistinct(ids[1..], taken);
    }
  }

  /** The population is everyone in the pool exactly once, the pre-ordered first. */
  lemma PopulationIsThePool(preorder: seq<nat>, policy: PopulationPolicy, roster: Roster)
    requires NoDuplicates(preorder) && NoDuplicates(roster.members) && NoDuplicates(roster.present)
    ensures var students := PopulationOrder(preorder, policy, roster);
      && NoDuplicates(students)
      && (forall x :: x in students <==> x in if policy == AllActiveStudents then roster.members else roster.present)
  {
    var pool := if policy == AllActiveStudents then roster.members else roster.present;
    KeepsDistinct(preorder, pool);
    DropsDistinct(pool, preorder);
    var kept, rest := Keep(preorder, pool), Drop(pool, preorder);
    forall i, j | 0 <= i < j < |kept + rest| ensures (kept + rest)[i] != (kept + rest)[j] {
      assert i < |kept| ==> (kept + rest)[i] in kept;
      assert j >= |kept| ==> (kept + rest)[j] in rest;
    }
  }

  ghost predicate IsOnlyActive(rounds: seq<Round>, s: nat, r: nat) {
    && r < |rounds| && rounds[r].session == s && rounds[r].lifecycle == Active
    && forall q :: 0 <= q < |rounds| && q != r && rounds[q].session == s ==> rounds[q].lifecycle != Active
  }

  /** Distinct members make every activation succeed. */
  lemma ActivationSucceeds(db: Db, s: nat, roster: Roster, now: int)
    requires Inv(db) && s < |db.sessions|
    requires NoDuplicates(roster.members) && NoDuplicates(roster.present)
    ensures ActivateLowest(db, s, roster, now).Success?
  {
    hide TurnsInv, SlotsInv, ProgressInv, LogInv, RequestsInv, LocksInv, PopulationOrder, Numbered;
    if ActiveRound(db.rounds, s) == None && LowestPrepared(db.rounds, s).Some? {
      var r := LowestPrepared(db.rounds, s).value;
      var students := PopulationOrder(db.rounds[r].preorder, db.sessions[s].policy.population, roster);
      PopulationIsThePool(db.rounds[r].preorder, db.sessions[s].policy.population, roster);
      ActivationResult(db, s, r, students, roster, now);
    }
  }

  /** A session with a prepared round has exactly one active round once an activation has committed. */
  lemma ActivationLeavesOne(db: Db, s: nat, roster: Roster, now: int)
    requires Inv(db) && s < |db.sessions| && ActivateLowest(db, s, roster, now).Success?
    requires LowestPrepared(db.rounds, s).Some?
    ensures exists r :: IsOnlyActive(ActivateLowest(db, s, roster, now).value.rounds, s, r)
  {
    hide TurnsInv, SlotsInv, ProgressInv, LogInv, RequestsInv, LocksInv, PopulationOrder, Numbered;
    var active := ActiveRound(db.rounds, s);
    if active.Some? {
      assert IsOnlyActive(db.rounds, s, active.value);
    } else {
      var r := LowestPrepared(db.rounds, s).value;
      var students := PopulationOrder(db.rounds[r].preorder, db.sessions[s].policy.population, roster);
      ActivationResult(db, s, r, students, roster, now);
      assert IsOnlyActive(ActivateLowest(db, s, roster, now).value.rounds, s, r);
    }
  }

  /** Every successful reset, in one transaction or in two, leaves exactly one active round. */
  lemma ResetLeavesOneActive(db: Db, s: nat, input: RoundInput, roster: Roster, actor: Option<nat>, now: int)
    requires Inv(db)
    ensures DoReset(db, s, input, roster, actor, now).Success? ==>
              exists r :: IsOnlyActive(DoReset(db, s, input, roster, actor, now).value.rounds, s, r)
    ensures DoResetOpen(db, s, roster, now).Success? ==>
              exists r :: IsOnlyActive(DoResetOpen(db, s, roster, now).value.rounds, s, r)
  {
    hide RoundsInv, TurnsInv, SlotsInv, ProgressInv, LogInv, RequestsInv, Evolves, ActivateLowest, IsOnlyActive;
    if DoReset(db, s, input, roster, actor, now).Success? {
      CloseSteps(db, s, input, roster, actor);
      ActivationLeavesOne(DoResetClose(db, s, input, roster, actor).value.(resetting := db.resetting), s, roster, now);
    }
    if DoResetOpen(db, s, roster, now).Success? {
      ReleaseSteps(db, s);
      ActivationLeavesOne(db.(resetting := db.resetting - {s}), s, roster, now);
    }
  }

  /** Whatever runs between its halves, a reset of a live session can be completed. */
  lemma ResetCanComplete(db: Db, s: nat, cs: seq<Command>, roster: Roster, now: int)
    requires Inv(db) && NoDuplicates(roster.members) && NoDuplicates(roster.present)
    ensures var b := Run(db, cs);
      s in b.resetting && s < |b.sessions| && b.sessions[s].status == Live ==> DoResetOpen(b, s, roster, now).Success?
  {
    hide RoundsInv, TurnsInv, SlotsInv, ProgressInv, LogInv, RequestsInv, Evolves, ActivateLowest;
    var b := Run(db, cs);
    if s in b.resetting && s < |b.sessions| && b.sessions[s].status == Live {
      ReleaseSteps(b, s);
      ActivationSucceeds(b.(resetting := b.resetting - {s}), s, roster, now);
    }
  }

  // -------------------------------------------------------- finalized is terminal

  ghost predicate OnlyMarksChange(a: Db, b: Db, r: nat) {
    && r < |a.rounds| && r < |b.rounds| && |a.entries| <= |b.entries|
    && b.rounds[r] == a.rounds[r].(version := b.rounds[r].version)
    && (forall e :: 0 <= e < |b.entries| && b.entries[e].round == r ==>
          e < |a.entries| && SameButMarks(a.entries[e], b.entries[e]))
    && EntryCount(b.entries, r) == EntryCount(a.entries, r)
  }

  lemma FinalizedKeeps(a: Db, b: Db, r: nat)
    requires Refs(a) && FinalizedStays(a, b) && Grows(a, b)
    requires r < |a.rounds| && a.rounds[r].lifecycle == Finalized
    ensures OnlyMarksChange(a, b, r)
  {
    CountStays(a.entries, b.entries, r);
  }

  /** Over every run, a finalized round keeps its row, its entries and everything in them but grades and notes. */
  lemma FinalizedIsTerminal(a: Db, cs: seq<Command>, r: nat)
    requires Inv(a) && r < |a.rounds| && a.rounds[r].lifecycle == Finalized
    ensures OnlyMarksChange(a, Run(a, cs), r)
  {
    FinalizedKeeps(a, Run(a, cs), r);
  }

  lemma {:induction false} CountStays(a: seq<Entry>, b: seq<Entry>, r: nat)
    requires |a| <= |b| && forall e :: 0 <= e < |a| ==> b[e].round == a[e].round
    requires forall e :: |a| <= e < |b| ==> b[e].round != r
    ensures EntryCount(a, r) == EntryCount(b, r)
    decreases |a| + |b|
  {
    if |a| < |b| {
      CountStays(a, b[..|b| - 1], r);
    } else if a != [] {
      CountStays(a[..|a| - 1], b[..|b| - 1], r);
    }
  }

  ghost predicate Closed(db: Db, s: nat) {
    && s < |db.sessions| && db.sessions[s].status == Ended
    && forall r :: 0 <= r < |db.rounds| && db.rounds[r].session == s ==> db.rounds[r].lifecycle == Finalized
  }

  /** Once an ended session has only finalized rounds it never has another kind again. */
  lemma ClosedForever(a: Db, cs: seq<Command>, s: nat)
    requires Inv(a) && Closed(a, s)
    ensures Closed(Run(a, cs), s)
  {
    var b := Run(a, cs);
    assert FinalizedStays(a, b) && Grows(a, b) && Forward(a, b);
    hide Inv, Steps;
  }

  predicate NewlyActivated(a: Db, b: Db, r: nat) {
    r < |b.rounds| && b.rounds[r].activatedAt.Some? && (r < |a.rounds| ==> a.rounds[r].activatedAt == None)
  }

  lemma LaterIsHigher(a: Db, b: Db, q: nat, r: nat)
    requires ActivatesUpward(a, b) && q < |a.rounds| && a.rounds[q].activatedAt.Some?
    ensures q < |b.rounds| && b.rounds[q].activatedAt == a.rounds[q].activatedAt
    ensures NewlyActivated(a, b, r) && b.rounds[r].session == a.rounds[q].session ==>
      b.rounds[r].number > a.rounds[q].number
  {
  }

  /** A round activated after state a has a higher number than every round ever activated in it. */
  lemma ActivationOrderIncreases(a: Db, cs: seq<Command>, q: nat, r: nat)
    requires Inv(a) && q < |a.rounds| && a.rounds[q].activatedAt.Some?
    ensures var b := Run(a, cs);
      && q < |b.rounds| && b.rounds[q].activatedAt == a.rounds[q].activatedAt
      && (NewlyActivated(a, b, r) && b.rounds[r].session == a.rounds[q].session ==>
            b.rounds[r].number > a.rounds[q].number)
  {
    hide Inv, Grows, VersionsIdentify, FinalizedStays, Forward, ActivatesUpward;
    LaterIsHigher(a, Run(a, cs), q, r);
  }
}
