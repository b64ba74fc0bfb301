/** Grades and notes in rounds that ask for none: only a correction can bring one in. */
module QueueMarks {
  import opened Wrappers
  import opened QueueModel
  import opened QueueInvariants
  import opened QueueSteps
  import opened QueueRuns

  ghost predicate Bare(entry: Entry) { entry.grade == None && entry.notes == None }

  /** No entry of a grading-optional round carries a grade or a note. */
  ghost predicate OptionalBare(db: Db) {
    forall e | 0 <= e < |db.entries| && db.entries[e].round < |db.rounds|
      && !db.rounds[db.entries[e].round].gradingRequired ::
      Bare(db.entries[e])
  }

  /** Rounds keep what they ask for; entries keep their marks, lose them, or belong to a grading-required round. */
  ghost predicate MarksFollow(a: Db, b: Db) {
    && |a.rounds| <= |b.rounds| && |a.entries| <= |b.entries|
    && (forall r :: 0 <= r < |a.rounds| ==> b.rounds[r].gradingRequired == a.rounds[r].gradingRequired)
    && (forall e :: 0 <= e < |a.entries| && a.entries[e].round < |a.rounds| ==>
          b.entries[e].round == a.entries[e].round
          && (Bare(b.entries[e]) || a.rounds[a.entries[e].round].gradingRequired
              || (b.entries[e].grade == a.entries[e].grade && b.entries[e].notes == a.entries[e].notes)))
    && (forall e :: |a.entries| <= e < |b.entries| ==> Bare(b.entries[e]))
  }

  lemma FollowKeepsBare(a: Db, b: Db)
    requires Refs(a) && OptionalBare(a) && MarksFollow(a, b)
    ensures OptionalBare(b)
  {
  }

  lemma ActivateFollows(db: Db, s: nat, roster: Roster, now: int)
    requires Refs(db) && s < |db.sessions| && ActivateLowest(db, s, roster, now).Success?
    ensures MarksFollow(db, ActivateLowest(db, s, roster, now).value)
  {
    hide PopulationOrder;
  }

  lemma FinalizeFollows(db: Db, r: nat, actor: Option<nat>)
    requires Refs(db) && r < |db.rounds|
    ensures MarksFollow(db, FinalizeRound(db, r, actor))
  {
  }

  lemma CreateFollows(db: Db, s: nat, input: RoundInput, roster: Roster)
    requires Refs(db) && s < |db.sessions| && CreateRound(db, s, input, roster).Success?
    ensures MarksFollow(db, CreateRound(db, s, input, roster).value) && Refs(CreateRound(db, s, input, roster).value)
    ensures CreateRound(db, s, input, roster).value.sessions == db.sessions
  {
  }

  lemma PrepareBare(db: Db, s: nat, input: RoundInput, roster: Roster, now: int)
    requires Refs(db) && OptionalBare(db) && DoPrepare(db, s, input, roster, now).Success?
    ensures OptionalBare(DoPrepare(db, s, input, roster, now).value)
  {
    hide MarksFollow, OptionalBare, Refs, ActivateLowest, CreateRound;
    CreateFollows(db, s, input, roster);
    var created := CreateRound(db, s, input, roster).value;
    FollowKeepsBare(db, created);
    if db.sessions[s].status != Planned {
      ActivateFollows(created, s, roster, now);
      FollowKeepsBare(created, ActivateLowest(created, s, roster, now).value);
    }
  }

  lemma FinalizeKeepsRefs(db: Db, r: nat, actor: Option<nat>)
    requires Refs(db) && r < |db.rounds|
    ensures Refs(FinalizeRound(db, r, actor)) && FinalizeRound(db, r, actor).sessions == db.sessions
  {
  }

  lemma CloseBare(db: Db, s: nat, input: RoundInput, roster: Roster, actor: Option<nat>)
    requires Refs(db) && OptionalBare(db) && DoResetClose(db, s, input, roster, actor).Success?
    ensures var b := DoResetClose(db, s, input, roster, actor).value;
      Refs(b) && OptionalBare(b) && b.sessions == db.sessions && s < |db.sessions|
  {
    hide MarksFollow, ActivateLowest, FinalizeRound;
    var r := ActiveRound(db.rounds, s).value;
    var finalized := FinalizeRound(db, r, actor);
    FinalizeFollows(db, r, actor);
    FinalizeKeepsRefs(db, r, actor);
    FollowKeepsBare(db, finalized);
    CreateFollows(finalized, s, input, roster);
    FollowKeepsBare(finalized, CreateRound(finalized, s, input, roster).value);
  }

  lemma ResetBare(db: Db, s: nat, input: RoundInput, roster: Roster, actor: Option<nat>, now: int)
    requires Refs(db) && OptionalBare(db) && DoReset(db, s, input, roster, actor, now).Success?
    ensures OptionalBare(DoReset(db, s, input, roster, actor, now).value)
  {
    CloseBare(db, s, input, roster, actor);
    var closed := DoResetClose(db, s, input, roster, actor).value.(resetting := db.resetting);
    assert Refs(closed) && OptionalBare(closed);
    hide MarksFollow, OptionalBare, Refs, ActivateLowest, DoResetClose;
    ActivateFollows(closed, s, roster, now);
    FollowKeepsBare(closed, ActivateLowest(closed, s, roster, now).value);
  }

  lemma OpenBare(db: Db, s: nat, roster: Roster, now: int)
    requires Refs(db) && OptionalBare(db) && DoResetOpen(db, s, roster, now).Success?
    ensures OptionalBare(DoResetOpen(db, s, roster, now).value)
  {
    var released := db.(resetting := db.resetting - {s});
    assert Refs(released) && OptionalBare(released);
    hide MarksFollow, OptionalBare, Refs, ActivateLowest;
    ActivateFollows(released, s, roster, now);
    FollowKeepsBare(released, ActivateLowest(released, s, roster, now).value);
  }

  lemma StartFollows(db: Db, e: nat, expected: int)
    requires Refs(db) && DoStart(db, e, expected).Success?
    ensures MarksFollow(db, DoStart(db, e, expected).value)
  {
  }

  lemma CompleteFollows(db: Db, e: nat, expected: int, actor: nat, grade: Option<Grade>, notes: Option<string>)
    requires Refs(db) && DoComplete(db, e, expected, actor, grade, notes).Success?
    ensures MarksFollow(db, DoComplete(db, e, expected, actor, grade, notes).value)
  {
  }

  lemma SkipFollows(db: Db, e: nat, expected: int, actor: nat)
    requires Refs(db) && DoSkip(db, e, expected, actor).Success?
    ensures MarksFollow(db, DoSkip(db, e, expected, actor).value)
  {
  }

  lemma RequestFollows(db: Db, s: nat, student: nat)
    requires Refs(db) && DoRequestOptOut(db, s, student).Success?
    ensures MarksFollow(db, DoRequestOptOut(db, s, student).value)
  {
  }

  lemma DecideFollows(db: Db, route: Option<nat>, q: nat, manager: nat, decision: RequestStatus, expected: int)
    requires Refs(db) && DoDecide(db, route, q, manager, decision, expected).Success?
    ensures MarksFollow(db, DoDecide(db, route, q, manager, decision, expected).value)
  {
  }

  lemma MoveFollows(db: Db, e: nat, expected: int, position: int)
    requires Refs(db) && DoMove(db, e, expected, position).Success?
    ensures MarksFollow(db, DoMove(db, e, expected, position).value)
  {
  }

  lemma JoinFollows(db: Db, s: nat, user: nat, membership: Option<Membership>)
    requires Refs(db) && DoAppendLateJoiner(db, s, user, membership).Success?
    ensures MarksFollow(db, DoAppendLateJoiner(db, s, user, membership).value)
  {
  }

  lemma RowsFollow(db: Db, r: nat, expected: int, students: seq<nat>, roster: Roster)
    requires Refs(db)
    ensures DoAdvance(db, r, expected).Success? ==> MarksFollow(db, DoAdvance(db, r, expected).value)
    ensures DoReorder(db, r, expected, students, roster).Success? ==>
      MarksFollow(db, DoReorder(db, r, expected, students, roster).value)
  {
  }

  lemma ClosingFollows(db: Db, s: nat, actor: Option<nat>, r: nat)
    requires Refs(db)
    ensures DoFinalizeActiveRound(db, s, actor).Success? ==> MarksFollow(db, DoFinalizeActiveRound(db, s, actor).value)
    ensures DoConvergeRound(db, r).Success? ==> MarksFollow(db, DoConvergeRound(db, r).value)
  {
    hide FinalizeRound;
    var active := ActiveRound(db.rounds, s);
    if active.Some? { FinalizeFollows(db, active.value, actor); }
    if r < |db.rounds| { FinalizeFollows(db, r, None); }
  }

  lemma ActivateIfNeededFollows(db: Db, s: nat, roster: Roster, now: int)
    requires Refs(db) && DoActivateIfNeeded(db, s, roster, now).Success?
    ensures MarksFollow(db, DoActivateIfNeeded(db, s, roster, now).value)
  {
    hide ActivateLowest;
    if db.sessions[s].status == Live { ActivateFollows(db, s, roster, now); }
  }

  /** Every command that is a single commit step, corrections aside. */
  lemma ApplyFollows(db: Db, c: Command)
    requires Refs(db) && Apply(db, c).Success?
    requires !c.Correct? && !c.Prepare? && !c.Reset? && !c.ResetClose? && !c.ResetOpen?
    ensures MarksFollow(db, Apply(db, c).value)
  {
    hide Refs, DoStart, DoComplete, DoSkip, DoRequestOptOut, DoDecide, DoMove, DoAppendLateJoiner, DoAdvance, DoReorder,
      DoFinalizeActiveRound, DoConvergeRound, DoActivateIfNeeded;
    match c
    case Start(e, expected) => StartFollows(db, e, expected);
    case Complete(e, expected, actor, grade, notes) => CompleteFollows(db, e, expected, actor, grade, notes);
    case Skip(e, expected, actor) => SkipFollows(db, e, expected, actor);
    case RequestOptOut(s, student) => RequestFollows(db, s, student);
    case Decide(route, q, manager, decision, expected) => DecideFollows(db, route, q, manager, decision, expected);
    case Move(e, expected, position) => MoveFollows(db, e, expected, position);
    case AppendLateJoiner(s, user, membership) => JoinFollows(db, s, user, membership);
    case Advance(r, expected) => RowsFollow(db, r, expected, [], Roster([], []));
    case Reorder(r, expected, students, roster) => RowsFollow(db, r, expected, students, roster);
    case FinalizeActiveRound(s, actor) => ClosingFollows(db, s, actor, 0);
    case ConvergeRound(r) => ClosingFollows(db, 0, None, r);
    case ActivateIfNeeded(s, roster, now) => ActivateIfNeededFollows(db, s, roster, now);
    case _ =>
  }

  lemma ApplyBare(db: Db, c: Command)
    requires Refs(db) && OptionalBare(db) && !c.Correct? && Apply(db, c).Success?
    ensures OptionalBare(Apply(db, c).value)
  {
    hide MarksFollow, OptionalBare, Refs, Apply;
    if c.Prepare? || c.Reset? || c.ResetClose? || c.ResetOpen? {
      RoundsBare(db, c);
    } else {
      ApplyFollows(db, c);
      FollowKeepsBare(db, Apply(db, c).value);
    }
  }

  lemma RoundsBare(db: Db, c: Command)
    requires Refs(db) && OptionalBare(db) && Apply(db, c).Success?
    requires c.Prepare? || c.Reset? || c.ResetClose? || c.ResetOpen?
    ensures OptionalBare(Apply(db, c).value)
  {
    hide OptionalBare, Refs, DoPrepare, DoReset, DoResetClose, DoResetOpen;
    match c
    case Prepare(s, input, roster, now) => PrepareBare(db, s, input, roster, now);
    case Reset(s, input, roster, actor, now) => ResetBare(db, s, input, roster, actor, now);
    case ResetClose(s, input, roster, actor) => CloseBare(db, s, input, roster, actor);
    case ResetOpen(s, roster, now) => OpenBare(db, s, roster, now);
  }

  lemma StepBare(db: Db, c: Command)
    requires Inv(db) && OptionalBare(db) && !c.Correct?
    ensures OptionalBare(Step(db, c))
  {
    hide RoundsInv, TurnsInv, SlotsInv, ProgressInv, LogInv, RequestsInv, LocksInv, Steps, OptionalBare, Apply;
    if Apply(db, c).Success? { ApplyBare(db, c); }
  }

  /** Over every run without corrections, grading-optional rounds carry no grade and no note. */
  lemma {:induction false} OnlyCorrectionsMark(db: Db, cs: seq<Command>)
    requires Inv(db) && OptionalBare(db) && forall k :: 0 <= k < |cs| ==> !cs[k].Correct?
    ensures OptionalBare(Run(db, cs))
    decreases |cs|
  {
    hide Inv, OptionalBare, Evolves, Step;
    if cs != [] {
      StepBare(db, cs[0]);
      OnlyCorrectionsMark(Step(db, cs[0]), cs[1..]);
    }
  }
}
