/** Finalized rounds over runs: the one way to change anything of them is a correction that commits. */
module QueueSealed {
  import opened Wrappers
  import opened QueueModel
  import opened QueueInvariants
  import opened QueueSteps
  import opened QueueRuns

  /** The command corrects an entry of round r. */
  predicate CorrectsIn(db: Db, c: Command, r: nat) {
    c.Correct? && c.entry < |db.entries| && db.entries[c.entry].round == r
  }

  /** Some correction of an entry of round r commits during the run. */
  ghost predicate CorrectedIn(db: Db, cs: seq<Command>, r: nat)
    requires Inv(db)
    decreases |cs|
  {
    cs != [] && ((CorrectsIn(db, cs[0], r) && Apply(db, cs[0]).Success?) || CorrectedIn(Step(db, cs[0]), cs[1..], r))
  }

  /** Finalized rows are the same, version included. */
  ghost predicate RowsHeld(a: seq<Round>, b: seq<Round>) {
    && |a| <= |b|
    && forall r :: 0 <= r < |a| && a[r].lifecycle == Finalized ==> b[r] == a[r]
  }

  lemma ActivateHolds(db: Db, s: nat, roster: Roster, now: int)
    requires s < |db.sessions| && ActivateLowest(db, s, roster, now).Success?
    ensures RowsHeld(db.rounds, ActivateLowest(db, s, roster, now).value.rounds)
  {
  }

  lemma CloseHolds(db: Db, s: nat, input: RoundInput, roster: Roster, actor: Option<nat>)
    requires Refs(db) && DoResetClose(db, s, input, roster, actor).Success?
    ensures var b := DoResetClose(db, s, input, roster, actor).value;
      RowsHeld(db.rounds, b.rounds) && b.sessions == db.sessions && s < |db.sessions|
  {
  }

  lemma RoundCommandsHold(db: Db, c: Command)
    requires Refs(db) && Apply(db, c).Success?
    requires OnRounds(c)
    ensures RowsHeld(db.rounds, Apply(db, c).value.rounds)
  {
    hide ActivateLowest;
    match c
    case Prepare(s, input, roster, now) =>
      var created := CreateRound(db, s, input, roster).value;
      if db.sessions[s].status != Planned { ActivateHolds(created, s, roster, now); }
    case ActivateIfNeeded(s, roster, now) =>
      if db.sessions[s].status == Live { ActivateHolds(db, s, roster, now); }
    case Reset(s, input, roster, actor, now) =>
      CloseHolds(db, s, input, roster, actor);
      hide DoResetClose;
      ActivateHolds(DoResetClose(db, s, input, roster, actor).value.(resetting := db.resetting), s, roster, now);
    case ResetClose(s, input, roster, actor) => CloseHolds(db, s, input, roster, actor);
    case ResetOpen(s, roster, now) => ActivateHolds(db.(resetting := db.resetting - {s}), s, roster, now);
    case _ =>
  }

  predicate OnRounds(c: Command) {
    c.Prepare? || c.ActivateIfNeeded? || c.Reset? || c.ResetClose? || c.ResetOpen? || c.FinalizeActiveRound?
      || c.ConvergeRound?
  }

  predicate OnEntries(c: Command) {
    c.Start? || c.Complete? || c.Correct? || c.Skip? || c.RequestOptOut? || c.Decide? || c.Move?
  }

  lemma EntryCommandsHold(db: Db, c: Command, r: nat)
    requires Refs(db) && Apply(db, c).Success? && OnEntries(c)
    requires r < |db.rounds| && db.rounds[r].lifecycle == Finalized && !CorrectsIn(db, c, r)
    ensures r < |Apply(db, c).value.rounds| && Apply(db, c).value.rounds[r] == db.rounds[r]
  {
  }

  lemma OtherCommandsHold(db: Db, c: Command, r: nat)
    requires Refs(db) && Apply(db, c).Success? && !OnRounds(c) && !OnEntries(c)
    requires r < |db.rounds| && db.rounds[r].lifecycle == Finalized
    ensures r < |Apply(db, c).value.rounds| && Apply(db, c).value.rounds[r] == db.rounds[r]
  {
  }

  /** One step that corrects nothing of a finalized round leaves its row and all its entries as they are. */
  lemma SealedStep(db: Db, c: Command, r: nat)
    requires Inv(db) && r < |db.rounds| && db.rounds[r].lifecycle == Finalized
    requires !(CorrectsIn(db, c, r) && Apply(db, c).Success?)
    ensures RoundAsRead(db, Step(db, c), r)
  {
    hide TurnsInv, ProgressInv, LogInv, RequestsInv, LocksInv, Numbered;
    if Apply(db, c).Success? {
      if OnRounds(c) {
        RoundCommandsHold(db, c);
      } else if OnEntries(c) {
        EntryCommandsHold(db, c, r);
      } else {
        OtherCommandsHold(db, c, r);
      }
    }
    hide Apply, Inv;
    assert VersionsIdentify(db, Step(db, c));
  }

  lemma CorrectionShows(db: Db, c: Command, r: nat)
    requires Inv(db) && r < |db.rounds| && CorrectsIn(db, c, r) && Apply(db, c).Success?
    ensures r < |Step(db, c).rounds| && Step(db, c).rounds[r].version > db.rounds[r].version
  {
    hide RoundsInv, TurnsInv, SlotsInv, ProgressInv, LogInv, RequestsInv, LocksInv, Steps;
  }

  lemma ReadThrough(a: Db, b: Db, c: Db, r: nat)
    requires VersionsIdentify(a, b) && VersionsIdentify(b, c) && r < |a.rounds|
    ensures RoundAsRead(a, b, r) ==> (RoundAsRead(a, c, r) <==> RoundAsRead(b, c, r))
    ensures a.rounds[r].version < b.rounds[r].version ==> !RoundAsRead(a, c, r)
  {
  }

  lemma StaysFinalized(a: Db, b: Db, r: nat)
    requires FinalizedStays(a, b) && r < |a.rounds| && a.rounds[r].lifecycle == Finalized
    ensures r < |b.rounds| && b.rounds[r].lifecycle == Finalized
  {
  }

  lemma OneStepThrough(a: Db, c: Command, end: Db, r: nat)
    requires Inv(a) && r < |a.rounds| && a.rounds[r].lifecycle == Finalized && Steps(Step(a, c), end)
    ensures if CorrectsIn(a, c, r) && Apply(a, c).Success? then !RoundAsRead(a, end, r)
            else RoundAsRead(a, end, r) <==> RoundAsRead(Step(a, c), end, r)
    ensures r < |Step(a, c).rounds| && Step(a, c).rounds[r].lifecycle == Finalized
  {
    var b, committed := Step(a, c), Apply(a, c).Success?;
    hide Inv, Apply, Grows, VersionsIdentify, FinalizedStays, Forward, ActivatesUpward, RoundAsRead, Step;
    ReadThrough(a, b, end, r);
    StaysFinalized(a, b, r);
    if CorrectsIn(a, c, r) && committed {
      CorrectionShows(a, c, r);
    } else {
      SealedStep(a, c, r);
    }
  }

  /**
    Over every run, a finalized round and all its entries are as they were exactly when no correction
    of one of its entries committed; whatever else ran touched nothing of it, not even a version.
   */
  lemma {:induction false} FinalizedOnlyCorrected(a: Db, cs: seq<Command>, r: nat)
    requires Inv(a) && r < |a.rounds| && a.rounds[r].lifecycle == Finalized
    ensures RoundAsRead(a, Run(a, cs), r) <==> !CorrectedIn(a, cs, r)
    decreases |cs|
  {
    hide Inv, Apply, Step, CorrectsIn, VersionsIdentify, FinalizedStays, Forward, ActivatesUpward;
    if cs == [] {
      assert Run(a, cs) == a && !CorrectedIn(a, cs, r);
    } else {
      hide Run, RoundAsRead, Evolves;
      FirstStepThrough(a, cs, r);
      FinalizedOnlyCorrected(Step(a, cs[0]), cs[1..], r);
    }
  }

  /** What the first command of a run means for the rest of it. */
  lemma FirstStepThrough(a: Db, cs: seq<Command>, r: nat)
    requires Inv(a) && r < |a.rounds| && a.rounds[r].lifecycle == Finalized && cs != []
    ensures var b, end := Step(a, cs[0]), Run(a, cs);
      && Inv(b) && end == Run(b, cs[1..]) && r < |b.rounds| && b.rounds[r].lifecycle == Finalized
      && (if CorrectsIn(a, cs[0], r) && Apply(a, cs[0]).Success? then CorrectedIn(a, cs, r) && !RoundAsRead(a, end, r)
          else (CorrectedIn(a, cs, r) <==> CorrectedIn(b, cs[1..], r))
               && (RoundAsRead(a, end, r) <==> RoundAsRead(b, end, r)))
  {
    hide Inv, Apply, Evolves, RoundAsRead, Step, CorrectsIn;
    OneStepThrough(a, cs[0], Run(Step(a, cs[0]), cs[1..]), r);
  }
}
