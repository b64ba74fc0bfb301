/** What a completed entry keeps over runs, and when the policy of its session makes that final. */
module QueueCorrections {
  import opened Wrappers
  import opened QueueModel
  import opened QueueInvariants
  import opened QueueSteps
  import opened QueueRuns
  import opened QueueVerdicts

  /** Completed still, and the same but for its place in the queue. */
  ghost predicate Kept(a: seq<Entry>, b: seq<Entry>, e: nat) {
    && e < |a| && e < |b|
    && a[e].status == Completed && b[e] == a[e].(position := b[e].position, version := b[e].version)
  }

  /** The policy of its session lets a correction of the entry through. */
  ghost predicate Correctable(db: Db, e: nat)
    requires Refs(db) && e < |db.entries|
  {
    var round := db.rounds[db.entries[e].round];
    match db.sessions[round.session].policy.correction
    case AuditedAnyTime => true
    case BeforeRoundFinalization => round.lifecycle != Finalized
    case Immutable => false
  }

  lemma ActivateKeepsEntry(db: Db, s: nat, roster: Roster, now: int, e: nat)
    requires s < |db.sessions| && ActivateLowest(db, s, roster, now).Success? && e < |db.entries|
    requires db.entries[e].status == Completed
    ensures Kept(db.entries, ActivateLowest(db, s, roster, now).value.entries, e)
  {
    hide PopulationOrder;
  }

  lemma CloseKeepsEntry(db: Db, s: nat, input: RoundInput, roster: Roster, actor: Option<nat>, e: nat)
    requires Refs(db) && DoResetClose(db, s, input, roster, actor).Success?
    requires e < |db.entries| && db.entries[e].status == Completed
    ensures var b := DoResetClose(db, s, input, roster, actor).value;
      s < |db.sessions| && b.sessions == db.sessions && Kept(db.entries, b.entries, e)
  {
  }

  lemma CreateKeepsEntries(db: Db, s: nat, input: RoundInput, roster: Roster)
    requires CreateRound(db, s, input, roster).Success?
    ensures var b := CreateRound(db, s, input, roster).value; b.entries == db.entries && b.sessions == db.sessions
  {
  }

  lemma RoundCommandsKeep(db: Db, c: Command, e: nat)
    requires Refs(db) && Apply(db, c).Success? && e < |db.entries| && db.entries[e].status == Completed
    requires c.Prepare? || c.ActivateIfNeeded? || c.Reset? || c.ResetClose? || c.ResetOpen?
    ensures Kept(db.entries, Apply(db, c).value.entries, e)
  {
    hide Refs, ActivateLowest, DoResetClose, CreateRound;
    match c
    case Prepare(s, input, roster, now) =>
      var created := CreateRound(db, s, input, roster).value;
      CreateKeepsEntries(db, s, input, roster);
      if db.sessions[s].status != Planned { ActivateKeepsEntry(created, s, roster, now, e); }
    case ActivateIfNeeded(s, roster, now) =>
      if db.sessions[s].status == Live { ActivateKeepsEntry(db, s, roster, now, e); }
    case Reset(s, input, roster, actor, now) =>
      CloseKeepsEntry(db, s, input, roster, actor, e);
      var closed := DoResetClose(db, s, input, roster, actor).value.(resetting := db.resetting);
      ActivateKeepsEntry(closed, s, roster, now, e);
    case ResetClose(s, input, roster, actor) => CloseKeepsEntry(db, s, input, roster, actor, e);
    case ResetOpen(s, roster, now) => ActivateKeepsEntry(db.(resetting := db.resetting - {s}), s, roster, now, e);
  }

  lemma TurnCommandsKeep(db: Db, c: Command, e: nat)
    requires Refs(db) && Apply(db, c).Success? && e < |db.entries| && db.entries[e].status == Completed
    requires c.Start? || c.Complete? || c.Skip? || c.RequestOptOut? || c.Decide? || (c.Correct? && c.entry != e)
    ensures Kept(db.entries, Apply(db, c).value.entries, e)
  {
  }

  lemma OtherCommandsKeep(db: Db, c: Command, e: nat)
    requires Refs(db) && Apply(db, c).Success? && e < |db.entries| && db.entries[e].status == Completed
    requires c.Move? || c.AppendLateJoiner? || c.Advance? || c.Reorder? || c.FinalizeActiveRound? || c.ConvergeRound?
      || c.UpdatePolicy? || c.CreateSession? || c.StartSession? || c.EndSession? || c.ResetAbandon?
    ensures Kept(db.entries, Apply(db, c).value.entries, e)
  {
  }

  /** One step keeps a completed entry, unless it corrects this very entry and the policy lets it. */
  lemma StepKeeps(db: Db, c: Command, e: nat)
    requires Inv(db) && e < |db.entries| && db.entries[e].status == Completed
    requires c.Correct? && c.entry == e ==> !Correctable(db, e)
    ensures Kept(db.entries, Step(db, c).entries, e)
  {
    hide RoundsInv, TurnsInv, SlotsInv, ProgressInv, LogInv, RequestsInv, LocksInv, Steps;
    if Apply(db, c).Success? {
      if c.Correct? && c.entry == e {
        CorrectVerdict(db, e, c.expected, c.grade, c.notes);
      } else {
        hide Apply;
        CommandKeeps(db, c, e);
      }
    }
  }

  lemma CommandKeeps(db: Db, c: Command, e: nat)
    requires Refs(db) && Apply(db, c).Success? && e < |db.entries| && db.entries[e].status == Completed
    requires c.Correct? ==> c.entry != e
    ensures Kept(db.entries, Apply(db, c).value.entries, e)
  {
    hide Apply, Kept, Refs;
    if c.Prepare? || c.ActivateIfNeeded? || c.Reset? || c.ResetClose? || c.ResetOpen? {
      RoundCommandsKeep(db, c, e);
    } else if c.Start? || c.Complete? || c.Skip? || c.RequestOptOut? || c.Decide? || c.Correct? {
      TurnCommandsKeep(db, c, e);
    } else {
      OtherCommandsKeep(db, c, e);
    }
  }

  /** In no state of the run does the policy let a correction of the entry through. */
  ghost predicate ClosedToCorrection(db: Db, cs: seq<Command>, e: nat)
    requires Inv(db) && e < |db.entries|
    decreases |cs|
  {
    && !Correctable(db, e)
    && (cs != [] ==> e < |Step(db, cs[0]).entries| && ClosedToCorrection(Step(db, cs[0]), cs[1..], e))
  }

  /**
    A completed entry stays as it is, but for its place, over every run whose policies never let a
    correction of it through: an immutable one does not, nor one that ends with its round.
   */
  lemma {:induction false} CompletedIsFinal(db: Db, cs: seq<Command>, e: nat)
    requires Inv(db) && e < |db.entries| && db.entries[e].status == Completed && ClosedToCorrection(db, cs, e)
    ensures Kept(db.entries, Run(db, cs).entries, e)
    decreases |cs|
  {
    hide Inv, Step, Evolves, Correctable;
    if cs != [] {
      StepKeeps(db, cs[0], e);
      CompletedIsFinal(Step(db, cs[0]), cs[1..], e);
    }
  }

  /** Whatever the policies, only corrections of the entry itself touch its marks. */
  lemma {:induction false} OnlyItsCorrectionsTouch(db: Db, cs: seq<Command>, e: nat)
    requires Inv(db) && e < |db.entries| && db.entries[e].status == Completed
    requires forall k :: 0 <= k < |cs| ==> !(cs[k].Correct? && cs[k].entry == e)
    ensures Kept(db.entries, Run(db, cs).entries, e)
    decreases |cs|
  {
    hide Inv, Step, Evolves;
    if cs != [] {
      StepKeeps(db, cs[0], e);
      OnlyItsCorrectionsTouch(Step(db, cs[0]), cs[1..], e);
    }
  }
}
