/**
  Closing an ended session: list its active and prepared rounds, finalize each in a transaction
  of its own, and retry what failed until the deadline. Other transactions commit in between,
  and any step of the driver may fault.
 */
module QueueConvergence {
  import opened Wrappers
  import opened QueueModel
  import opened QueueInvariants
  import opened QueueSteps
  import opened QueueRuns

  function InLifecycle(rounds: seq<Round>, s: nat, l: Lifecycle): (ids: seq<nat>)
    ensures forall r :: r in ids <==> 0 <= r < |rounds| && rounds[r].session == s && rounds[r].lifecycle == l
  {
    if rounds == [] then [] else
    var last := |rounds| - 1;
    InLifecycle(rounds[..last], s, l) + if rounds[last].session == s && rounds[last].lifecycle == l then [last] else []
  }

  /** The rounds still to finalize, the active one first. */
  function ToFinalize(rounds: seq<Round>, s: nat): (ids: seq<nat>)
    ensures forall r :: r in ids <==> 0 <= r < |rounds| && rounds[r].session == s && rounds[r].lifecycle != Finalized
  {
    InLifecycle(rounds, s, Active) + InLifecycle(rounds, s, Prepared)
  }

  ghost predicate AllOf(rounds: seq<Round>, s: nat, ids: seq<nat>) {
    forall k :: 0 <= k < |ids| ==> ids[k] < |rounds| && rounds[ids[k]].session == s
  }

  lemma ListedAreOf(rounds: seq<Round>, s: nat)
    ensures AllOf(rounds, s, ToFinalize(rounds, s))
  {
    var ids := ToFinalize(rounds, s);
    assert forall k :: 0 <= k < |ids| ==> ids[k] in ids;
  }

  ghost predicate Ending(db: Db, s: nat) {
    s < |db.sessions| && db.sessions[s].status == Ended
  }

  lemma StaysEnding(a: Db, b: Db, s: nat)
    requires Steps(a, b) && Ending(a, s)
    ensures Ending(b, s)
    ensures s !in a.resetting ==> s !in b.resetting
  {
  }

  /** A finalization transaction is stopped only by a reset's lock; committed, it leaves the round finalized. */
  lemma ConvergeOutcome(db: Db, r: nat)
    requires Inv(db) && r < |db.rounds|
    ensures Refs(db)
    ensures if db.rounds[r].session in db.resetting then DoConvergeRound(db, r) == Failure(LockHeld)
            else DoConvergeRound(db, r).Success? && Steps(db, DoConvergeRound(db, r).value)
                 && r < |DoConvergeRound(db, r).value.rounds|
                 && DoConvergeRound(db, r).value.rounds[r].lifecycle == Finalized
  {
    hide RoundsInv, TurnsInv, SlotsInv, ProgressInv, LogInv, RequestsInv, LocksInv, Steps;
    if db.rounds[r].session !in db.resetting {
      ConvergeSteps(db, r);
    }
  }

  lemma RoundStays(a: Db, b: Db, r: nat)
    requires Steps(a, b) && r < |a.rounds|
    ensures Inv(b) && r < |b.rounds| && b.rounds[r].session == a.rounds[r].session
  {
  }

  // ----------------------------------------------------------------- the measure

  function Unfinalized(rounds: seq<Round>, s: nat): nat {
    if rounds == [] then 0 else
    var last := rounds[|rounds| - 1];
    Unfinalized(rounds[..|rounds| - 1], s) + if last.session == s && last.lifecycle != Finalized then 1 else 0
  }

  lemma {:induction false} CountFalls(a: seq<Round>, b: seq<Round>, s: nat)
    requires |a| <= |b| && forall r :: |a| <= r < |b| ==> b[r].session != s
    requires forall r :: 0 <= r < |a| ==> b[r].session == a[r].session
    requires forall r :: 0 <= r < |a| && a[r].lifecycle == Finalized ==> b[r].lifecycle == Finalized
    ensures Unfinalized(b, s) <= Unfinalized(a, s)
    ensures forall r | 0 <= r < |a| && a[r].session == s && a[r].lifecycle != Finalized
      && b[r].lifecycle == Finalized ::
              Unfinalized(b, s) < Unfinalized(a, s)
    decreases |a| + |b|
  {
    if |a| < |b| {
      CountFalls(a, b[..|b| - 1], s);
    } else if a != [] {
      CountFalls(a[..|a| - 1], b[..|b| - 1], s);
    }
  }

  lemma EndedRoundsOnlyFinalize(a: Db, b: Db, s: nat)
    requires Grows(a, b) && FinalizedStays(a, b) && Forward(a, b) && Ending(a, s)
    ensures |a.rounds| <= |b.rounds|
    ensures forall r :: |a.rounds| <= r < |b.rounds| ==> b.rounds[r].session != s
    ensures forall r :: 0 <= r < |a.rounds| ==> b.rounds[r].session == a.rounds[r].session
    ensures forall r :: 0 <= r < |a.rounds| && a.rounds[r].lifecycle == Finalized ==> b.rounds[r].lifecycle == Finalized
  {
  }

  /** For an ended session no run raises the number of unfinalized rounds, and finalizing one lowers it. */
  lemma UnfinalizedOnlyFalls(a: Db, cs: seq<Command>, s: nat, r: nat)
    requires Inv(a) && Ending(a, s)
    ensures Unfinalized(Run(a, cs).rounds, s) <= Unfinalized(a.rounds, s)
    ensures (r < |a.rounds| && a.rounds[r].session == s && a.rounds[r].lifecycle != Finalized
             && Run(a, cs).rounds[r].lifecycle == Finalized) ==>
              Unfinalized(Run(a, cs).rounds, s) < Unfinalized(a.rounds, s)
  {
    hide Inv, Grows, FinalizedStays, Forward, VersionsIdentify, ActivatesUpward, Unfinalized;
    var b := Run(a, cs);
    EndedRoundsOnlyFinalize(a, b, s);
    CountFalls(a.rounds, b.rounds, s);
  }

  lemma {:induction false} ClosedIsZero(rounds: seq<Round>, s: nat)
    ensures Unfinalized(rounds, s) == 0 <==>
      forall r :: 0 <= r < |rounds| && rounds[r].session == s ==> rounds[r].lifecycle == Finalized
  {
    if rounds != [] {
      var front := rounds[..|rounds| - 1];
      ClosedIsZero(front, s);
      assert forall r :: 0 <= r < |front| ==> rounds[r] == front[r];
    }
  }

  class Driver {
    var db: Db
    var clock: nat
    const others: nat -> seq<Command>
    const faulty: nat -> bool

    constructor (db: Db, others: nat -> seq<Command>, faulty: nat -> bool)
      ensures this.db == db && this.clock == 0 && this.others == others && this.faulty == faulty
    {
      this.db, this.clock, this.others, this.faulty := db, 0, others, faulty;
    }

    ghost predicate Healthy()
    {
      forall n: nat :: !faulty(n)
    }

    /** Other transactions commit before the driver's next step; says whether that step faults. */
    method NextStep() returns (fault: bool)
      requires Inv(db)
      modifies this
      ensures Steps(old(db), db)
      ensures clock == old(clock) + 1 && fault == faulty(old(clock))
    {
      hide Steps;
      db := Run(db, others(clock));
      fault := faulty(clock);
      clock := clock + 1;
    }

    method ListRounds(s: nat) returns (ids: Option<seq<nat>>)
      requires Inv(db)
      modifies this
      ensures Steps(old(db), db)
      ensures ids == None || ids == Some(ToFinalize(db.rounds, s))
      ensures clock == old(clock) + 1 && (ids == None <==> faulty(old(clock)))
    {
      var fault := NextStep();
      if fault { return None; }
      return Some(ToFinalize(db.rounds, s));
    }

    /** One finalization transaction, or the error that stopped it. */
    method FinalizeRound(r: nat) returns (error: Option<QueueError>)
      requires Inv(db) && r < |db.rounds|
      modifies this
      ensures Steps(old(db), db)
      ensures error == None ==> r < |db.rounds| && db.rounds[r].lifecycle == Finalized
      ensures error != Some(NotFound) && clock == old(clock) + 1
      ensures faulty(old(clock)) ==> error.Some?
      ensures var s := old(db).rounds[r].session;
        Ending(old(db), s) && s !in old(db).resetting ==> (error == None <==> !faulty(old(clock)))
    {
      hide Inv, Steps;
      var fault := NextStep();
      ghost var seen, s := db, old(db).rounds[r].session;
      if fault { return Some(Unavailable); }
      RoundStays(old(db), seen, r);
      if Ending(old(db), s) { StaysEnding(old(db), seen, s); }
      ConvergeOutcome(seen, r);
      match DoConvergeRound(db, r) {
        case Success(next) =>
          StepsTogether(old(db), seen, next);
          db := next;
          error := None;
        case Failure(cause) => error := Some(cause);
      }
    }

    /** The step that tried round r, one of the first n listed, was a fault. */
    ghost predicate Faulted(ids: seq<nat>, from: nat, n: nat, r: nat) {
      exists i :: 0 <= i < n && i < |ids| && ids[i] == r && faulty(from + i)
    }

    ghost predicate FaultBetween(from: nat, to: nat) {
      exists n :: from <= n < to && faulty(n)
    }

    /** Tries every listed round; returns those that are still to be finalized. */
    method FinalizeRounds(s: nat, ids: seq<nat>) returns (remaining: seq<nat>)
      requires Inv(db) && Ending(db, s)
      requires AllOf(db.rounds, s, ids)
      modifies this
      ensures Steps(old(db), db)
      ensures forall r :: r in ids && r !in remaining ==> r < |db.rounds| && db.rounds[r].lifecycle == Finalized
      ensures forall r :: r in remaining ==> r in ids
      ensures clock == old(clock) + |ids|
      ensures forall r :: Faulted(ids, old(clock), |ids|, r) ==> r in remaining
      ensures s !in old(db).resetting ==> forall r :: r in remaining ==> Faulted(ids, old(clock), |ids|, r)
    {
      hide Inv, Steps;
      remaining := [];
      StepsSelf(db);
      for i := 0 to |ids|
        invariant Steps(old(db), db) && Inv(db) && Ending(db, s)
        invariant s !in old(db).resetting ==> s !in db.resetting
        invariant AllOf(db.rounds, s, ids)
        invariant forall k :: 0 <= k < i && ids[k] !in remaining ==> db.rounds[ids[k]].lifecycle == Finalized
        invariant forall r :: r in remaining ==> r in ids
        invariant clock == old(clock) + i
        invariant forall r :: Faulted(ids, old(clock), i, r) ==> r in remaining
        invariant s !in old(db).resetting ==> forall r :: r in remaining ==> Faulted(ids, old(clock), i, r)
      {
        ghost var before := db;
        var error := FinalizeRound(ids[i]);
        PassStep(old(db), before, db, s, ids);
        if error.Some? {
          if error == Some(NotFound) { continue; }
          remaining := remaining + [ids[i]];
        }
      }
    }

    /** Retries the whole pass until nothing remains or the patience for retries is used up. */
    method FinalizeSession(s: nat, patience: nat) returns (ok: bool, passes: nat)
      requires Inv(db) && Ending(db, s)
      modifies this
      ensures Steps(old(db), db)
      ensures ok ==> Closed(db, s)
      ensures !ok && s !in old(db).resetting ==> FaultBetween(old(clock), clock)
      ensures passes <= patience + 1
      ensures !ok ==> passes == patience + 1 || (clock > 0 && faulty(clock - 1))
      ensures Healthy() && s !in old(db).resetting ==> ok
    {
      hide Inv, Steps;
      StepsSelf(db);
      var left := patience;
      passes := 0;
      while true
        invariant Steps(old(db), db) && Inv(db) && Ending(db, s)
        invariant s !in old(db).resetting ==> s !in db.resetting
        invariant passes + left == patience && old(clock) <= clock
        decreases left
      {
        ghost var before := db;
        var listed := ListRounds(s);
        PassStep(old(db), before, db, s, []);
        if listed == None { return false, passes; }
        ghost var seen := db;
        if |listed.value| == 0 {
          StepsSelf(seen);
          ClosedWhenListed(seen, seen, s);
          return true, passes;
        }
        ListedAreOf(db.rounds, s);
        passes := passes + 1;
        ghost var started := clock;
        var remaining := FinalizeRounds(s, listed.value);
        PassStep(old(db), seen, db, s, listed.value);
        if |remaining| == 0 {
          ClosedWhenListed(seen, db, s);
          return true, passes;
        }
        if left == 0 {
          assert remaining[0] in remaining;
          return false, passes;
        }
        left := left - 1;
      }
    }
  }

  lemma ClosedWhenListed(seen: Db, b: Db, s: nat)
    requires Steps(seen, b) && Ending(seen, s)
    requires forall r :: r in ToFinalize(seen.rounds, s) ==> r < |b.rounds| && b.rounds[r].lifecycle == Finalized
    ensures Closed(b, s)
  {
  }

  lemma PassStep(a: Db, before: Db, b: Db, s: nat, ids: seq<nat>)
    requires Steps(a, before) && Steps(before, b) && Ending(before, s)
    requires AllOf(before.rounds, s, ids)
    ensures Steps(a, b) && Inv(b) && Ending(b, s)
    ensures s !in before.resetting ==> s !in b.resetting
    ensures AllOf(b.rounds, s, ids)
    ensures forall k :: 0 <= k < |ids| && before.rounds[ids[k]].lifecycle == Finalized ==>
      b.rounds[ids[k]].lifecycle == Finalized
  {
    StepsTogether(a, before, b);
    StaysEnding(before, b, s);
    hide Inv;
  }
}
