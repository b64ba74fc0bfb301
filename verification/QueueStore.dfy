/**
  The queue tables as mutable state. The first half is the repository: one method per SQL
  statement, with the statement's own guard. The second half is the services: each command
  reads, checks and writes step by step inside a transaction that restores the tables when a
  step fails, and is proved to do exactly what the model's command function says.
 */
module QueueStore {
  import opened Wrappers
  import opened QueueModel
  import opened QueueInvariants
  import opened QueueSteps
  import opened QueueRuns
  import opened QueueReposition

  /** A command's effect: the committed state and no error, or the old state and the error. */
  ghost predicate Outcome(before: Db, expected: Result<Db, QueueError>, after: Db, error: Option<QueueError>) {
    match expected
    case Success(committed) => after == committed && error == None
    case Failure(cause) => after == before && error == Some(cause)
  }

  /** The state with the session's allocation lock given back. */
  function Released(db: Db, s: nat): Db {
    match DoResetAbandon(db, s)
    case Success(released) => released
    case Failure(_) => db
  }

  /** A reset whose second transaction fails is, to every other command, that failure and the release after it. */
  lemma FailedResetReleases(db: Db, s: nat, roster: Roster, now: int)
    requires Inv(db) && DoResetOpen(db, s, roster, now).Failure?
    ensures Released(db, s) == Step(Step(db, ResetOpen(s, roster, now)), ResetAbandon(s))
    ensures Steps(db, Released(db, s)) && s !in Released(db, s).resetting
  {
    hide Inv, Evolves, DoResetOpen;
    StepsSelf(db);
    ReleaseSteps(db, s);
  }

  /** What a store method did is one step of a run, so everything proved of runs holds of the tables. */
  lemma OutcomeIsStep(before: Db, c: Command, after: Db, error: Option<QueueError>)
    requires Inv(before) && Outcome(before, Apply(before, c), after, error)
    ensures after == Step(before, c) && Steps(before, after)
    ensures error.Some? ==> after == before
  {
    hide Inv, Steps, Apply;
  }

  class Store {
    var sessions: seq<Session>
    var rounds: seq<Round>
    var entries: seq<Entry>
    var requests: seq<Request>
    var progress: map<nat, Progress>
    var outbox: seq<Event>
    var resetting: map<nat, nat>

    constructor ()
      ensures View() == EMPTY_DB
    {
      sessions, rounds, entries, requests, progress, outbox, resetting := [], [], [], [], map[], [], map[];
    }

    function View(): Db
      reads this
    {
      Db(sessions, rounds, entries, requests, progress, outbox, resetting)
    }

    // --------------------------------------------------------------- transactions

    method Rollback(saved: Db)
      modifies this
      ensures View() == saved
    {
      sessions, rounds, entries, requests := saved.sessions, saved.rounds, saved.entries, saved.requests;
      progress, outbox, resetting := saved.progress, saved.outbox, saved.resetting;
    }

    // ----------------------------------------------------------------- statements

    method BumpRoundVersion(r: nat)
      requires r < |rounds|
      modifies this`rounds
      ensures rounds == old(rounds)[r := old(rounds)[r].(version := old(rounds)[r].version + 1)]
    {
      rounds := rounds[r := rounds[r].(version := rounds[r].version + 1)];
    }

    method SetRoundSelection(r: nat, e: nat, expected: int) returns (error: Option<QueueError>)
      requires r < |rounds|
      modifies this`rounds
      ensures var round := old(rounds)[r];
        if round.version == expected && e < |entries| && entries[e].round == r
        then error == None && rounds == old(rounds)[r := round.(selected := Some(e), version := round.version + 1)]
        else error == Some(StaleVersion) && rounds == old(rounds)
    {
      if rounds[r].version != expected || e >= |entries| || entries[e].round != r { return Some(StaleVersion); }
      rounds := rounds[r := rounds[r].(selected := Some(e), version := rounds[r].version + 1)];
      return None;
    }

    method ClearRoundSelection(r: nat, e: nat, expected: int) returns (error: Option<QueueError>)
      requires r < |rounds|
      modifies this`rounds
      ensures var round := old(rounds)[r];
        if round.selected == Some(e) && round.version == expected
        then error == None && rounds == old(rounds)[r := round.(selected := None, version := round.version + 1)]
        else error == Some(StaleVersion) && rounds == old(rounds)
    {
      if rounds[r].selected != Some(e) || rounds[r].version != expected { return Some(StaleVersion); }
      rounds := rounds[r := rounds[r].(selected := None, version := rounds[r].version + 1)];
      return None;
    }

    method ActivateRound(r: nat, now: int) returns (error: Option<QueueError>)
      requires r < |rounds|
      modifies this`rounds
      ensures var round := old(rounds)[r];
        var active := round.(lifecycle := Active, activatedAt := Some(now), version := round.version + 1);
        if round.lifecycle == Prepared then error == None && rounds == old(rounds)[r := active]
        else error == Some(NotFound) && rounds == old(rounds)
    {
      if rounds[r].lifecycle != Prepared { return Some(NotFound); }
      rounds := rounds[r := rounds[r].(lifecycle := Active, activatedAt := Some(now),
                                       version := rounds[r].version + 1)];
      return None;
    }

    method TransitionEntry(e: nat, from: EntryStatus, expected: int, to: EntryStatus,
                           grade: Option<Grade>, notes: Option<string>, actor: Option<nat>)
      returns (error: Option<QueueError>)
      requires e < |entries|
      modifies this`entries
      ensures var entry := old(entries)[e];
        var moved := Moved(entry, to, grade, notes, actor).(version := entry.version + 1);
        var current := entry.version == expected && entry.status == from;
        if !CanTransitionEntry(from, to) then error == Some(InvalidTransition) && entries == old(entries)
        else if !current then error == Some(StaleVersion) && entries == old(entries)
        else error == None && entries == old(entries)[e := moved]
    {
      if !CanTransitionEntry(from, to) { return Some(InvalidTransition); }
      if entries[e].version != expected || entries[e].status != from { return Some(StaleVersion); }
      entries := entries[e := Moved(entries[e], to, grade, notes, actor).(version := entries[e].version + 1)];
      return None;
    }

    method UpdateEntryGrade(e: nat, expected: int, grade: Option<Grade>, notes: Option<string>)
      returns (error: Option<QueueError>)
      requires e < |entries|
      modifies this`entries
      ensures var entry := old(entries)[e];
        var marked := entry.(grade := grade, notes := notes, version := entry.version + 1);
        var current := entry.version == expected && entry.status == Completed;
        if !current then error == Some(StaleVersion) && entries == old(entries)
        else error == None && entries == old(entries)[e := marked]
    {
      if entries[e].version != expected || entries[e].status != Completed { return Some(StaleVersion); }
      entries := entries[e := entries[e].(grade := grade, notes := notes, version := entries[e].version + 1)];
      return None;
    }

    method UpsertProgress(e: nat, record: Progress)
      modifies this`progress
      ensures progress == RecordProgress(old(progress), e, record)
    {
      if e in progress {
        progress := progress[e := progress[e].(grade := record.grade, notes := record.notes)];
      } else {
        progress := progress[e := record];
      }
    }

    method InsertOutboxEvent(event: Event)
      modifies this`outbox
      ensures outbox == old(outbox) + [event]
    {
      outbox := outbox + [event];
    }

    method InsertQueueEntry(r: nat, student: nat, position: int) returns (error: Option<QueueError>)
      modifies this`entries
      ensures if Clashes(old(entries), r, student, position)
        then error == Some(ConstraintViolation) && entries == old(entries)
              else error == None && entries == old(entries) + [FreshEntry(r, student, position)]
    {
      if Clashes(entries, r, student, position) { return Some(ConstraintViolation); }
      entries := entries + [FreshEntry(r, student, position)];
      return None;
    }

    /** The set-based update of a round's unfinished rows. */
    method SkipUnfinishedEntries(r: nat, actor: Option<nat>)
      modifies this`entries
      ensures entries == SkipUnfinished(old(entries), r, actor)
    {
      for e := 0 to |entries|
        invariant |entries| == |old(entries)|
        invariant forall k :: 0 <= k < |entries| ==>
          entries[k] == if k < e then Cut(old(entries)[k], r, actor) else old(entries)[k]
      {
        if entries[e].round == r && Unfinished(entries[e].status) {
          entries := entries[e := entries[e].(status := Skipped, resolvedBy := actor,
                                              version := entries[e].version + 1)];
        }
      }
    }

    /** Delete, then insert the new candidates one by one. */
    method ReplacePreorder(r: nat, students: seq<nat>, roster: Roster) returns (error: Option<QueueError>)
      requires r < |rounds|
      modifies this`rounds
      ensures if EligiblePreorder(students, roster)
        then error == None && rounds == old(rounds)[r := old(rounds)[r].(preorder := students)]
              else error == Some(Validation) && rounds == old(rounds)
    {
      if !EligiblePreorder(students, roster) { return Some(Validation); }
      rounds := rounds[r := rounds[r].(preorder := [])];
      for i := 0 to |students|
        invariant rounds == old(rounds)[r := old(rounds)[r].(preorder := students[..i])]
      {
        rounds := rounds[r := rounds[r].(preorder := rounds[r].preorder + [students[i]])];
        assert students[..i] + [students[i]] == students[..i + 1];
      }
      assert students[..|students|] == students;
      return None;
    }

    method FinalizeRoundRow(r: nat, expected: int, policy: FinalizationPolicy, actor: Option<nat>)
      returns (error: Option<QueueError>)
      requires r < |rounds|
      modifies this`rounds, this`entries
      ensures error == if old(rounds)[r].version == expected then None else Some(StaleVersion)
      ensures error == None ==>
        entries == if policy == MarkUnfinishedSkipped then SkipUnfinished(old(entries), r, actor) else old(entries)
      ensures error == None ==>
        rounds == old(rounds)[r := old(rounds)[r].(lifecycle := Finalized, selected := None, version := expected + 1)]
    {
      if policy == MarkUnfinishedSkipped { SkipUnfinishedEntries(r, actor); }
      if rounds[r].version != expected { return Some(StaleVersion); }
      rounds := rounds[r := rounds[r].(lifecycle := Finalized, selected := None, version := rounds[r].version + 1)];
      return None;
    }

    // ------------------------------------------------------------ repositioning

    method SetEntryPosition(e: nat, position: int) returns (error: Option<QueueError>)
      requires e < |entries|
      modifies this`entries
      ensures var entry := old(entries)[e];
        if position < 1 || Occupied(old(entries), e, position)
          then error == Some(ConstraintViolation) && entries == old(entries)
        else error == None && entries == old(entries)[e := entry.(position := position, version := entry.version + 1)]
    {
      if position < 1 || Occupied(entries, e, position) { return Some(ConstraintViolation); }
      entries := entries[e := entries[e].(position := position, version := entries[e].version + 1)];
      return None;
    }

    /** The staging update, checking the unique position at every row it writes. */
    method StagePositions(r: nat) returns (error: Option<QueueError>)
      requires Legal(entries, r)
      modifies this`entries
      ensures error == if StagingClashes(old(entries), r) then Some(ConstraintViolation) else None
      ensures error == None ==> entries == Staged(old(entries), r, |old(entries)|)
    {
      ClashesSomewhere(entries, r);
      for i := 0 to |entries|
        invariant entries == Staged(old(entries), r, i)
        invariant Legal(entries, r)
        invariant forall d :: 0 <= d < i ==> !ClashesAt(old(entries), r, d)
      {
        assert old(entries)[i] == entries[i];
        if entries[i].round == r {
          StageRow(old(entries), r, i);
          if Occupied(entries, i, entries[i].position + STAGE_OFFSET) {
            assert ClashesAt(old(entries), r, i);
            return Some(ConstraintViolation);
          }
          entries := entries[i := Lifted(entries[i])];
        }
        assert entries == Staged(old(entries), r, i + 1);
      }
      return None;
    }
  
    /** Writes the final positions over the staged ones, row by row; was is the table before staging. */
    method RewritePositions(r: nat, rows: seq<nat>, from: int, position: int, ghost was: seq<Entry>)
      returns (error: Option<QueueError>)
      requires r < |rounds| && SlotsAt(rounds[r], r, was) && Legal(entries, r)
      requires rows == QueueOrder(was, r) && |rows| == EntryCount(was, r)
      requires HalfWritten(was, entries, r, rows, 0, from, position)
      requires 1 <= from <= |rows| && 1 <= position <= |rows|
      modifies this`entries
      ensures error == if position - from > STAGE_OFFSET then Some(ConstraintViolation) else None
      ensures error == None ==> entries == Repositioned(was, r, from, position)
    {
      hide SlotsAt, QueueOrder, EntryCount, HalfWritten, Legal, Occupied;
      for k := 0 to |rows|
        invariant HalfWritten(was, entries, r, rows, k, from, position)
        invariant Legal(entries, r)
        invariant k >= from ==> position - from <= STAGE_OFFSET
      {
        WriteAdvances(rounds[r], r, was, entries, rows, k, from, position);
        var id := rows[k];
        error := SetEntryPosition(id, Shifted(entries[id].position - STAGE_OFFSET, from, position));
        if error.Some? { return; }
      }
      WrittenAll(rounds[r], r, was, entries, rows, from, position);
      return None;
    }

    /** Stages every position of the round, then writes the final ones row by row in staged order. */
    method RepositionEntry(r: nat, e: nat, position: int) returns (error: Option<QueueError>)
      requires r < |rounds| && SlotsAt(rounds[r], r, entries) && e < |entries| && entries[e].round == r
      modifies this`entries
      ensures var was := old(entries); var from := was[e].position;
        error == if StagingClashes(was, r) then Some(ConstraintViolation)
                 else if position < 1 || position > EntryCount(was, r) then Some(Validation)
                 else if position - from > STAGE_OFFSET then Some(ConstraintViolation)
                 else None
      ensures error == None ==> entries == Repositioned(old(entries), r, old(entries)[e].position, position)
    {
      hide SlotsAt, QueueOrder, EntryCount, Legal, HalfWritten, Staged, StagingClashes;
      ghost var was := entries;
      StagingFacts(rounds[r], r, was, e, position);
      error := StagePositions(r);
      if error.Some? { return; }
      var rows := QueueOrder(entries, r);
      if position < 1 || position > |rows| { return Some(Validation); }
      var from := entries[e].position - STAGE_OFFSET;
      error := RewritePositions(r, rows, from, position, was);
    }
  
    // ----------------------------------------------------------- the turn service

    method Advance(r: nat, expected: int) returns (error: Option<QueueError>)
      requires Refs(View())
      modifies this
      ensures Outcome(old(View()), DoAdvance(old(View()), r, expected), View(), error)
    {
      if expected < 1 { return Some(Validation); }
      if r >= |rounds| { return Some(NotFound); }
      var round := rounds[r];
      if round.lifecycle != Active { return Some(RoundIsFinalized); }
      if round.version != expected { return Some(StaleVersion); }
      for e := 0 to |entries|
        invariant forall d :: 0 <= d < e ==> !(entries[d].round == r && entries[d].status == Reciting)
        invariant View() == old(View())
      {
        if entries[e].round == r && entries[e].status == Reciting { return Some(EntryReciting); }
      }
      var next := NextWaiting(entries, r, round.selected);
      if next == None { return Some(NoWaitingEntry); }
      error := SetRoundSelection(r, next.value, expected);
      if error.Some? { return; }
      InsertOutboxEvent(Event(Advanced, round.session, r, next, rounds[r].version));
    }

    method Start(e: nat, expected: int) returns (error: Option<QueueError>)
      requires Refs(View())
      modifies this
      ensures Outcome(old(View()), DoStart(old(View()), e, expected), View(), error)
    {
      if expected < 1 { return Some(Validation); }
      if e >= |entries| { return Some(NotFound); }
      var entry, r := entries[e], entries[e].round;
      var round := rounds[r];
      if round.lifecycle != Active { return Some(RoundIsFinalized); }
      if entry.version != expected { return Some(StaleVersion); }
      if round.selected != Some(e) { return Some(InvalidTransition); }
      if entry.status != Waiting { return Some(InvalidTransition); }
      error := TransitionEntry(e, Waiting, entry.version, Reciting, None, None, None);
      if error.Some? { return; }
      BumpRoundVersion(r);
      InsertOutboxEvent(Event(EntryUpdated, round.session, r, Some(e), round.version + 1));
    }

    /** Clears the selection of a finished entry, or only bumps the version; either way the round is one version on. */
    method Deselect(r: nat, e: nat) returns (error: Option<QueueError>, version: int)
      requires r < |rounds|
      modifies this`rounds
      ensures error == None && version == old(rounds)[r].version + 1
      ensures var round := old(rounds)[r];
        var selected := if round.selected == Some(e) then None else round.selected;
        rounds == old(rounds)[r := round.(selected := selected, version := version)]
    {
      version := rounds[r].version + 1;
      if rounds[r].selected == Some(e) {
        error := ClearRoundSelection(r, e, rounds[r].version);
      } else {
        BumpRoundVersion(r);
        error := None;
      }
    }

    method Complete(e: nat, expected: int, actor: nat, grade: Option<Grade>, notes: Option<string>)
      returns (error: Option<QueueError>)
      requires Refs(View())
      modifies this
      ensures Outcome(old(View()), DoComplete(old(View()), e, expected, actor, grade, notes), View(), error)
    {
      if expected < 1 || NoteTooLong(notes) { return Some(Validation); }
      if e >= |entries| { return Some(NotFound); }
      var entry, r := entries[e], entries[e].round;
      var round := rounds[r];
      if round.lifecycle != Active { return Some(RoundIsFinalized); }
      if entry.version != expected { return Some(StaleVersion); }
      if entry.status != Reciting { return Some(InvalidTransition); }
      if round.gradingRequired {
        if grade == None { return Some(Validation); }
      } else {
        if grade.Some? || notes.Some? { return Some(Validation); }
      }
      error := TransitionEntry(e, entry.status, entry.version, Completed, grade, notes, Some(actor));
      if error.Some? { return; }
      UpsertProgress(e, Progress(entry.student, round.session, round.surah, round.fromAyah, round.toAyah, round.kind,
                                 grade, notes));
      var version;
      error, version := Deselect(r, e);
      InsertOutboxEvent(Event(GradeSubmitted, round.session, r, Some(e), version));
    }

    method Correct(e: nat, expected: int, grade: Option<Grade>, notes: Option<string>)
      returns (error: Option<QueueError>)
      requires Refs(View())
      modifies this
      ensures Outcome(old(View()), DoCorrect(old(View()), e, expected, grade, notes), View(), error)
    {
      if expected < 1 || NoteTooLong(notes) { return Some(Validation); }
      if e >= |entries| { return Some(NotFound); }
      var entry, r := entries[e], entries[e].round;
      var round := rounds[r];
      if entry.version != expected { return Some(StaleVersion); }
      if entry.status != Completed { return Some(InvalidTransition); }
      match sessions[round.session].policy.correction {
        case Immutable => return Some(InvalidTransition);
        case BeforeRoundFinalization => if round.lifecycle == Finalized { return Some(RoundIsFinalized); }
        case AuditedAnyTime =>
      }
      var newNotes, newGrade := notes, grade;
      if notes == None {
        newNotes := entry.notes;
      } else if notes.value == "" {
        newNotes := None;
      }
      if grade == None { newGrade := entry.grade; }
      error := UpdateEntryGrade(e, entry.version, newGrade, newNotes);
      if error.Some? { return; }
      UpsertProgress(e, Progress(entry.student, round.session, round.surah, round.fromAyah, round.toAyah, round.kind,
                                 newGrade, newNotes));
      BumpRoundVersion(r);
      InsertOutboxEvent(Event(GradeSubmitted, round.session, r, Some(e), round.version + 1));
    }

    method Skip(e: nat, expected: int, actor: nat) returns (error: Option<QueueError>)
      requires Refs(View())
      modifies this
      ensures Outcome(old(View()), DoSkip(old(View()), e, expected, actor), View(), error)
    {
      if expected < 1 { return Some(Validation); }
      if e >= |entries| { return Some(NotFound); }
      var entry, r := entries[e], entries[e].round;
      var round := rounds[r];
      if round.lifecycle != Active { return Some(RoundIsFinalized); }
      if entry.version != expected { return Some(StaleVersion); }
      error := TransitionEntry(e, entry.status, entry.version, Skipped, None, None, Some(actor));
      if error.Some? { return; }
      var version;
      error, version := Deselect(r, e);
      InsertOutboxEvent(Event(EntryUpdated, round.session, r, Some(e), version));
    }
  
    // ---------------------------------------------------------- the round service

    /** Inserts one waiting entry per student, at positions 1, 2, ... */
    method Materialize(r: nat, students: seq<nat>) returns (error: Option<QueueError>)
      modifies this`entries
      ensures match InsertEntries(old(entries), r, students, 0)
              case Success(next) => error == None && entries == next
              case Failure(cause) => error == Some(cause)
    {
      for k := 0 to |students|
        invariant InsertEntries(entries, r, students, k) == InsertEntries(old(entries), r, students, 0)
      {
        error := InsertQueueEntry(r, students[k], k + 1);
        if error.Some? { return; }
      }
      return None;
    }

    /** Runs inside a transaction: after a failure the tables may be half written. */
    method ActivateLowestRound(s: nat, roster: Roster, now: int) returns (error: Option<QueueError>)
      requires s < |sessions|
      modifies this
      ensures match ActivateLowest(old(View()), s, roster, now)
              case Success(committed) => View() == committed && error == None
              case Failure(cause) => error == Some(cause)
    {
      hide ActiveRound, LowestPrepared, PopulationOrder, InsertEntries;
      if ActiveRound(rounds, s).Some? { return None; }
      var lowest := LowestPrepared(rounds, s);
      if lowest == None { return None; }
      var r := lowest.value;
      var students := PopulationOrder(rounds[r].preorder, sessions[s].policy.population, roster);
      error := Materialize(r, students);
      if error.Some? { return; }
      error := ActivateRound(r, now);
      if error.Some? { return; }
      InsertOutboxEvent(Event(RoundStarted, s, r, None, rounds[r].version));
    }

    method InsertRound(s: nat, input: RoundInput) returns (r: nat)
      modifies this`rounds
      ensures r == |old(rounds)|
      ensures rounds ==
        old(rounds) + [Round(s, MaxNumber(old(rounds), s) + 1, input.kind, input.surah, input.fromAyah, input.toAyah,
                                            input.gradingRequired, Prepared, None, 1, None, [])]
    {
      r := |rounds|;
      var number := MaxNumber(rounds, s) + 1;
      rounds := rounds
        + [Round(s, number, input.kind, input.surah, input.fromAyah, input.toAyah, input.gradingRequired, Prepared,
                 None, 1, None, [])];
    }

    /** Allocates the next number and inserts the prepared round, then its preorder; half written after a failure. */
    method AddRound(s: nat, input: RoundInput, roster: Roster) returns (error: Option<QueueError>)
      modifies this`rounds
      ensures match CreateRound(old(View()), s, input, roster)
              case Success(committed) => View() == committed && error == None
              case Failure(cause) => error == Some(cause)
    {
      var r := InsertRound(s, input);
      if |input.preorder| > 0 {
        error := ReplacePreorder(r, input.preorder, roster);
      } else {
        error := None;
      }
    }

    method Prepare(s: nat, input: RoundInput, roster: Roster, now: int) returns (error: Option<QueueError>)
      modifies this
      ensures Outcome(old(View()), DoPrepare(old(View()), s, input, roster, now), View(), error)
    {
      if !ValidInput(input) { return Some(Validation); }
      if s in resetting { return Some(LockHeld); }
      if s >= |sessions| { return Some(NotFound); }
      if sessions[s].status == Ended { return Some(RoundIsFinalized); }
      var saved := View();
      error := AddRound(s, input, roster);
      if error == None && sessions[s].status != Planned {
        error := ActivateLowestRound(s, roster, now);
      }
      if error.Some? { Rollback(saved); }
    }

    method ActivateIfNeeded(s: nat, roster: Roster, now: int) returns (error: Option<QueueError>)
      modifies this
      ensures Outcome(old(View()), DoActivateIfNeeded(old(View()), s, roster, now), View(), error)
    {
      if s in resetting { return Some(LockHeld); }
      if s >= |sessions| { return Some(NotFound); }
      if sessions[s].status == Planned { return None; }
      if sessions[s].status != Live { return Some(RoundIsFinalized); }
      var saved := View();
      error := ActivateLowestRound(s, roster, now);
      if error.Some? { Rollback(saved); }
    }

    method Reorder(r: nat, expected: int, students: seq<nat>, roster: Roster) returns (error: Option<QueueError>)
      modifies this
      ensures Outcome(old(View()), DoReorder(old(View()), r, expected, students, roster), View(), error)
    {
      if expected < 1 || !NoDuplicates(students) { return Some(Validation); }
      if r >= |rounds| { return Some(NotFound); }
      var round := rounds[r];
      if round.lifecycle != Prepared { return Some(InvalidTransition); }
      if round.version != expected { return Some(StaleVersion); }
      error := ReplacePreorder(r, students, roster);
      if error.Some? { return; }
      BumpRoundVersion(r);
      InsertOutboxEvent(Event(Reordered, round.session, r, None, rounds[r].version));
    }

    method Move(e: nat, expected: int, position: int) returns (error: Option<QueueError>)
      requires Refs(View()) && SlotsInv(rounds, entries)
      modifies this
      ensures Outcome(old(View()), DoMove(old(View()), e, expected, position), View(), error)
    {
      if expected < 1 { return Some(Validation); }
      if e >= |entries| { return Some(NotFound); }
      var r := entries[e].round;
      assert SlotsAt(rounds[r], r, entries);
      hide SlotsInv, SlotsAt, EntryCount, StagingClashes;
      var round := rounds[r];
      if entries[e].status != Waiting { return Some(InvalidTransition); }
      if round.lifecycle != Active { return Some(InvalidTransition); }
      if round.version != expected { return Some(StaleVersion); }
      var saved := View();
      error := RepositionEntry(r, e, position);
      if error.Some? {
        Rollback(saved);
        return;
      }
      BumpRoundVersion(r);
      InsertOutboxEvent(Event(Reordered, round.session, r, Some(e), round.version + 1));
    }

    method AppendLateJoiner(s: nat, user: nat, membership: Option<Membership>) returns (error: Option<QueueError>)
      modifies this
      ensures Outcome(old(View()), DoAppendLateJoiner(old(View()), s, user, membership), View(), error)
    {
      if s >= |sessions| { return Some(NotFound); }
      if sessions[s].status != Live { return None; }
      var active := ActiveRound(rounds, s);
      if active == None { return None; }
      var r := active.value;
      var round := rounds[r];
      if EntryOf(entries, r, user).Some? { return None; }
      if membership == None || !membership.value.isStudent { return None; }
      if sessions[s].policy.population == AllActiveStudents {
        if round.activatedAt.Some? && membership.value.joinedAt <= round.activatedAt.value { return None; }
      }
      var entry := |entries|;
      error := InsertQueueEntry(r, user, MaxPosition(entries, r) + 1);
      if error.Some? { return; }
      BumpRoundVersion(r);
      InsertOutboxEvent(Event(EntryUpdated, s, r, Some(entry), round.version + 1));
    }
  
    /** Finalizes the round's entries and row and announces it. */
    method Finalize(r: nat, actor: Option<nat>) returns (error: Option<QueueError>)
      requires Refs(View()) && r < |rounds|
      modifies this
      ensures error == None && View() == FinalizeRound(old(View()), r, actor)
    {
      var round := rounds[r];
      error := FinalizeRoundRow(r, round.version, sessions[round.session].policy.finalization, actor);
      InsertOutboxEvent(Event(RoundFinalized, round.session, r, None, rounds[r].version));
    }

    method FinalizeActiveRound(s: nat, actor: Option<nat>) returns (error: Option<QueueError>)
      requires Refs(View())
      modifies this
      ensures Outcome(old(View()), DoFinalizeActiveRound(old(View()), s, actor), View(), error)
    {
      if s in resetting { return Some(LockHeld); }
      if s >= |sessions| { return Some(NotFound); }
      var active := ActiveRound(rounds, s);
      if active == None { return None; }
      error := Finalize(active.value, actor);
    }

    /** Locks, closes the active round and creates its successor; half written after a failure. */
    method CloseForReset(s: nat, input: RoundInput, roster: Roster, actor: Option<nat>)
      returns (error: Option<QueueError>)
      requires Refs(View())
      modifies this
      ensures match DoResetClose(old(View()), s, input, roster, actor)
              case Success(closed) => error == None && View() == closed && s < |sessions|
              case Failure(cause) => error == Some(cause)
    {
      if !ValidInput(input) { return Some(Validation); }
      if s in resetting { return Some(LockHeld); }
      if s >= |sessions| { return Some(NotFound); }
      if sessions[s].status != Live { return Some(RoundIsFinalized); }
      var active := ActiveRound(rounds, s);
      if active == None { return Some(NotFound); }
      var next := |rounds|;
      error := Finalize(active.value, actor);
      error := AddRound(s, input, roster);
      if error.Some? { return; }
      resetting := resetting[s := next];
    }

    method ResetClose(s: nat, input: RoundInput, roster: Roster, actor: Option<nat>) returns (error: Option<QueueError>)
      requires Refs(View())
      modifies this
      ensures Outcome(old(View()), DoResetClose(old(View()), s, input, roster, actor), View(), error)
    {
      var saved := View();
      error := CloseForReset(s, input, roster, actor);
      if error.Some? { Rollback(saved); }
    }

    method ResetOpen(s: nat, roster: Roster, now: int) returns (error: Option<QueueError>)
      modifies this
      ensures match DoResetOpen(old(View()), s, roster, now)
              case Success(committed) => View() == committed && error == None
              case Failure(cause) => View() == Released(old(View()), s) && error == Some(cause)
    {
      if s !in resetting { return Some(NotFound); }
      var saved := View();
      if s >= |sessions| {
        error := Some(NotFound);
      } else if sessions[s].status != Live {
        error := Some(RoundIsFinalized);
      } else {
        resetting := resetting - {s};
        error := ActivateLowestRound(s, roster, now);
      }
      if error.Some? {
        Rollback(saved);
        ReleaseLock(s);
      }
    }

    /** The deferred unlock, which runs however the second transaction ends. */
    method ReleaseLock(s: nat)
      modifies this`resetting
      ensures resetting == old(resetting) - {s}
    {
      resetting := resetting - {s};
    }

    /** Both halves inside one enclosing transaction. */
    method Reset(s: nat, input: RoundInput, roster: Roster, actor: Option<nat>, now: int)
      returns (error: Option<QueueError>)
      requires Refs(View())
      modifies this
      ensures Outcome(old(View()), DoReset(old(View()), s, input, roster, actor, now), View(), error)
    {
      hide FinalizeRound, CreateRound, ActivateLowest, Refs;
      var saved := View();
      error := CloseForReset(s, input, roster, actor);
      if error == None {
        resetting := saved.resetting;
        error := ActivateLowestRound(s, roster, now);
      }
      if error.Some? { Rollback(saved); }
    }

    method ConvergeRound(r: nat) returns (error: Option<QueueError>)
      requires Refs(View())
      modifies this
      ensures Outcome(old(View()), DoConvergeRound(old(View()), r), View(), error)
    {
      if r >= |rounds| { return Some(NotFound); }
      if rounds[r].session in resetting { return Some(LockHeld); }
      if rounds[r].lifecycle == Finalized { return None; }
      error := Finalize(r, None);
    }

    // ------------------------------------------------- the opt-out and policy services

    method InsertRequest(e: nat, student: nat, status: RequestStatus, decidedBy: Option<nat>) returns (q: nat)
      modifies this`requests
      ensures q == |old(requests)| && requests == old(requests) + [QueueModel.Request(e, student, status, decidedBy)]
    {
      q := |requests|;
      requests := requests + [QueueModel.Request(e, student, status, decidedBy)];
    }

    method RequestOptOut(s: nat, student: nat) returns (error: Option<QueueError>)
      requires Refs(View())
      modifies this
      ensures Outcome(old(View()), DoRequestOptOut(old(View()), s, student), View(), error)
    {
      var active := ActiveRound(rounds, s);
      if active == None { return Some(NotFound); }
      var r := active.value;
      var own := EntryOf(entries, r, student);
      if own == None { return Some(NotFound); }
      var e := own.value;
      var latest := LatestRequest(requests, e, student);
      if latest.Some? && requests[latest.value].status != Declined { return None; }
      if IsTerminal(entries[e].status) { return Some(EntryTerminal); }
      if sessions[s].status != Live { return Some(RoundIsFinalized); }
      match sessions[s].policy.optOut {
        case ApprovalRequired => error := RequestApproval(s, r, e, student);
        case AutoApprove => error := ApproveAtOnce(e, student, latest.Some?);
      }
    }

    method RequestApproval(s: nat, r: nat, e: nat, student: nat) returns (error: Option<QueueError>)
      requires r < |rounds|
      modifies this`requests, this`outbox
      ensures error == None
      ensures if PendingRequest(old(requests), e).Some? then requests == old(requests) && outbox == old(outbox)
              else requests == old(requests) + [QueueModel.Request(e, student, Pending, None)]
                   && outbox == old(outbox) + [Event(OptOutRequested, s, r, Some(|old(requests)|), rounds[r].version)]
    {
      if PendingRequest(requests, e).Some? { return None; }
      var q := InsertRequest(e, student, Pending, None);
      InsertOutboxEvent(Event(OptOutRequested, s, r, Some(q), rounds[r].version));
      return None;
    }

    /** The entry opts out; a request row is added only if the student has none for it yet. */
    method ApproveAtOnce(e: nat, student: nat, recorded: bool) returns (error: Option<QueueError>)
      requires Refs(View()) && e < |entries| && Unfinished(entries[e].status)
      modifies this
      ensures error == None
      ensures var turned := Turn(old(View()), e, Moved(old(entries)[e], OptedOut, None, None, Some(student)), true,
                                 EntryUpdated);
        View() == if recorded then turned
                  else turned.(requests := old(requests) + [QueueModel.Request(e, student, Approved, Some(student))])
    {
      var r := entries[e].round;
      error := TransitionEntry(e, entries[e].status, entries[e].version, OptedOut, None, None, Some(student));
      var version;
      error, version := Deselect(r, e);
      if !recorded {
        var q := InsertRequest(e, student, Approved, Some(student));
      }
      InsertOutboxEvent(Event(EntryUpdated, rounds[r].session, r, Some(e), version));
    }

    method DecideRequest(q: nat, decision: RequestStatus, manager: nat) returns (error: Option<QueueError>)
      requires q < |requests|
      modifies this`requests
      ensures if old(requests)[q].status == Pending
              then error == None
                && requests == old(requests)[q := old(requests)[q].(status := decision, decidedBy := Some(manager))]
              else error == Some(InvalidTransition) && requests == old(requests)
    {
      if requests[q].status != Pending { return Some(InvalidTransition); }
      requests := requests[q := requests[q].(status := decision, decidedBy := Some(manager))];
      return None;
    }

    method Decide(route: Option<nat>, q: nat, manager: nat, decision: RequestStatus, expected: int)
      returns (error: Option<QueueError>)
      requires Refs(View())
      modifies this
      ensures Outcome(old(View()), DoDecide(old(View()), route, q, manager, decision, expected), View(), error)
    {
      if decision == Pending || expected < 1 { return Some(Validation); }
      if q >= |requests| { return Some(NotFound); }
      var e := requests[q].entry;
      var entry, r := entries[e], entries[e].round;
      var round := rounds[r];
      if route.Some? && round.session != route.value { return Some(InvalidTransition); }
      if round.lifecycle == Finalized { return Some(RoundIsFinalized); }
      if requests[q].status != Pending { return Some(InvalidTransition); }
      if entry.version != expected { return Some(StaleVersion); }
      var saved := View();
      error := DecideRequest(q, decision, manager);
      if decision == Approved {
        error := TransitionEntry(e, entry.status, entry.version, OptedOut, None, None, Some(manager));
        if error.Some? {
          Rollback(saved);
          return;
        }
        var version;
        error, version := Deselect(r, e);
        InsertOutboxEvent(Event(EntryUpdated, round.session, r, Some(e), version));
      }
    }

    method UpdatePolicy(s: nat, isManager: bool, expected: int, next: Policy) returns (error: Option<QueueError>)
      modifies this
      ensures Outcome(old(View()), DoUpdatePolicy(old(View()), s, isManager, expected, next), View(), error)
    {
      if expected < 1 { return Some(Validation); }
      if s >= |sessions| { return Some(NotFound); }
      var current := sessions[s];
      if !isManager { return Some(InvalidTransition); }
      if current.status == Ended { return Some(RoundIsFinalized); }
      if current.policy.version != expected { return Some(StaleVersion); }
      if SamePolicy(current.policy, next) { return None; }
      sessions := sessions[s := current.(policy := next.(version := current.policy.version + 1))];
      if current.status != Live { return None; }
      var active := ActiveRound(rounds, s);
      if active == None { return None; }
      InsertOutboxEvent(Event(PolicyChanged, s, active.value, None, current.policy.version + 1));
      return None;
    }
  }
}
