/**
  The recitation queue as tables and commands. Rows are never deleted, so a table is a
  sequence and a row's primary key is its index. A command is one transaction: it either
  commits the state given here or fails and leaves the state as it was.
 */
module QueueModel {
  import opened Wrappers

  // -------------------------------------------------------------------- tables

  datatype EntryStatus = Waiting | Reciting | Completed | Skipped | OptedOut
  datatype Lifecycle = Prepared | Active | Finalized
  datatype RoundType = NewMemorization | Revision | OldRevision | Test
  datatype Grade = Excellent | Good | Acceptable | NeedsReview | Repeat
  datatype PopulationPolicy = PresentAtActivation | AllActiveStudents
  datatype FinalizationPolicy = MarkUnfinishedSkipped | PreserveLastState
  datatype OptOutPolicy = ApprovalRequired | AutoApprove
  datatype GradeVisibility = ManagersAndStudent | ManagersOnly | AllParticipants
  datatype GradeCorrection = AuditedAnyTime | BeforeRoundFinalization | Immutable
  datatype RequestStatus = Pending | Approved | Declined
  datatype SessionStatus = Planned | Live | Ended

  datatype Policy = Policy(
    population: PopulationPolicy,
    finalization: FinalizationPolicy,
    optOut: OptOutPolicy,
    visibility: GradeVisibility,
    correction: GradeCorrection,
    version: int)

  datatype Session = Session(status: SessionStatus, policy: Policy)

  datatype Round = Round(
    session: nat,
    number: int,
    kind: RoundType,
    surah: int,
    fromAyah: int,
    toAyah: int,
    gradingRequired: bool,
    lifecycle: Lifecycle,
    selected: Option<nat>,
    version: int,
    activatedAt: Option<int>,
    preorder: seq<nat>)

  datatype Entry = Entry(
    round: nat,
    student: nat,
    position: int,
    status: EntryStatus,
    grade: Option<Grade>,
    notes: Option<string>,
    version: int,
    resolvedBy: Option<nat>)

  datatype Progress = Progress(
    student: nat,
    session: nat,
    surah: int,
    fromAyah: int,
    toAyah: int,
    kind: RoundType,
    grade: Option<Grade>,
    notes: Option<string>)

  datatype Request = Request(entry: nat, requester: nat, status: RequestStatus, decidedBy: Option<nat>)

  datatype EventKind =
    | RoundStarted | Reordered | Advanced | EntryUpdated | GradeSubmitted | RoundFinalized
    | OptOutRequested | PolicyChanged

  datatype Event = Event(kind: EventKind, session: nat, round: nat, resource: Option<nat>, version: int)

  /** resetting: the sessions whose allocation lock a two-transaction reset holds, with its successor round. */
  datatype Db = Db(
    sessions: seq<Session>,
    rounds: seq<Round>,
    entries: seq<Entry>,
    requests: seq<Request>,
    progress: map<nat, Progress>,
    outbox: seq<Event>,
    resetting: map<nat, nat>)

  const EMPTY_DB := Db([], [], [], [], map[], [], map[])

  datatype QueueError =
    | NotFound
    | Validation
    | StaleVersion
    | InvalidTransition
    | NoWaitingEntry
    | EntryReciting
    | EntryTerminal
    | RoundIsFinalized
    | ConstraintViolation
    | LockHeld
    | Unavailable

  /** The foreign keys. */
  ghost predicate Refs(db: Db) {
    && (forall r :: 0 <= r < |db.rounds| ==> db.rounds[r].session < |db.sessions|)
    && (forall e :: 0 <= e < |db.entries| ==> db.entries[e].round < |db.rounds|)
    && (forall q :: 0 <= q < |db.requests| ==> db.requests[q].entry < |db.entries|)
  }

  // ---------------------------------------------------------------- query results

  /** Circle facts at the moment of a command: student members and present students, in activation order. */
  datatype Roster = Roster(members: seq<nat>, present: seq<nat>)

  datatype Membership = Membership(isStudent: bool, joinedAt: int)

  datatype RoundInput = RoundInput(
    kind: RoundType,
    surah: int,
    fromAyah: int,
    toAyah: int,
    surahAyahs: int,
    gradingRequired: bool,
    preorder: seq<nat>)

  const MAX_SURAH := 114
  const MAX_NOTE_LENGTH := 500
  const STAGE_OFFSET := 1_000_000

  predicate NoDuplicates(ids: seq<nat>) {
    forall i, j :: 0 <= i < j < |ids| ==> ids[i] != ids[j]
  }

  function Keep(ids: seq<nat>, pool: seq<nat>): seq<nat> {
    if ids == [] then [] else (if ids[0] in pool then [ids[0]] else []) + Keep(ids[1..], pool)
  }

  function Drop(ids: seq<nat>, taken: seq<nat>): seq<nat> {
    if ids == [] then [] else (if ids[0] in taken then [] else [ids[0]]) + Drop(ids[1..], taken)
  }

  /** Pre-ordered students still in the pool, then everyone else in the pool. */
  function PopulationOrder(preorder: seq<nat>, policy: PopulationPolicy, roster: Roster): seq<nat> {
    var pool := if policy == AllActiveStudents then roster.members else roster.present;
    Keep(preorder, pool) + Drop(pool, preorder)
  }

  function CountIn(members: seq<nat>, ids: seq<nat>): nat {
    if members == [] then 0 else (if members[0] in ids then 1 else 0) + CountIn(members[1..], ids)
  }

  function MaxNumber(rounds: seq<Round>, s: nat): (n: int)
    ensures n >= 0 && forall r :: 0 <= r < |rounds| && rounds[r].session == s ==> rounds[r].number <= n
    ensures n > 0 ==> exists r :: 0 <= r < |rounds| && rounds[r].session == s && rounds[r].number == n
  {
    if rounds == [] then 0 else
    var front, last := rounds[..|rounds| - 1], rounds[|rounds| - 1];
    var n := MaxNumber(front, s);
    if last.session == s && last.number > n then last.number else n
  }

  function MaxPosition(entries: seq<Entry>, r: nat): (n: int)
    ensures n >= 0 && forall e :: 0 <= e < |entries| && entries[e].round == r ==> entries[e].position <= n
    ensures n > 0 ==> exists e :: 0 <= e < |entries| && entries[e].round == r && entries[e].position == n
  {
    if entries == [] then 0 else
    var front, last := entries[..|entries| - 1], entries[|entries| - 1];
    var n := MaxPosition(front, r);
    if last.round == r && last.position > n then last.position else n
  }

  function ActiveRound(rounds: seq<Round>, s: nat): (r: Option<nat>)
    ensures r.Some? ==> r.value < |rounds| && rounds[r.value].session == s && rounds[r.value].lifecycle == Active
    ensures r == None ==> forall k :: 0 <= k < |rounds| && rounds[k].session == s ==> rounds[k].lifecycle != Active
  {
    if rounds == [] then None else
    var last := |rounds| - 1;
    if rounds[last].session == s && rounds[last].lifecycle == Active then Some(last)
    else ActiveRound(rounds[..last], s)
  }

  function LowestPrepared(rounds: seq<Round>, s: nat): (r: Option<nat>)
    ensures r.Some? ==> r.value < |rounds| && rounds[r.value].session == s && rounds[r.value].lifecycle == Prepared
    ensures r.Some? ==> forall k :: 0 <= k < |rounds| && rounds[k].session == s && rounds[k].lifecycle == Prepared ==>
              rounds[r.value].number <= rounds[k].number
    ensures r == None ==> forall k :: 0 <= k < |rounds| && rounds[k].session == s ==> rounds[k].lifecycle != Prepared
  {
    if rounds == [] then None else
    var last := |rounds| - 1;
    var best := LowestPrepared(rounds[..last], s);
    if rounds[last].session == s && rounds[last].lifecycle == Prepared
       && (best == None || rounds[last].number < rounds[best.value].number)
    then Some(last) else best
  }

  /** The waiting, not yet selected entry of lowest position. */
  function NextWaiting(entries: seq<Entry>, r: nat, selected: Option<nat>): (e: Option<nat>)
    ensures e.Some? ==> e.value < |entries| && entries[e.value].round == r && entries[e.value].status == Waiting
                        && Some(e.value) != selected
    ensures forall k | 0 <= k < |entries| && entries[k].round == r && entries[k].status == Waiting
      && Some(k) != selected ::
              e.Some? && entries[e.value].position <= entries[k].position
  {
    if entries == [] then None else
    var last := |entries| - 1;
    var best := NextWaiting(entries[..last], r, selected);
    if entries[last].round == r && entries[last].status == Waiting && Some(last) != selected
       && (best == None || entries[last].position < entries[best.value].position)
    then Some(last) else best
  }

  predicate AnyReciting(entries: seq<Entry>, r: nat) {
    exists e :: 0 <= e < |entries| && entries[e].round == r && entries[e].status == Reciting
  }

  function EntryOf(entries: seq<Entry>, r: nat, student: nat): (e: Option<nat>)
    ensures e.Some? ==> e.value < |entries| && entries[e.value].round == r && entries[e.value].student == student
    ensures e == None ==> forall k :: 0 <= k < |entries| && entries[k].round == r ==> entries[k].student != student
  {
    if entries == [] then None else
    var last := |entries| - 1;
    if entries[last].round == r && entries[last].student == student then Some(last)
    else EntryOf(entries[..last], r, student)
  }

  /** The latest request of one student for one entry. */
  function LatestRequest(requests: seq<Request>, e: nat, student: nat): (q: Option<nat>)
    ensures q.Some? ==> q.value < |requests| && requests[q.value].entry == e && requests[q.value].requester == student
  {
    if requests == [] then None else
    var last := |requests| - 1;
    if requests[last].entry == e && requests[last].requester == student then Some(last)
    else LatestRequest(requests[..last], e, student)
  }

  function PendingRequest(requests: seq<Request>, e: nat): (q: Option<nat>)
    ensures q.Some? ==> q.value < |requests| && requests[q.value].entry == e && requests[q.value].status == Pending
    ensures q == None ==> forall k :: 0 <= k < |requests| && requests[k].entry == e ==> requests[k].status != Pending
  {
    if requests == [] then None else
    var last := |requests| - 1;
    if requests[last].entry == e && requests[last].status == Pending then Some(last)
    else PendingRequest(requests[..last], e)
  }

  /** The closed entry transition table. */
  predicate CanTransitionEntry(from: EntryStatus, to: EntryStatus) {
    || (from == Waiting && to == Reciting)
    || (from == Reciting && to == Completed)
    || (from == Waiting && to == Skipped)
    || (from == Reciting && to == Skipped)
    || (from == Waiting && to == OptedOut)
    || (from == Reciting && to == OptedOut)
  }

  predicate Unfinished(status: EntryStatus) { status == Waiting || status == Reciting }

  predicate IsTerminal(status: EntryStatus) {
    status == Completed || status == Skipped || status == OptedOut
  }

  // ------------------------------------------------------------ building a commit

  /** Round r takes a new content, its next version, and the one event carrying that version. */
  function Announce(db: Db, r: nat, round: Round, kind: EventKind, resource: Option<nat>): Db
    requires r < |db.rounds|
  {
    var next := round.(version := db.rounds[r].version + 1);
    db.(rounds := db.rounds[r := next], outbox := db.outbox + [Event(kind, next.session, r, resource, next.version)])
  }

  /** The same commit with new entry rows. */
  function AnnounceEntries(db: Db, r: nat, round: Round, entries: seq<Entry>, kind: EventKind,
                           resource: Option<nat>): Db
    requires r < |db.rounds|
  {
    Announce(db.(entries := entries), r, round, kind, resource)
  }

  /** Entry e changes and its round announces it, dropping the selection when asked to. */
  function Turn(db: Db, e: nat, entry: Entry, deselect: bool, kind: EventKind): Db
    requires e < |db.entries| && db.entries[e].round < |db.rounds|
  {
    var r := db.entries[e].round;
    var round := db.rounds[r];
    var cleared := if deselect && round.selected == Some(e) then round.(selected := None) else round;
    Announce(db.(entries := db.entries[e := entry.(version := db.entries[e].version + 1)]), r, cleared, kind, Some(e))
  }

  function Moved(entry: Entry, to: EntryStatus, grade: Option<Grade>, notes: Option<string>,
                 actor: Option<nat>): Entry {
    entry.(status := to, grade := grade, notes := notes, resolvedBy := actor)
  }

  function ProgressOf(round: Round, entry: Entry): Progress {
    Progress(entry.student, round.session, round.surah, round.fromAyah, round.toAyah, round.kind,
             entry.grade, entry.notes)
  }

  function FreshEntry(r: nat, student: nat, position: int): Entry {
    Entry(r, student, position, Waiting, None, None, 1, None)
  }

  predicate Clashes(entries: seq<Entry>, r: nat, student: nat, position: int) {
    exists e :: 0 <= e < |entries| && entries[e].round == r
      && (entries[e].student == student || entries[e].position == position)
  }

  /** Insert students[k..] at positions k+1, k+2, ... under the table's uniqueness constraints. */
  function InsertEntries(entries: seq<Entry>, r: nat, students: seq<nat>, k: nat)
    : (next: Result<seq<Entry>, QueueError>)
    requires k <= |students|
    ensures next.Success? ==> entries <= next.value && |next.value| == |entries| + |students| - k
    ensures next.Success? ==> forall e :: |entries| <= e < |next.value| ==>
      next.value[e].grade == None && next.value[e].notes == None
    decreases |students| - k
  {
    if k == |students| then Success(entries)
    else if Clashes(entries, r, students[k], k + 1) then Failure(ConstraintViolation)
    else InsertEntries(entries + [FreshEntry(r, students[k], k + 1)], r, students, k + 1)
  }

  function ActivateLowest(db: Db, s: nat, roster: Roster, now: int): Result<Db, QueueError>
    requires s < |db.sessions|
  {
    if ActiveRound(db.rounds, s).Some? then Success(db) else
    match LowestPrepared(db.rounds, s)
    case None => Success(db)
    case Some(r) =>
      var round := db.rounds[r];
      match InsertEntries(db.entries, r, PopulationOrder(round.preorder, db.sessions[s].policy.population, roster), 0)
      case Failure(error) => Failure(error)
      case Success(entries) =>
        Success(AnnounceEntries(db, r, round.(lifecycle := Active, activatedAt := Some(now)), entries,
                                RoundStarted, None))
  }

  predicate ValidInput(input: RoundInput) {
    && 1 <= input.surah <= MAX_SURAH && 1 <= input.fromAyah <= input.toAyah <= input.surahAyahs
    && NoDuplicates(input.preorder)
  }

  predicate EligiblePreorder(ids: seq<nat>, roster: Roster) {
    ids == [] || CountIn(roster.members, ids) == |ids|
  }

  function CreateRound(db: Db, s: nat, input: RoundInput, roster: Roster): Result<Db, QueueError> {
    if !EligiblePreorder(input.preorder, roster) then Failure(Validation) else
    Success(db.(rounds := db.rounds + [
      Round(s, MaxNumber(db.rounds, s) + 1, input.kind, input.surah, input.fromAyah, input.toAyah,
            input.gradingRequired, Prepared, None, 1, None, input.preorder)]))
  }

  /** One row under the finalization update: unfinished rows of the round become skipped. */
  function Cut(entry: Entry, r: nat, actor: Option<nat>): Entry {
    if entry.round == r && Unfinished(entry.status)
    then entry.(status := Skipped, resolvedBy := actor, version := entry.version + 1)
    else entry
  }

  function SkipUnfinished(entries: seq<Entry>, r: nat, actor: Option<nat>): (next: seq<Entry>)
    ensures |next| == |entries|
    ensures forall e :: 0 <= e < |entries| ==> next[e] == Cut(entries[e], r, actor)
  {
    seq(|entries|, e requires 0 <= e < |entries| => Cut(entries[e], r, actor))
  }

  function FinalizeRound(db: Db, r: nat, actor: Option<nat>): Db
    requires r < |db.rounds| && db.rounds[r].session < |db.sessions|
  {
    var policy := db.sessions[db.rounds[r].session].policy.finalization;
    var entries := if policy == MarkUnfinishedSkipped then SkipUnfinished(db.entries, r, actor) else db.entries;
    AnnounceEntries(db, r, db.rounds[r].(lifecycle := Finalized, selected := None), entries, RoundFinalized, None)
  }

  /** Where a position lands when the entry at from is moved to slot to. */
  function Shifted(position: int, from: int, to: int): int {
    if position == from then to
    else if from < to && from < position <= to then position - 1
    else if to <= position < from then position + 1
    else position
  }

  function Placed(entry: Entry, r: nat, from: int, to: int): Entry {
    if entry.round == r
    then entry.(position := Shifted(entry.position, from, to), version := entry.version + 1)
    else entry
  }

  function Repositioned(entries: seq<Entry>, r: nat, from: int, to: int): (next: seq<Entry>)
    ensures |next| == |entries|
    ensures forall e :: 0 <= e < |entries| ==> next[e] == Placed(entries[e], r, from, to)
  {
    seq(|entries|, e requires 0 <= e < |entries| => Placed(entries[e], r, from, to))
  }

  /** Adding the offset row by row would put a row where a later row of the round still is. */
  predicate StagingClashes(entries: seq<Entry>, r: nat) {
    exists d, e :: 0 <= d < e < |entries| && entries[d].round == r && entries[e].round == r
                   && entries[d].position + STAGE_OFFSET == entries[e].position
  }

  function EntryCount(entries: seq<Entry>, r: nat): nat {
    if entries == [] then 0 else
    EntryCount(entries[..|entries| - 1], r) + if entries[|entries| - 1].round == r then 1 else 0
  }

  // -------------------------------------------------------------------- commands

  datatype Command =
    | CreateSession(policy: Policy)
    | StartSession(session: nat)
    | EndSession(session: nat)
    | Prepare(session: nat, input: RoundInput, roster: Roster, now: int)
    | ActivateIfNeeded(session: nat, roster: Roster, now: int)
    | Reorder(round: nat, expected: int, students: seq<nat>, roster: Roster)
    | Move(entry: nat, expected: int, position: int)
    | AppendLateJoiner(session: nat, user: nat, membership: Option<Membership>)
    | FinalizeActiveRound(session: nat, resolvedBy: Option<nat>)
    | Reset(session: nat, input: RoundInput, roster: Roster, resolvedBy: Option<nat>, now: int)
    | ResetClose(session: nat, input: RoundInput, roster: Roster, resolvedBy: Option<nat>)
    | ResetOpen(session: nat, roster: Roster, now: int)
    | ResetAbandon(session: nat)
    | Advance(round: nat, expected: int)
    | Start(entry: nat, expected: int)
    | Complete(entry: nat, expected: int, actor: nat, grade: Option<Grade>, notes: Option<string>)
    | Correct(entry: nat, expected: int, grade: Option<Grade>, notes: Option<string>)
    | Skip(entry: nat, expected: int, actor: nat)
    | RequestOptOut(session: nat, student: nat)
    | Decide(route: Option<nat>, request: nat, manager: nat, decision: RequestStatus, expected: int)
    | UpdatePolicy(session: nat, isManager: bool, expected: int, policy: Policy)
    | ConvergeRound(round: nat)

  function DoPrepare(db: Db, s: nat, input: RoundInput, roster: Roster, now: int): Result<Db, QueueError> {
    if !ValidInput(input) then Failure(Validation)
    else if s in db.resetting then Failure(LockHeld)
    else if s >= |db.sessions| then Failure(NotFound)
    else if db.sessions[s].status == Ended then Failure(RoundIsFinalized) else
    match CreateRound(db, s, input, roster)
    case Failure(error) => Failure(error)
    case Success(created) =>
      if db.sessions[s].status == Planned then Success(created) else ActivateLowest(created, s, roster, now)
  }

  function DoActivateIfNeeded(db: Db, s: nat, roster: Roster, now: int): Result<Db, QueueError> {
    if s in db.resetting then Failure(LockHeld)
    else if s >= |db.sessions| then Failure(NotFound)
    else match db.sessions[s].status
    case Planned => Success(db)
    case Ended => Failure(RoundIsFinalized)
    case Live => ActivateLowest(db, s, roster, now)
  }

  function DoReorder(db: Db, r: nat, expected: int, students: seq<nat>, roster: Roster): Result<Db, QueueError> {
    if expected < 1 || !NoDuplicates(students) then Failure(Validation)
    else if r >= |db.rounds| then Failure(NotFound)
    else if db.rounds[r].lifecycle != Prepared then Failure(InvalidTransition)
    else if db.rounds[r].version != expected then Failure(StaleVersion)
    else if !EligiblePreorder(students, roster) then Failure(Validation)
    else Success(Announce(db, r, db.rounds[r].(preorder := students), Reordered, None))
  }

  function DoMove(db: Db, e: nat, expected: int, position: int): Result<Db, QueueError>
    requires Refs(db)
  {
    if expected < 1 then Failure(Validation)
    else if e >= |db.entries| then Failure(NotFound) else
    var r := db.entries[e].round;
    if db.entries[e].status != Waiting then Failure(InvalidTransition)
    else if db.rounds[r].lifecycle != Active then Failure(InvalidTransition)
    else if db.rounds[r].version != expected then Failure(StaleVersion)
    else if StagingClashes(db.entries, r) then Failure(ConstraintViolation)
    else if position < 1 || position > EntryCount(db.entries, r) then Failure(Validation)
    else if position - db.entries[e].position > STAGE_OFFSET then Failure(ConstraintViolation)
    else Success(AnnounceEntries(db, r, db.rounds[r], Repositioned(db.entries, r, db.entries[e].position, position),
                                 Reordered, Some(e)))
  }

  function DoAppendLateJoiner(db: Db, s: nat, user: nat, membership: Option<Membership>): Result<Db, QueueError> {
    if s >= |db.sessions| then Failure(NotFound)
    else if db.sessions[s].status != Live then Success(db) else
    match ActiveRound(db.rounds, s)
    case None => Success(db)
    case Some(r) =>
      if EntryOf(db.entries, r, user).Some? then Success(db)
      else if membership == None || !membership.value.isStudent then Success(db)
      else if db.sessions[s].policy.population == AllActiveStudents && db.rounds[r].activatedAt.Some?
              && membership.value.joinedAt <= db.rounds[r].activatedAt.value then Success(db)
      else
        var entry := FreshEntry(r, user, MaxPosition(db.entries, r) + 1);
        Success(AnnounceEntries(db, r, db.rounds[r], db.entries + [entry], EntryUpdated, Some(|db.entries|)))
  }

  function DoFinalizeActiveRound(db: Db, s: nat, actor: Option<nat>): Result<Db, QueueError> {
    if s in db.resetting then Failure(LockHeld)
    else if s >= |db.sessions| then Failure(NotFound) else
    match ActiveRound(db.rounds, s)
    case None => Success(db)
    case Some(r) => Success(FinalizeRound(db, r, actor))
  }

  function DoResetClose(db: Db, s: nat, input: RoundInput, roster: Roster, actor: Option<nat>): Result<Db, QueueError> {
    if !ValidInput(input) then Failure(Validation)
    else if s in db.resetting then Failure(LockHeld)
    else if s >= |db.sessions| then Failure(NotFound)
    else if db.sessions[s].status != Live then Failure(RoundIsFinalized) else
    match ActiveRound(db.rounds, s)
    case None => Failure(NotFound)
    case Some(r) =>
      match CreateRound(FinalizeRound(db, r, actor), s, input, roster)
      case Failure(error) => Failure(error)
      case Success(created) => Success(created.(resetting := created.resetting[s := |db.rounds|]))
  }

  /** The second transaction; committing it releases the lock. */
  function DoResetOpen(db: Db, s: nat, roster: Roster, now: int): Result<Db, QueueError> {
    if s !in db.resetting || s >= |db.sessions| then Failure(NotFound)
    else if db.sessions[s].status != Live then Failure(RoundIsFinalized)
    else ActivateLowest(db.(resetting := db.resetting - {s}), s, roster, now)
  }

  /** A second transaction that failed, or a lost connection, releases the lock and nothing else. */
  function DoResetAbandon(db: Db, s: nat): Result<Db, QueueError> {
    if s !in db.resetting then Failure(NotFound) else Success(db.(resetting := db.resetting - {s}))
  }

  /** Inside an idempotency transaction the two halves commit together. */
  function DoReset(db: Db, s: nat, input: RoundInput, roster: Roster, actor: Option<nat>,
                   now: int): Result<Db, QueueError> {
    match DoResetClose(db, s, input, roster, actor)
    case Failure(error) => Failure(error)
    case Success(closed) =>
      if s >= |db.sessions| || s >= |closed.sessions| then Failure(NotFound)
      else ActivateLowest(closed.(resetting := db.resetting), s, roster, now)
  }

  function DoAdvance(db: Db, r: nat, expected: int): Result<Db, QueueError> {
    if expected < 1 then Failure(Validation)
    else if r >= |db.rounds| then Failure(NotFound)
    else if db.rounds[r].lifecycle != Active then Failure(RoundIsFinalized)
    else if db.rounds[r].version != expected then Failure(StaleVersion)
    else if AnyReciting(db.entries, r) then Failure(EntryReciting) else
    match NextWaiting(db.entries, r, db.rounds[r].selected)
    case None => Failure(NoWaitingEntry)
    case Some(e) => Success(Announce(db, r, db.rounds[r].(selected := Some(e)), Advanced, Some(e)))
  }

  function DoStart(db: Db, e: nat, expected: int): Result<Db, QueueError>
    requires Refs(db)
  {
    if expected < 1 then Failure(Validation)
    else if e >= |db.entries| then Failure(NotFound) else
    var entry, round := db.entries[e], db.rounds[db.entries[e].round];
    if round.lifecycle != Active then Failure(RoundIsFinalized)
    else if entry.version != expected then Failure(StaleVersion)
    else if round.selected != Some(e) || entry.status != Waiting then Failure(InvalidTransition)
    else Success(Turn(db, e, Moved(entry, Reciting, None, None, None), false, EntryUpdated))
  }

  predicate NoteTooLong(notes: Option<string>) { notes.Some? && |notes.value| > MAX_NOTE_LENGTH }

  function DoComplete(db: Db, e: nat, expected: int, actor: nat, grade: Option<Grade>,
                      notes: Option<string>): Result<Db, QueueError>
    requires Refs(db)
  {
    if expected < 1 || NoteTooLong(notes) then Failure(Validation)
    else if e >= |db.entries| then Failure(NotFound) else
    var entry, round := db.entries[e], db.rounds[db.entries[e].round];
    if round.lifecycle != Active then Failure(RoundIsFinalized)
    else if entry.version != expected then Failure(StaleVersion)
    else if entry.status != Reciting then Failure(InvalidTransition)
    else if round.gradingRequired && grade == None then Failure(Validation)
    else if !round.gradingRequired && (grade.Some? || notes.Some?) then Failure(Validation)
    else
      var done := Moved(entry, Completed, grade, notes, Some(actor));
      var turned := Turn(db, e, done, true, GradeSubmitted);
      Success(turned.(progress := RecordProgress(db.progress, e, ProgressOf(round, done))))
  }

  /** The upsert: a first completion inserts, later ones change grade and notes only. */
  function RecordProgress(progress: map<nat, Progress>, e: nat, p: Progress): map<nat, Progress> {
    if e in progress then progress[e := progress[e].(grade := p.grade, notes := p.notes)] else progress[e := p]
  }

  /** An absent note or grade leaves the old one, an empty note clears it. */
  function Corrected(entry: Entry, grade: Option<Grade>, notes: Option<string>): Entry {
    entry.(grade := if grade == None then entry.grade else grade,
           notes := if notes == None then entry.notes else if notes.value == "" then None else notes)
  }

  function DoCorrect(db: Db, e: nat, expected: int, grade: Option<Grade>, notes: Option<string>): Result<Db, QueueError>
    requires Refs(db)
  {
    if expected < 1 || NoteTooLong(notes) then Failure(Validation)
    else if e >= |db.entries| then Failure(NotFound) else
    var entry, round := db.entries[e], db.rounds[db.entries[e].round];
    var policy := db.sessions[round.session].policy.correction;
    if entry.version != expected then Failure(StaleVersion)
    else if entry.status != Completed then Failure(InvalidTransition)
    else if policy == Immutable then Failure(InvalidTransition)
    else if policy == BeforeRoundFinalization && round.lifecycle == Finalized then Failure(RoundIsFinalized)
    else
      var corrected := Corrected(entry, grade, notes);
      var turned := Turn(db, e, corrected, false, GradeSubmitted);
      Success(turned.(progress := RecordProgress(db.progress, e, ProgressOf(round, corrected))))
  }

  function DoSkip(db: Db, e: nat, expected: int, actor: nat): Result<Db, QueueError>
    requires Refs(db)
  {
    if expected < 1 then Failure(Validation)
    else if e >= |db.entries| then Failure(NotFound) else
    var entry, round := db.entries[e], db.rounds[db.entries[e].round];
    if round.lifecycle != Active then Failure(RoundIsFinalized)
    else if entry.version != expected then Failure(StaleVersion)
    else if !CanTransitionEntry(entry.status, Skipped) then Failure(InvalidTransition)
    else Success(Turn(db, e, Moved(entry, Skipped, None, None, Some(actor)), true, EntryUpdated))
  }

  function DoRequestOptOut(db: Db, s: nat, student: nat): Result<Db, QueueError>
    requires Refs(db)
  {
    match ActiveRound(db.rounds, s)
    case None => Failure(NotFound)
    case Some(r) =>
      match EntryOf(db.entries, r, student)
      case None => Failure(NotFound)
      case Some(e) =>
        var latest := LatestRequest(db.requests, e, student);
        if latest.Some? && db.requests[latest.value].status != Declined then Success(db)
        else if IsTerminal(db.entries[e].status) then Failure(EntryTerminal)
        else if db.sessions[s].status != Live then Failure(RoundIsFinalized)
        else match db.sessions[s].policy.optOut
        case ApprovalRequired =>
          if PendingRequest(db.requests, e).Some? then Success(db)
          else Success(db.(requests := db.requests + [Request(e, student, Pending, None)],
                           outbox := db.outbox
                             + [Event(OptOutRequested, s, r, Some(|db.requests|), db.rounds[r].version)]))
        case AutoApprove =>
          var turned := Turn(db, e, Moved(db.entries[e], OptedOut, None, None, Some(student)), true, EntryUpdated);
          if latest.Some? then Success(turned)
          else Success(turned.(requests := db.requests + [Request(e, student, Approved, Some(student))]))
  }

  function DoDecide(db: Db, route: Option<nat>, q: nat, manager: nat, decision: RequestStatus,
                    expected: int): Result<Db, QueueError>
    requires Refs(db)
  {
    if decision == Pending || expected < 1 then Failure(Validation)
    else if q >= |db.requests| then Failure(NotFound) else
    var e := db.requests[q].entry;
    var entry, round := db.entries[e], db.rounds[db.entries[e].round];
    if route.Some? && round.session != route.value then Failure(InvalidTransition)
    else if round.lifecycle == Finalized then Failure(RoundIsFinalized)
    else if db.requests[q].status != Pending then Failure(InvalidTransition)
    else if entry.version != expected then Failure(StaleVersion)
    else if decision == Approved && !CanTransitionEntry(entry.status, OptedOut) then Failure(InvalidTransition)
    else
      var requests := db.requests[q := db.requests[q].(status := decision, decidedBy := Some(manager))];
      if decision == Declined then Success(db.(requests := requests))
      else
        var turned := Turn(db, e, Moved(entry, OptedOut, None, None, Some(manager)), true, EntryUpdated);
        Success(turned.(requests := requests))
  }

  predicate SamePolicy(a: Policy, b: Policy) {
    a.(version := 0) == b.(version := 0)
  }

  function DoUpdatePolicy(db: Db, s: nat, isManager: bool, expected: int, next: Policy): Result<Db, QueueError> {
    if expected < 1 then Failure(Validation)
    else if s >= |db.sessions| then Failure(NotFound) else
    var session := db.sessions[s];
    if !isManager then Failure(InvalidTransition)
    else if session.status == Ended then Failure(RoundIsFinalized)
    else if session.policy.version != expected then Failure(StaleVersion)
    else if SamePolicy(session.policy, next) then Success(db)
    else
      var policy := next.(version := session.policy.version + 1);
      var updated := db.(sessions := db.sessions[s := session.(policy := policy)]);
      match ActiveRound(db.rounds, s)
      case Some(r) =>
        if session.status == Live
        then Success(updated.(outbox := db.outbox + [Event(PolicyChanged, s, r, None, policy.version)]))
        else Success(updated)
      case None => Success(updated)
  }

  function DoConvergeRound(db: Db, r: nat): Result<Db, QueueError>
    requires Refs(db)
  {
    if r >= |db.rounds| then Failure(NotFound)
    else if db.rounds[r].session in db.resetting then Failure(LockHeld)
    else if db.rounds[r].lifecycle == Finalized then Success(db)
    else Success(FinalizeRound(db, r, None))
  }

  function SetStatus(db: Db, s: nat, from: SessionStatus, to: SessionStatus): Result<Db, QueueError> {
    if s >= |db.sessions| then Failure(NotFound)
    else if db.sessions[s].status != from then Failure(InvalidTransition)
    else Success(db.(sessions := db.sessions[s := db.sessions[s].(status := to)]))
  }

  function Apply(db: Db, c: Command): Result<Db, QueueError>
    requires Refs(db)
  {
    match c
    case CreateSession(policy) => Success(db.(sessions := db.sessions + [Session(Planned, policy)]))
    case StartSession(s) => SetStatus(db, s, Planned, Live)
    case EndSession(s) => SetStatus(db, s, Live, Ended)
    case Prepare(s, input, roster, now) => DoPrepare(db, s, input, roster, now)
    case ActivateIfNeeded(s, roster, now) => DoActivateIfNeeded(db, s, roster, now)
    case Reorder(r, expected, students, roster) => DoReorder(db, r, expected, students, roster)
    case Move(e, expected, position) => DoMove(db, e, expected, position)
    case AppendLateJoiner(s, user, membership) => DoAppendLateJoiner(db, s, user, membership)
    case FinalizeActiveRound(s, actor) => DoFinalizeActiveRound(db, s, actor)
    case Reset(s, input, roster, actor, now) => DoReset(db, s, input, roster, actor, now)
    case ResetClose(s, input, roster, actor) => DoResetClose(db, s, input, roster, actor)
    case ResetOpen(s, roster, now) => DoResetOpen(db, s, roster, now)
    case ResetAbandon(s) => DoResetAbandon(db, s)
    case Advance(r, expected) => DoAdvance(db, r, expected)
    case Start(e, expected) => DoStart(db, e, expected)
    case Complete(e, expected, actor, grade, notes) => DoComplete(db, e, expected, actor, grade, notes)
    case Correct(e, expected, grade, notes) => DoCorrect(db, e, expected, grade, notes)
    case Skip(e, expected, actor) => DoSkip(db, e, expected, actor)
    case RequestOptOut(s, student) => DoRequestOptOut(db, s, student)
    case Decide(route, q, manager, decision, expected) => DoDecide(db, route, q, manager, decision, expected)
    case UpdatePolicy(s, isManager, expected, policy) => DoUpdatePolicy(db, s, isManager, expected, policy)
    case ConvergeRound(r) => DoConvergeRound(db, r)
  }
}
