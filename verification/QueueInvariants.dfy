/**
  What every reachable queue state keeps, one predicate per group of tables, and what each
  kind of row change does to it. A predicate names only the tables it reads, so a change to
  any other table keeps it without proof.
 */
module QueueInvariants {
  import opened Wrappers
  import opened QueueModel

  // ------------------------------------------------------------------ predicates

  ghost predicate NumberTaken(rounds: seq<Round>, s: nat, n: int) {
    exists r :: 0 <= r < |rounds| && rounds[r].session == s && rounds[r].number == n
  }

  /** The numbers of one session's rounds are 1..n, in creation order. */
  ghost predicate Numbered(rounds: seq<Round>) {
    && (forall r :: 0 <= r < |rounds| ==> rounds[r].number >= 1)
    && (forall q, r :: 0 <= q < r < |rounds| && rounds[q].session == rounds[r].session ==>
          rounds[q].number < rounds[r].number)
    && (forall r, n :: 0 <= r < |rounds| && 1 <= n < rounds[r].number ==> NumberTaken(rounds, rounds[r].session, n))
  }

  /** At most one active round a session, and every prepared round comes after every round ever activated. */
  ghost predicate Activated(rounds: seq<Round>) {
    && (forall q, r :: 0 <= q < r < |rounds| && rounds[q].session == rounds[r].session ==>
          !(rounds[q].lifecycle == Active && rounds[r].lifecycle == Active))
    && (forall r :: 0 <= r < |rounds| ==>
          && (rounds[r].lifecycle == Prepared ==> rounds[r].activatedAt == None)
          && (rounds[r].lifecycle == Active ==> rounds[r].activatedAt.Some?))
    && (forall q, r :: 0 <= q < |rounds| && 0 <= r < |rounds| && rounds[q].session == rounds[r].session
                       && rounds[q].activatedAt.Some? && rounds[r].lifecycle == Prepared ==>
          rounds[q].number < rounds[r].number)
  }

  ghost predicate PreordersDistinct(rounds: seq<Round>) {
    forall r :: 0 <= r < |rounds| ==> NoDuplicates(rounds[r].preorder)
  }

  ghost predicate RoundsInv(rounds: seq<Round>) {
    Numbered(rounds) && Activated(rounds) && PreordersDistinct(rounds)
  }

  /**
    Round r's selection exists only while it is active and names one of its waiting or reciting
    entries; its reciting entry is then the selected one, and it never has two.
   */
  ghost predicate TurnAt(round: Round, r: nat, entries: seq<Entry>) {
    && (round.selected.Some? ==>
          && round.lifecycle == Active
          && round.selected.value < |entries|
          && entries[round.selected.value].round == r
          && Unfinished(entries[round.selected.value].status))
    && (forall e | 0 <= e < |entries| && entries[e].round == r && entries[e].status == Reciting
        && round.lifecycle == Active ::
          round.selected == Some(e))
    && (forall d, e :: 0 <= d < e < |entries| && entries[d].round == r && entries[e].round == r ==>
          !(entries[d].status == Reciting && entries[e].status == Reciting))
  }

  ghost predicate TurnsInv(rounds: seq<Round>, entries: seq<Entry>) {
    forall r :: 0 <= r < |rounds| ==> TurnAt(rounds[r], r, entries)
  }

  ghost predicate PositionTaken(entries: seq<Entry>, r: nat, p: int) {
    exists e :: 0 <= e < |entries| && entries[e].round == r && entries[e].position == p
  }

  /** Round r's entries hold the positions 1..n, each once, one per student; a prepared round has none. */
  ghost predicate SlotsAt(round: Round, r: nat, entries: seq<Entry>) {
    && (forall e :: 0 <= e < |entries| && entries[e].round == r ==>
          round.lifecycle != Prepared && entries[e].position >= 1)
    && (forall d, e :: 0 <= d < e < |entries| && entries[d].round == r && entries[e].round == r ==>
          entries[d].student != entries[e].student && entries[d].position != entries[e].position)
    && (forall e, p :: 0 <= e < |entries| && entries[e].round == r && 1 <= p < entries[e].position ==>
          PositionTaken(entries, r, p))
  }

  ghost predicate SlotsInv(rounds: seq<Round>, entries: seq<Entry>) {
    forall r :: 0 <= r < |rounds| ==> SlotsAt(rounds[r], r, entries)
  }

  /** A completed entry's progress row agrees with it and its round; any other entry has none, nor a grade. */
  ghost predicate ProgressFits(round: Round, entry: Entry, e: nat, progress: map<nat, Progress>) {
    if entry.status == Completed then
      e in progress && progress[e] == ProgressOf(round, entry) && (round.gradingRequired ==> entry.grade.Some?)
    else
      e !in progress && entry.grade == None && entry.notes == None
  }

  ghost predicate ProgressInv(rounds: seq<Round>, entries: seq<Entry>, progress: map<nat, Progress>) {
    && (forall e :: e in progress ==> e < |entries|)
    && (forall e :: 0 <= e < |entries| && entries[e].round < |rounds| ==>
          ProgressFits(rounds[entries[e].round], entries[e], e, progress))
  }

  /** An event that announces a new round version. */
  predicate Announces(event: Event, r: nat) {
    event.round == r && event.kind != OptOutRequested && event.kind != PolicyChanged
  }

  function LogOf(outbox: seq<Event>, r: nat): seq<int> {
    if outbox == [] then [] else
    var last := outbox[|outbox| - 1];
    LogOf(outbox[..|outbox| - 1], r) + if Announces(last, r) then [last.version] else []
  }

  function VersionsTo(v: int): (s: seq<int>)
    ensures |s| == if v < 1 then 0 else v - 1
    ensures forall k :: 0 <= k < |s| ==> s[k] == k + 2
  {
    if v <= 1 then [] else VersionsTo(v - 1) + [v]
  }

  /** The announcements of each round carry 2, 3, ... up to its version, in this order. */
  ghost predicate LogInv(rounds: seq<Round>, outbox: seq<Event>) {
    && (forall k :: 0 <= k < |outbox| ==> outbox[k].round < |rounds|)
    && (forall r :: 0 <= r < |rounds| ==> rounds[r].version >= 1 && LogOf(outbox, r) == VersionsTo(rounds[r].version))
  }

  /** An approved request has opted its student's entry out; an entry has at most one pending request. */
  ghost predicate RequestsInv(entries: seq<Entry>, requests: seq<Request>) {
    && (forall q :: 0 <= q < |requests| ==>
          && requests[q].entry < |entries|
          && requests[q].requester == entries[requests[q].entry].student
          && (requests[q].status == Approved ==> entries[requests[q].entry].status == OptedOut))
    && (forall p, q :: 0 <= p < q < |requests| && requests[p].entry == requests[q].entry ==>
          !(requests[p].status == Pending && requests[q].status == Pending))
  }

  /** The successor of a half-done reset stays prepared while the reset holds the lock. */
  ghost predicate LocksInv(rounds: seq<Round>, resetting: map<nat, nat>) {
    forall s :: s in resetting ==>
      resetting[s] < |rounds| && rounds[resetting[s]].session == s && rounds[resetting[s]].lifecycle == Prepared
  }

  ghost predicate Inv(db: Db) {
    && Refs(db)
    && RoundsInv(db.rounds)
    && TurnsInv(db.rounds, db.entries)
    && SlotsInv(db.rounds, db.entries)
    && ProgressInv(db.rounds, db.entries, db.progress)
    && LogInv(db.rounds, db.outbox)
    && RequestsInv(db.entries, db.requests)
    && LocksInv(db.rounds, db.resetting)
  }

  // ------------------------------------------------------------------ two states

  function Rank(l: Lifecycle): nat { match l case Prepared => 0 case Active => 1 case Finalized => 2 }

  ghost predicate SameRoundFacts(a: Round, b: Round) {
    && a.session == b.session && a.number == b.number && a.kind == b.kind && a.surah == b.surah
    && a.fromAyah == b.fromAyah && a.toAyah == b.toAyah && a.gradingRequired == b.gradingRequired
  }

  /** Rows are never removed, their immutable facts never change, and the outbox only grows. */
  ghost predicate Grows(a: Db, b: Db) {
    && |a.sessions| <= |b.sessions| && |a.rounds| <= |b.rounds| && |a.entries| <= |b.entries|
    && |a.requests| <= |b.requests|
    && a.outbox <= b.outbox
    && (forall r :: 0 <= r < |a.rounds| ==> SameRoundFacts(a.rounds[r], b.rounds[r]))
    && (forall e :: 0 <= e < |a.entries| ==>
          a.entries[e].round == b.entries[e].round && a.entries[e].student == b.entries[e].student)
  }

  /** Every entry round r has in either state is the same row in both. */
  ghost predicate SameEntries(a: seq<Entry>, b: seq<Entry>, r: nat) {
    && |a| <= |b|
    && (forall e :: 0 <= e < |a| && (a[e].round == r || b[e].round == r) ==> b[e] == a[e])
    && (forall e :: |a| <= e < |b| ==> b[e].round != r)
  }

  /** A version never falls, and one that has not risen stands for unchanged content. */
  ghost predicate VersionsIdentify(a: Db, b: Db) {
    && |a.rounds| <= |b.rounds| && |a.entries| <= |b.entries|
    && (forall r :: 0 <= r < |a.rounds| ==>
          && a.rounds[r].version <= b.rounds[r].version
          && (a.rounds[r].version == b.rounds[r].version ==>
                a.rounds[r] == b.rounds[r] && SameEntries(a.entries, b.entries, r)))
    && (forall e :: 0 <= e < |a.entries| ==>
          && a.entries[e].version <= b.entries[e].version
          && (a.entries[e].version == b.entries[e].version ==> a.entries[e] == b.entries[e]))
  }

  ghost predicate SameButMarks(a: Entry, b: Entry) {
    a.(grade := b.grade, notes := b.notes, version := b.version) == b
  }

  /** A finalized round gains no entry, and keeps all but its version and its entries' grades and notes. */
  ghost predicate FinalizedStays(a: Db, b: Db) {
    && |a.rounds| <= |b.rounds| && |a.entries| <= |b.entries|
    && (forall r :: 0 <= r < |a.rounds| && a.rounds[r].lifecycle == Finalized ==>
          b.rounds[r] == a.rounds[r].(version := b.rounds[r].version))
    && (forall e | 0 <= e < |a.entries| && a.entries[e].round < |a.rounds|
        && a.rounds[a.entries[e].round].lifecycle == Finalized ::
          SameButMarks(a.entries[e], b.entries[e]))
    && (forall e :: |a.entries| <= e < |b.entries| && b.entries[e].round < |a.rounds| ==>
          a.rounds[b.entries[e].round].lifecycle != Finalized)
  }

  /** Lifecycles only move forward, terminal entries stay as they are, ended sessions gain no round and no lock. */
  ghost predicate Forward(a: Db, b: Db) {
    && |a.sessions| <= |b.sessions| && |a.rounds| <= |b.rounds| && |a.entries| <= |b.entries|
    && (forall r :: 0 <= r < |a.rounds| ==> Rank(a.rounds[r].lifecycle) <= Rank(b.rounds[r].lifecycle))
    && (forall e :: 0 <= e < |a.entries| && IsTerminal(a.entries[e].status) ==>
          b.entries[e].status == a.entries[e].status)
    && (forall s :: 0 <= s < |a.sessions| && a.sessions[s].status == Ended ==> b.sessions[s].status == Ended)
    && (forall r :: |a.rounds| <= r < |b.rounds| && b.rounds[r].session < |a.sessions| ==>
          a.sessions[b.rounds[r].session].status != Ended)
    && LocksOnlyLive(a, b)
  }

  ghost predicate LocksOnlyLive(a: Db, b: Db) {
    forall s :: s in b.resetting && s !in a.resetting && s < |a.sessions| ==> a.sessions[s].status != Ended
  }

  /** Activation times stick, and a round activated later has a higher number. */
  ghost predicate ActivatesUpward(a: Db, b: Db) {
    && |a.rounds| <= |b.rounds|
    && (forall r :: 0 <= r < |a.rounds| && a.rounds[r].activatedAt.Some? ==>
          b.rounds[r].activatedAt == a.rounds[r].activatedAt)
    && (forall q, r :: 0 <= q < |a.rounds| && 0 <= r < |b.rounds| && b.rounds[r].session == a.rounds[q].session
                       && a.rounds[q].activatedAt.Some? && b.rounds[r].activatedAt.Some?
                       && (r < |a.rounds| ==> a.rounds[r].activatedAt == None) ==>
          a.rounds[q].number < b.rounds[r].number)
  }

  ghost predicate Evolves(a: Db, b: Db) {
    Grows(a, b) && VersionsIdentify(a, b) && FinalizedStays(a, b) && Forward(a, b) && ActivatesUpward(a, b)
  }

  /** One step keeps the state invariant and goes from a to b. */
  ghost predicate Steps(a: Db, b: Db) {
    Inv(b) && Evolves(a, b)
  }

  // ---------------------------------------------- a change confined to one round

  /** Rows of other rounds are untouched; rows of round r keep their student; new rows belong to r. */
  ghost predicate Elsewhere(a: seq<Entry>, b: seq<Entry>, r: nat) {
    && |a| <= |b|
    && (forall e :: 0 <= e < |a| ==> b[e].round == a[e].round && b[e].student == a[e].student)
    && (forall e :: 0 <= e < |a| && a[e].round != r ==> b[e] == a[e])
    && (forall e :: |a| <= e < |b| ==> b[e].round == r)
  }

  lemma TurnElsewhere(round: Round, q: nat, a: seq<Entry>, b: seq<Entry>, r: nat)
    requires TurnAt(round, q, a) && Elsewhere(a, b, r) && q != r
    ensures TurnAt(round, q, b)
  {
  }

  lemma SlotsElsewhere(round: Round, q: nat, a: seq<Entry>, b: seq<Entry>, r: nat)
    requires SlotsAt(round, q, a) && Elsewhere(a, b, r) && q != r
    ensures SlotsAt(round, q, b)
  {
    forall e, p | 0 <= e < |b| && b[e].round == q && 1 <= p < b[e].position ensures PositionTaken(b, q, p) {
      assert b[e] == a[e];
      assert PositionTaken(a, q, p);
      var d :| 0 <= d < |a| && a[d].round == q && a[d].position == p;
      assert b[d].round == q;
    }
  }

  /** Replacing one round keeps the numbering and the activation order if the new row fits in. */
  lemma RoundReplaced(rounds: seq<Round>, r: nat, x: Round)
    requires RoundsInv(rounds) && r < |rounds|
    requires x.session == rounds[r].session && x.number == rounds[r].number && NoDuplicates(x.preorder)
    requires x.lifecycle == Prepared ==> rounds[r].lifecycle == Prepared && x.activatedAt == None
    requires x.lifecycle == Active ==> x.activatedAt.Some?
    requires x.lifecycle == Active && rounds[r].lifecycle != Active ==>
               forall q :: 0 <= q < |rounds| && rounds[q].session == x.session ==> rounds[q].lifecycle != Active
    requires x.activatedAt.Some? && rounds[r].activatedAt == None ==>
               forall q :: 0 <= q < |rounds| && rounds[q].session == x.session && rounds[q].lifecycle == Prepared ==>
                 x.number <= rounds[q].number
    ensures RoundsInv(rounds[r := x])
  {
    var next := rounds[r := x];
    forall q, n | 0 <= q < |next| && 1 <= n < next[q].number ensures NumberTaken(next, next[q].session, n) {
      assert NumberTaken(rounds, rounds[q].session, n);
      var k :| 0 <= k < |rounds| && rounds[k].session == rounds[q].session && rounds[k].number == n;
      assert next[k].session == next[q].session && next[k].number == n;
    }
  }

  lemma LogGrows(rounds: seq<Round>, outbox: seq<Event>, r: nat, x: Round, event: Event)
    requires LogInv(rounds, outbox) && r < |rounds|
    requires x.version == rounds[r].version + 1 && Announces(event, r) && event.version == x.version
    ensures LogInv(rounds[r := x], outbox + [event])
  {
  }

  /** Only round r and its entries change, and one event announces the round's next version. */
  ghost predicate OnRound(a: Db, b: Db, r: nat) {
    && r < |a.rounds| && |b.rounds| == |a.rounds|
    && b.rounds == a.rounds[r := b.rounds[r]]
    && SameRoundFacts(a.rounds[r], b.rounds[r])
    && Elsewhere(a.entries, b.entries, r)
    && |b.outbox| == |a.outbox| + 1
    && b.outbox == a.outbox + [b.outbox[|a.outbox|]]
    && Announces(b.outbox[|a.outbox|], r)
    && b.outbox[|a.outbox|].version == b.rounds[r].version == a.rounds[r].version + 1
    && b.sessions == a.sessions && b.resetting == a.resetting
    && |a.requests| <= |b.requests|
    && (forall e :: e in b.progress ==> e < |b.entries|)
    && (forall e :: 0 <= e < |a.entries| && a.entries[e].round != r ==>
          (e in b.progress <==> e in a.progress) && (e in a.progress ==> b.progress[e] == a.progress[e]))
  }

  /** What the new round r and its entries owe the state invariant. */
  ghost predicate FitsAt(a: Db, b: Db, r: nat)
    requires OnRound(a, b, r)
  {
    var x := b.rounds[r];
    && NoDuplicates(x.preorder)
    && TurnAt(x, r, b.entries)
    && SlotsAt(x, r, b.entries)
    && (forall e :: 0 <= e < |b.entries| && b.entries[e].round == r ==> ProgressFits(x, b.entries[e], e, b.progress))
    && RequestsInv(b.entries, b.requests)
    && LocksInv(b.rounds, b.resetting)
  }

  /** What round r's new row x and entries owe the history so far. */
  ghost predicate AdvancesAt(rounds: seq<Round>, r: nat, x: Round, before: seq<Entry>, after: seq<Entry>)
    requires r < |rounds| && |before| <= |after|
  {
    var w := rounds[r];
    && (x.lifecycle == Prepared ==> w.lifecycle == Prepared && x.activatedAt == None)
    && (x.lifecycle == Active ==> w.lifecycle != Finalized && x.activatedAt.Some?)
    && (w.activatedAt.Some? ==> x.activatedAt == w.activatedAt)
    && (x.lifecycle == Active && w.lifecycle == Prepared ==>
          LowestPrepared(rounds, x.session) == Some(r) && ActiveRound(rounds, x.session) == None)
    && (x.activatedAt.Some? && w.activatedAt == None ==> x.lifecycle == Active && w.lifecycle == Prepared)
    && (w.lifecycle == Finalized ==> x == w.(version := x.version) && |after| == |before|)
    && (forall e :: 0 <= e < |before| && before[e].round == r ==> EntryAdvances(w.lifecycle, before[e], after[e]))
  }

  ghost predicate EntryAdvances(l: Lifecycle, d: Entry, e: Entry) {
    && (e == d || e.version > d.version)
    && (IsTerminal(d.status) ==> e.status == d.status)
    && (l == Finalized ==> SameButMarks(d, e))
  }

  lemma OnRoundKeepsInv(a: Db, b: Db, r: nat)
    requires Inv(a) && OnRound(a, b, r) && AdvancesAt(a.rounds, r, b.rounds[r], a.entries, b.entries) && FitsAt(a, b, r)
    ensures Inv(b)
  {
    var x := b.rounds[r];
    RoundReplaced(a.rounds, r, x);
    LogGrows(a.rounds, a.outbox, r, x, b.outbox[|a.outbox|]);
    forall q | 0 <= q < |b.rounds| ensures TurnAt(b.rounds[q], q, b.entries) && SlotsAt(b.rounds[q], q, b.entries) {
      if q != r {
        TurnElsewhere(b.rounds[q], q, a.entries, b.entries, r);
        SlotsElsewhere(b.rounds[q], q, a.entries, b.entries, r);
      }
    }
    assert ProgressInv(b.rounds, b.entries, b.progress) by {
      forall e | 0 <= e < |b.entries| && b.entries[e].round < |b.rounds|
        ensures ProgressFits(b.rounds[b.entries[e].round], b.entries[e], e, b.progress)
      {
        if b.entries[e].round != r {
          assert ProgressFits(a.rounds[a.entries[e].round], a.entries[e], e, a.progress);
        }
      }
    }
  }

  lemma OnRoundGrows(a: Db, b: Db, r: nat)
    requires Refs(a) && OnRound(a, b, r) && AdvancesAt(a.rounds, r, b.rounds[r], a.entries, b.entries)
    ensures Grows(a, b) && VersionsIdentify(a, b)
  {
  }

  lemma OnRoundForward(a: Db, b: Db, r: nat)
    requires Refs(a) && OnRound(a, b, r) && AdvancesAt(a.rounds, r, b.rounds[r], a.entries, b.entries)
    ensures FinalizedStays(a, b) && Forward(a, b)
  {
  }

  lemma OnRoundActivates(a: Db, b: Db, r: nat)
    requires RoundsInv(a.rounds) && OnRound(a, b, r) && AdvancesAt(a.rounds, r, b.rounds[r], a.entries, b.entries)
    ensures ActivatesUpward(a, b)
  {
  }

  lemma OnRoundSteps(a: Db, b: Db, r: nat)
    requires Inv(a) && OnRound(a, b, r) && AdvancesAt(a.rounds, r, b.rounds[r], a.entries, b.entries) && FitsAt(a, b, r)
    ensures Steps(a, b)
  {
    OnRoundKeepsInv(a, b, r);
    OnRoundGrows(a, b, r);
    OnRoundForward(a, b, r);
    OnRoundActivates(a, b, r);
  }
}
