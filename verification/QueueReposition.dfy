/**
  Moving one entry of a round: stage every position a million higher, then write the final
  positions one row at a time in staged order. Pure facts about the two passes.
 */
module QueueReposition {
  import opened Wrappers
  import opened Days
  import opened QueueModel
  import opened QueueInvariants
  import opened QueueSteps

  /** Another row of e's round holds position p. */
  predicate Occupied(entries: seq<Entry>, e: nat, p: int)
    requires e < |entries|
  {
    exists d :: 0 <= d < |entries| && d != e && entries[d].round == entries[e].round && entries[d].position == p
  }

  // ------------------------------------------------------------- the round's list

  function RowsOf(entries: seq<Entry>, r: nat): (ids: seq<nat>)
    ensures forall e :: e in ids <==> 0 <= e < |entries| && entries[e].round == r
    ensures forall i, j :: 0 <= i < j < |ids| ==> ids[i] < ids[j]
    ensures |ids| == EntryCount(entries, r)
  {
    if entries == [] then [] else
    var last := |entries| - 1;
    var front := RowsOf(entries[..last], r);
    assert forall i :: 0 <= i < |front| ==> front[i] in front;
    if entries[last].round == r then front + [last] else front
  }

  function PositionOf(entries: seq<Entry>, e: nat): int {
    if e < |entries| then entries[e].position else 0
  }

  /** The round's rows in position order. */
  function QueueOrder(entries: seq<Entry>, r: nat): seq<nat> {
    SortBy(RowsOf(entries, r), (e: nat) => PositionOf(entries, e))
  }

  lemma OrderFacts(round: Round, r: nat, entries: seq<Entry>)
    requires SlotsAt(round, r, entries)
    ensures |QueueOrder(entries, r)| == EntryCount(entries, r)
    ensures forall e :: e in QueueOrder(entries, r) <==> 0 <= e < |entries| && entries[e].round == r
    ensures Ordered(QueueOrder(entries, r), (e: nat) => PositionOf(entries, e))
  {
    var ids := RowsOf(entries, r);
    var key := (e: nat) => PositionOf(entries, e);
    assert forall i :: 0 <= i < |ids| ==> ids[i] in ids;
    assert DistinctBy(ids, key);
  }

  lemma {:induction false} RisesAtLeast(q: seq<nat>, key: nat -> int, k: nat)
    requires Ordered(q, key) && k < |q| && forall x :: x in q ==> key(x) >= 1
    ensures key(q[k]) >= k + 1
  {
    if k > 0 {
      RisesAtLeast(q, key, k - 1);
    } else {
      assert q[0] in q;
    }
  }

  lemma {:induction false} LeavesRoom(q: seq<nat>, key: nat -> int, k: nat)
    requires Ordered(q, key) && k < |q| && forall x :: x in q ==> key(x) <= |q|
    ensures key(q[k]) <= k + 1
    decreases |q| - k
  {
    if k + 1 < |q| {
      LeavesRoom(q, key, k + 1);
    } else {
      assert q[k] in q;
    }
  }

  lemma OrderIsInRange(round: Round, r: nat, entries: seq<Entry>)
    requires SlotsAt(round, r, entries)
    ensures var q := QueueOrder(entries, r); forall e :: e in q ==> 1 <= PositionOf(entries, e) <= |q|
  {
    OrderFacts(round, r, entries);
    PositionsAreOneToCount(round, r, entries);
    hide SlotsAt, QueueOrder;
    forall e | e in QueueOrder(entries, r) ensures 1 <= PositionOf(entries, e) <= |QueueOrder(entries, r)| {
      assert PositionTaken(entries, r, entries[e].position);
    }
  }

  /** The k-th row of the list holds position k + 1. */
  lemma OrderPlaces(round: Round, r: nat, entries: seq<Entry>, k: nat)
    requires SlotsAt(round, r, entries) && k < |QueueOrder(entries, r)|
    ensures var e := QueueOrder(entries, r)[k]; e < |entries| && entries[e].round == r && entries[e].position == k + 1
  {
    var q := QueueOrder(entries, r);
    var key := (e: nat) => PositionOf(entries, e);
    OrderFacts(round, r, entries);
    OrderIsInRange(round, r, entries);
    hide SlotsAt, QueueOrder, EntryCount;
    assert forall e :: e in q ==> 1 <= key(e) <= |q|;
    RisesAtLeast(q, key, k);
    LeavesRoom(q, key, k);
    assert q[k] in q;
  }

  function Reinserted<T>(s: seq<T>, i: nat, j: nat): (next: seq<T>)
    requires i < |s| && j < |s|
    ensures |next| == |s|
  {
    var rest := s[..i] + s[i + 1..];
    rest[..j] + [s[i]] + rest[j..]
  }

  /** Where a list element ends up when element i is taken out and put back at j. */
  lemma ReinsertedAt<T>(s: seq<T>, i: nat, j: nat, m: nat)
    requires i < |s| && j < |s| && m < |s|
    ensures 0 <= Shifted(m + 1, i + 1, j + 1) - 1 < |s|
    ensures Reinserted(s, i, j)[Shifted(m + 1, i + 1, j + 1) - 1] == s[m]
  {
  }

  lemma SamePlaceSameRow(round: Round, r: nat, entries: seq<Entry>, d: nat, e: nat)
    requires SlotsAt(round, r, entries) && d < |entries| && e < |entries|
    requires entries[d].round == r == entries[e].round && entries[d].position == entries[e].position
    ensures d == e
  {
  }

  lemma MoveReinsertsAt(round: Round, r: nat, entries: seq<Entry>, from: int, to: int, next: seq<Entry>, k: nat)
    requires SlotsAt(round, r, entries) && next == Repositioned(entries, r, from, to) && SlotsAt(round, r, next)
    requires 1 <= from <= EntryCount(entries, r) && 1 <= to <= EntryCount(entries, r)
    requires |QueueOrder(entries, r)| == EntryCount(entries, r) == |QueueOrder(next, r)| && k < EntryCount(entries, r)
    ensures QueueOrder(next, r)[k] == Reinserted(QueueOrder(entries, r), from - 1, to - 1)[k]
  {
    hide SlotsAt, QueueOrder, Reinserted, EntryCount;
    var q, p := QueueOrder(entries, r), QueueOrder(next, r);
    var m := Shifted(k + 1, to, from) - 1;
    ShiftedBack(k + 1, to, from, EntryCount(entries, r));
    ReinsertedAt(q, from - 1, to - 1, m);
    OrderPlaces(round, r, entries, m);
    OrderPlaces(round, r, next, k);
    SamePlaceSameRow(round, r, next, q[m], p[k]);
  }

  /** The move leaves exactly the list with the entry taken out and put back at its new slot. */
  lemma MoveReinserts(round: Round, r: nat, entries: seq<Entry>, from: int, to: int)
    requires SlotsAt(round, r, entries)
    requires 1 <= from <= EntryCount(entries, r) && 1 <= to <= EntryCount(entries, r)
    ensures |QueueOrder(entries, r)| == EntryCount(entries, r)
    ensures QueueOrder(Repositioned(entries, r, from, to), r) == Reinserted(QueueOrder(entries, r), from - 1, to - 1)
  {
    hide SlotsAt, QueueOrder, Reinserted, EntryCount;
    var next := Repositioned(entries, r, from, to);
    MoveKeepsSlots(round, r, entries, from, to);
    OrderFacts(round, r, entries);
    OrderFacts(round, r, next);
    SameCount(entries, next, r);
    forall k | 0 <= k < EntryCount(entries, r)
      ensures QueueOrder(next, r)[k] == Reinserted(QueueOrder(entries, r), from - 1, to - 1)[k]
    {
      MoveReinsertsAt(round, r, entries, from, to, next, k);
    }
  }

  lemma {:induction false} SameCount(a: seq<Entry>, b: seq<Entry>, r: nat)
    requires |a| == |b| && forall e :: 0 <= e < |a| ==> b[e].round == a[e].round
    ensures EntryCount(a, r) == EntryCount(b, r)
  {
    if a != [] {
      SameCount(a[..|a| - 1], b[..|b| - 1], r);
    }
  }

  // ------------------------------------------------------------------ the two passes

  /** No two rows of the round share a position, and none is below one. */
  ghost predicate Legal(entries: seq<Entry>, r: nat) {
    PositionsDistinct(entries, r) && forall e :: 0 <= e < |entries| && entries[e].round == r ==>
      entries[e].position >= 1
  }

  /** The first i rows of the table staged. */
  function Staged(entries: seq<Entry>, r: nat, i: nat): (next: seq<Entry>)
    ensures |next| == |entries|
    ensures forall e :: 0 <= e < |entries| ==>
      next[e] == if e < i && entries[e].round == r then Lifted(entries[e]) else entries[e]
  {
    seq(|entries|, e requires 0 <= e < |entries| =>
          if e < i && entries[e].round == r then Lifted(entries[e]) else entries[e])
  }

  function Lifted(entry: Entry): Entry { entry.(position := entry.position + STAGE_OFFSET) }

  ghost predicate ClashesAt(entries: seq<Entry>, r: nat, d: nat) {
    exists e :: d < e < |entries| && entries[d].round == r && entries[e].round == r
                && entries[d].position + STAGE_OFFSET == entries[e].position
  }

  lemma ClashesSomewhere(entries: seq<Entry>, r: nat)
    ensures StagingClashes(entries, r) <==> exists d :: 0 <= d < |entries| && ClashesAt(entries, r, d)
  {
    if StagingClashes(entries, r) {
      var d, e :| 0 <= d < e < |entries| && entries[d].round == r && entries[e].round == r
                  && entries[d].position + STAGE_OFFSET == entries[e].position;
      assert ClashesAt(entries, r, d);
    }
  }

  /** Staging row i is blocked exactly by a later row a million positions up; if not blocked it stays legal. */
  lemma StageRow(entries: seq<Entry>, r: nat, i: nat)
    requires Legal(entries, r) && i < |entries| && entries[i].round == r && Legal(Staged(entries, r, i), r)
    ensures Occupied(Staged(entries, r, i), i, entries[i].position + STAGE_OFFSET) <==> ClashesAt(entries, r, i)
    ensures !ClashesAt(entries, r, i) ==> Legal(Staged(entries, r, i + 1), r)
  {
  }

  lemma WriteStaysLegal(entries: seq<Entry>, r: nat, e: nat, entry: Entry)
    requires Legal(entries, r) && e < |entries| && entry.round == entries[e].round == r
    requires entry.position >= 1 && !Occupied(entries, e, entry.position)
    ensures Legal(entries[e := entry], r)
  {
  }

  /** k rows of the staged list rewritten, the rest still staged. */
  ghost predicate HalfWritten(entries: seq<Entry>, now: seq<Entry>, r: nat, ids: seq<nat>, k: nat, from: int, to: int)
    requires k <= |ids|
  {
    && |now| == |entries|
    && forall e :: 0 <= e < |entries| ==>
         now[e] == if entries[e].round != r then entries[e]
                   else if e in ids[..k] then Placed(entries[e], r, from, to)
                   else Lifted(entries[e])
  }

  /** Every row before place k is below it, every other one is not. */
  lemma WrittenAreBelow(round: Round, r: nat, entries: seq<Entry>, ids: seq<nat>, k: nat, e: nat)
    requires SlotsAt(round, r, entries) && ids == QueueOrder(entries, r) && k <= |ids|
    requires e < |entries| && entries[e].round == r
    ensures e in ids[..k] <==> entries[e].position <= k
  {
    OrderFacts(round, r, entries);
    var i :| 0 <= i < |ids| && ids[i] == e;
    OrderPlaces(round, r, entries, i);
    if e in ids[..k] {
      var j :| 0 <= j < k && ids[j] == e;
      OrderPlaces(round, r, entries, j);
    }
    if i < k { assert ids[..k][i] == e; }
  }

  lemma WriteIsFree(round: Round, r: nat, entries: seq<Entry>, now: seq<Entry>, ids: seq<nat>, k: nat, from: int,
                    to: int, d: nat)
    requires SlotsAt(round, r, entries) && ids == QueueOrder(entries, r) && k < |ids| == EntryCount(entries, r)
    requires 1 <= from <= |ids| && 1 <= to <= |ids|
    requires HalfWritten(entries, now, r, ids, k, from, to)
    requires d < |entries| && entries[d].round == r && entries[d].position != k + 1
    requires now[d].position == Shifted(k + 1, from, to)
    ensures k + 1 == from && to - from > STAGE_OFFSET
  {
    WrittenAreBelow(round, r, entries, ids, k, d);
    assert 1 <= entries[d].position by { hide QueueOrder, EntryCount; }
    hide SlotsAt, QueueOrder, EntryCount;
    ShiftedBack(entries[d].position, from, to, |ids|);
    ShiftedBack(k + 1, from, to, |ids|);
  }

  lemma WriteIsBlocked(round: Round, r: nat, entries: seq<Entry>, now: seq<Entry>, ids: seq<nat>, k: nat,
                       from: int, to: int)
    returns (d: nat)
    requires SlotsAt(round, r, entries) && ids == QueueOrder(entries, r) && k < |ids| == EntryCount(entries, r)
    requires 1 <= from <= |ids| && 1 <= to <= |ids|
    requires HalfWritten(entries, now, r, ids, k, from, to)
    requires k + 1 == from && to - from > STAGE_OFFSET
    ensures d < |entries| && entries[d].round == r && entries[d].position == to - STAGE_OFFSET && now[d].position == to
  {
    PositionsAreOneToCount(round, r, entries);
    assert PositionTaken(entries, r, to - STAGE_OFFSET);
    d :| 0 <= d < |entries| && entries[d].round == r && entries[d].position == to - STAGE_OFFSET;
    WrittenAreBelow(round, r, entries, ids, k, d);
  }

  /** Writing row k is blocked exactly when it is the moved row and goes up by more than the offset. */
  lemma WriteRow(round: Round, r: nat, entries: seq<Entry>, now: seq<Entry>, ids: seq<nat>, k: nat, from: int, to: int)
    requires SlotsAt(round, r, entries) && ids == QueueOrder(entries, r) && k < |ids| == EntryCount(entries, r)
    requires 1 <= from <= |ids| && 1 <= to <= |ids|
    requires HalfWritten(entries, now, r, ids, k, from, to)
    ensures ids[k] < |now| == |entries| && entries[ids[k]].round == r && entries[ids[k]].position == k + 1
    ensures Occupied(now, ids[k], Shifted(k + 1, from, to)) <==> k + 1 == from && to - from > STAGE_OFFSET
    ensures Shifted(k + 1, from, to) >= 1
  {
    hide QueueOrder, EntryCount;
    OrderPlaces(round, r, entries, k);
    var e, f := ids[k], Shifted(k + 1, from, to);
    ShiftedBack(k + 1, from, to, |ids|);
    if Occupied(now, e, f) {
      var d :| 0 <= d < |now| && d != e && now[d].round == now[e].round && now[d].position == f;
      assert entries[d].position != k + 1;
      WriteIsFree(round, r, entries, now, ids, k, from, to, d);
    }
    if k + 1 == from && to - from > STAGE_OFFSET {
      var d := WriteIsBlocked(round, r, entries, now, ids, k, from, to);
    }
  }

  lemma WrittenAll(round: Round, r: nat, entries: seq<Entry>, now: seq<Entry>, ids: seq<nat>, from: int, to: int)
    requires SlotsAt(round, r, entries) && ids == QueueOrder(entries, r)
    requires HalfWritten(entries, now, r, ids, |ids|, from, to)
    ensures now == Repositioned(entries, r, from, to)
  {
    OrderFacts(round, r, entries);
    assert ids[..|ids|] == ids;
  }

  /** Adding the same amount to every key does not change the order. */
  lemma SortIgnoresShift(ids: seq<nat>, a: nat -> int, b: nat -> int, shift: int)
    requires DistinctBy(ids, a) && forall x :: x in ids ==> b(x) == a(x) + shift
    ensures SortBy(ids, b) == SortBy(ids, a)
  {
    assert forall i :: 0 <= i < |ids| ==> ids[i] in ids;
    assert DistinctBy(ids, b);
    var p, q := SortBy(ids, b), SortBy(ids, a);
    assert forall i :: 0 <= i < |p| ==> p[i] in p;
    assert forall i :: 0 <= i < |q| ==> q[i] in q;
    OrderedListsAgree(p, q, a);
  }

  lemma StagedOrder(round: Round, r: nat, entries: seq<Entry>)
    requires SlotsAt(round, r, entries)
    ensures QueueOrder(Staged(entries, r, |entries|), r) == QueueOrder(entries, r)
  {
    var staged := Staged(entries, r, |entries|);
    var ids := RowsOf(entries, r);
    SameRows(entries, staged, r);
    assert forall i :: 0 <= i < |ids| ==> ids[i] in ids;
    SortIgnoresShift(ids, (e: nat) => PositionOf(entries, e), (e: nat) => PositionOf(staged, e), STAGE_OFFSET);
  }

  lemma {:induction false} SameRows(a: seq<Entry>, b: seq<Entry>, r: nat)
    requires |a| == |b| && forall e :: 0 <= e < |a| ==> b[e].round == a[e].round
    ensures RowsOf(a, r) == RowsOf(b, r)
  {
    if a != [] {
      SameRows(a[..|a| - 1], b[..|b| - 1], r);
    }
  }

  /** Up to a million entries neither pass can be blocked. */
  lemma SmallRoundsMoveFreely(round: Round, r: nat, entries: seq<Entry>, from: int, to: int)
    requires SlotsAt(round, r, entries) && EntryCount(entries, r) <= STAGE_OFFSET
    requires 1 <= from <= EntryCount(entries, r) && 1 <= to <= EntryCount(entries, r)
    ensures !StagingClashes(entries, r) && to - from <= STAGE_OFFSET
  {
    PositionsAreOneToCount(round, r, entries);
    forall d, e | 0 <= d < e < |entries| && entries[d].round == r && entries[e].round == r
      ensures entries[d].position + STAGE_OFFSET != entries[e].position
    {
      assert PositionTaken(entries, r, entries[d].position) && PositionTaken(entries, r, entries[e].position);
    }
  }

  lemma StagedIsHalfWritten(round: Round, r: nat, entries: seq<Entry>, ids: seq<nat>, from: int, to: int)
    requires SlotsAt(round, r, entries)
    ensures HalfWritten(entries, Staged(entries, r, |entries|), r, ids, 0, from, to)
  {
  }

  lemma OneMoreWritten(entries: seq<Entry>, now: seq<Entry>, r: nat, ids: seq<nat>, k: nat, from: int, to: int)
    requires k < |ids| && HalfWritten(entries, now, r, ids, k, from, to)
    requires ids[k] < |entries| && entries[ids[k]].round == r && ids[k] !in ids[..k]
    ensures ids[k] < |now| && now[ids[k]] == Lifted(entries[ids[k]])
    ensures HalfWritten(entries, now[ids[k] := Placed(entries[ids[k]], r, from, to)], r, ids, k + 1, from, to)
  {
  }

  /** One write of the second pass: blocked as the constraint says, or one row further and still legal. */
  lemma WriteAdvances(round: Round, r: nat, entries: seq<Entry>, now: seq<Entry>, ids: seq<nat>, k: nat, from: int,
                      to: int)
    requires SlotsAt(round, r, entries) && ids == QueueOrder(entries, r) && k < |ids| == EntryCount(entries, r)
    requires 1 <= from <= |ids| && 1 <= to <= |ids|
    requires HalfWritten(entries, now, r, ids, k, from, to) && Legal(now, r)
    ensures ids[k] < |now| && ids[k] < |entries| && entries[ids[k]].position == k + 1 && entries[ids[k]].round == r
    ensures Shifted(k + 1, from, to) >= 1
    ensures Occupied(now, ids[k], Shifted(k + 1, from, to)) <==> k + 1 == from && to - from > STAGE_OFFSET
    ensures var next := now[ids[k] := Placed(entries[ids[k]], r, from, to)];
      !Occupied(now, ids[k], Shifted(k + 1, from, to)) ==>
        HalfWritten(entries, next, r, ids, k + 1, from, to) && Legal(next, r)
    ensures now[ids[k]] == Lifted(entries[ids[k]])
  {
    hide SlotsAt, QueueOrder, EntryCount, HalfWritten, Legal, Shifted, Occupied;
    WriteRow(round, r, entries, now, ids, k, from, to);
    WrittenAreBelow(round, r, entries, ids, k, ids[k]);
    OneMoreWritten(entries, now, r, ids, k, from, to);
    if !Occupied(now, ids[k], Shifted(k + 1, from, to)) {
      WriteStaysLegal(now, r, ids[k], Placed(entries[ids[k]], r, from, to));
    }
  }

  lemma StagedIsLegal(round: Round, r: nat, entries: seq<Entry>)
    requires SlotsAt(round, r, entries)
    ensures Legal(entries, r) && Legal(Staged(entries, r, |entries|), r)
  {
  }

  /** What the staging pass hands to the second one. */
  lemma StagingFacts(round: Round, r: nat, entries: seq<Entry>, e: nat, to: int)
    requires SlotsAt(round, r, entries) && e < |entries| && entries[e].round == r
    ensures Legal(entries, r) && 1 <= entries[e].position <= EntryCount(entries, r)
    ensures var staged := Staged(entries, r, |entries|); var ids := QueueOrder(entries, r);
      && QueueOrder(staged, r) == ids && |ids| == EntryCount(entries, r)
      && Legal(staged, r) && |staged| == |entries| && staged[e].position == entries[e].position + STAGE_OFFSET
      && HalfWritten(entries, staged, r, ids, 0, entries[e].position, to)
  {
    PositionsAreOneToCount(round, r, entries);
    assert PositionTaken(entries, r, entries[e].position);
    hide EntryCount, QueueOrder;
    StagedOrder(round, r, entries);
    OrderFacts(round, r, entries);
    StagedIsLegal(round, r, entries);
    StagedIsHalfWritten(round, r, entries, QueueOrder(entries, r), entries[e].position, to);
  }
}
