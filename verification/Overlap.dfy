/**
  Advisory overlap warnings. Keys are compared and excluded as text; warning ids are
  digests of the six facts of a warning, and the digest is taken to be injective.
 */
module Overlap {
  import opened Wrappers
  import opened Days
  import opened Recurrence
  import opened Timezone
  import opened Calendar
  import opened CalendarMonth

  datatype OverlapInterval = OverlapInterval(key: string, circle: string, startsAt: int, endsAt: int)

  datatype Facts = Facts(
    firstCircle: string, secondCircle: string, firstKey: string, secondKey: string, startsAt: int, endsAt: int)

  datatype Warning = Warning(id: int, firstKey: string, secondKey: string, startsAt: int, endsAt: int)

  type Digest = Facts -> int

  ghost predicate Injective(h: Digest) {
    forall a, b :: h(a) == h(b) ==> a == b
  }

  // ---------------------------------------------------------------- one pair

  predicate StringLess(a: string, b: string) {
    if b == [] then false
    else if a == [] then true
    else a[0] < b[0] || (a[0] == b[0] && StringLess(a[1..], b[1..]))
  }

  lemma {:induction false} StringOrderIsTotal(a: string, b: string)
    requires a != b
    ensures StringLess(a, b) != StringLess(b, a)
  {
    if a != [] && b != [] {
      if a[0] == b[0] {
        assert a == [a[0]] + a[1..] && b == [b[0]] + b[1..];
        StringOrderIsTotal(a[1..], b[1..]);
      }
    }
  }

  /** A text comes before every text it begins, and before every one that first differs by a greater character. */
  lemma {:induction false} StringOrderIsLexical(common: string, c: char, x: string, d: char, y: string)
    ensures StringLess(common, common + [c] + x) && !StringLess(common + [c] + x, common)
    ensures c != d ==> (StringLess(common + [c] + x, common + [d] + y) <==> c < d)
  {
    var a, b := common + [c] + x, common + [d] + y;
    if common != [] {
      var rest := common[1..];
      assert a[1..] == rest + [c] + x && b[1..] == rest + [d] + y;
      StringOrderIsLexical(rest, c, x, d, y);
    } else {
      assert a[0] == c && b[0] == d;
    }
  }

  predicate Conflict(a: OverlapInterval, b: OverlapInterval) {
    a.key != b.key && a.startsAt < b.endsAt && b.startsAt < a.endsAt
  }

  /** Two intervals conflict exactly when their keys differ and they share an instant. */
  lemma ConflictSharesAnInstant(a: OverlapInterval, b: OverlapInterval)
    requires a.startsAt < a.endsAt && b.startsAt < b.endsAt
    ensures Conflict(a, b) <==>
      a.key != b.key && exists t :: Within(t, a.startsAt, a.endsAt) && Within(t, b.startsAt, b.endsAt)
  {
    assert Conflict(a, b) ==>
        Within(MaxTime(a.startsAt, b.startsAt), a.startsAt, a.endsAt)
        && Within(MaxTime(a.startsAt, b.startsAt), b.startsAt, b.endsAt);
  }

  function MaxTime(a: int, b: int): int { if a > b then a else b }

  function MinTime(a: int, b: int): int { if a < b then a else b }

  function FactsOf(a: OverlapInterval, b: OverlapInterval): Facts {
    var (first, second) := if StringLess(b.key, a.key) then (b, a) else (a, b);
    Facts(first.circle, second.circle, first.key, second.key,
          MaxTime(a.startsAt, b.startsAt), MinTime(a.endsAt, b.endsAt))
  }

  function WarningOf(h: Digest, f: Facts): Warning {
    Warning(h(f), f.firstKey, f.secondKey, f.startsAt, f.endsAt)
  }

  function PairWarning(h: Digest, a: OverlapInterval, b: OverlapInterval): Warning {
    WarningOf(h, FactsOf(a, b))
  }

  predicate Within(t: int, from: int, to: int) { from <= t < to }

  /** A warning carries the true, non-empty intersection of its two intervals. */
  lemma WarnsOfTheIntersection(h: Digest, a: OverlapInterval, b: OverlapInterval)
    requires Conflict(a, b) && a.startsAt < a.endsAt && b.startsAt < b.endsAt
    ensures var w := PairWarning(h, a, b);
            && w.startsAt < w.endsAt
            && ((w.firstKey == a.key && w.secondKey == b.key) || (w.firstKey == b.key && w.secondKey == a.key))
            && StringLess(w.firstKey, w.secondKey)
            && forall t :: Within(t, w.startsAt, w.endsAt) <==>
                 Within(t, a.startsAt, a.endsAt) && Within(t, b.startsAt, b.endsAt)
  {
    StringOrderIsTotal(a.key, b.key);
  }

  lemma PairsAreUnordered(h: Digest, a: OverlapInterval, b: OverlapInterval)
    requires a.key != b.key
    ensures PairWarning(h, a, b) == PairWarning(h, b, a)
  {
    StringOrderIsTotal(a.key, b.key);
  }

  // ------------------------------------------------------------- all the pairs

  /** r is the list of warnings between the two lists: ordered by id, nothing missing, nothing else. */
  ghost predicate WarningList(h: Digest, proposed: seq<OverlapInterval>, existing: seq<OverlapInterval>,
                              r: seq<Warning>) {
    && Ordered(r, (w: Warning) => w.id)
    && (forall w :: w in r ==>
          exists a, b :: a in proposed && b in existing && Conflict(a, b) && w == PairWarning(h, a, b))
    && (forall a, b :: a in proposed && b in existing && Conflict(a, b) ==> PairWarning(h, a, b) in r)
  }

  method Warn(h: Digest, first: OverlapInterval, second: OverlapInterval) returns (warning: Warning)
    ensures warning == PairWarning(h, first, second)
  {
    var start, end := MaxTime(first.startsAt, second.startsAt), MinTime(first.endsAt, second.endsAt);
    var firstKey, secondKey := first.key, second.key;
    var firstCircle, secondCircle := first.circle, second.circle;
    var swapped := StringLess(secondKey, firstKey);
    if swapped {
      firstKey, secondKey := secondKey, firstKey;
      firstCircle, secondCircle := secondCircle, firstCircle;
    }
    var id := h(Facts(firstCircle, secondCircle, firstKey, secondKey, start, end));
    warning := Warning(id, firstKey, secondKey, start, end);
  }

  method EvaluateOverlapWarnings(h: Digest, proposed: seq<OverlapInterval>, existing: seq<OverlapInterval>)
    returns (warnings: seq<Warning>)
    requires Injective(h)
    ensures WarningList(h, proposed, existing, warnings)
  {
    warnings := [];
    var seen: set<int> := {};
    for i := 0 to |proposed|
      invariant Collected(h, proposed, existing, seen, warnings)
      invariant forall k, b :: 0 <= k < i && b in existing && Conflict(proposed[k], b) ==>
        PairWarning(h, proposed[k], b) in warnings
    {
      var first := proposed[i];
      for j := 0 to |existing|
        invariant Collected(h, proposed, existing, seen, warnings)
        invariant forall k, b :: 0 <= k < i && b in existing && Conflict(proposed[k], b) ==>
          PairWarning(h, proposed[k], b) in warnings
        invariant forall k :: 0 <= k < j && Conflict(first, existing[k]) ==>
          PairWarning(h, first, existing[k]) in warnings
      {
        var second := existing[j];
        if first.key == second.key || first.startsAt >= second.endsAt || second.startsAt >= first.endsAt { continue; }
        var warning := Warn(h, first, second);
        if warning.id in seen { continue; }
        Collect(h, proposed, existing, seen, warnings, first, second);
        seen := seen + {warning.id};
        warnings := warnings + [warning];
      }
    }
    hide PairWarning, Conflict;
    ghost var unsorted := warnings;
    warnings := SortBy(warnings, (w: Warning) => w.id);
    forall a, b | a in proposed && b in existing && Conflict(a, b) ensures PairWarning(h, a, b) in warnings {
      var k :| 0 <= k < |proposed| && proposed[k] == a;
      assert PairWarning(h, proposed[k], b) in unsorted;
    }
  }

  /** The loop's state: what has been collected is sound, and seen is exactly its ids. */
  ghost predicate Collected(h: Digest, proposed: seq<OverlapInterval>, existing: seq<OverlapInterval>, seen: set<int>,
                            warnings: seq<Warning>) {
    && DistinctBy(warnings, (w: Warning) => w.id)
    && (forall k :: 0 <= k < |warnings| ==> warnings[k].id in seen)
    && (forall f: Facts :: h(f) in seen ==> WarningOf(h, f) in warnings)
    && (forall w :: w in warnings ==>
          exists a, b :: a in proposed && b in existing && Conflict(a, b) && w == PairWarning(h, a, b))
  }

  lemma Collect(h: Digest, proposed: seq<OverlapInterval>, existing: seq<OverlapInterval>, seen: set<int>,
                warnings: seq<Warning>, a: OverlapInterval, b: OverlapInterval)
    requires Injective(h) && Collected(h, proposed, existing, seen, warnings)
    requires a in proposed && b in existing && Conflict(a, b) && h(FactsOf(a, b)) !in seen
    ensures Collected(h, proposed, existing, seen + {h(FactsOf(a, b))}, warnings + [PairWarning(h, a, b)])
  {
  }

  /** Swapping the two lists gives the same warnings in the same order. */
  lemma SwappingListsChangesNothing(h: Digest, xs: seq<OverlapInterval>, ys: seq<OverlapInterval>, r: seq<Warning>,
                                    s: seq<Warning>)
    requires WarningList(h, xs, ys, r) && WarningList(h, ys, xs, s)
    ensures r == s
  {
    HalfOfSwap(h, xs, ys, r, s);
    HalfOfSwap(h, ys, xs, s, r);
    OrderedListsAgree(r, s, (w: Warning) => w.id);
  }

  lemma HalfOfSwap(h: Digest, xs: seq<OverlapInterval>, ys: seq<OverlapInterval>, r: seq<Warning>, s: seq<Warning>)
    requires WarningList(h, xs, ys, r) && WarningList(h, ys, xs, s)
    ensures forall i :: 0 <= i < |r| ==> r[i] in s
  {
    forall i | 0 <= i < |r| ensures r[i] in s {
      assert r[i] in r;
      var a, b :| a in xs && b in ys && Conflict(a, b) && r[i] == PairWarning(h, a, b);
      PairsAreUnordered(h, a, b);
      assert Conflict(b, a);
    }
  }

  /** w warns of the unordered pair of positions i < j of one list. */
  ghost predicate WarnsOf(h: Digest, xs: seq<OverlapInterval>, i: int, j: int, w: Warning) {
    0 <= i < j < |xs| && Conflict(xs[i], xs[j]) && w == PairWarning(h, xs[i], xs[j])
  }

  /**
    A list against itself, as in calendarWarnings: every warning comes from one unordered
    pair of positions and every conflicting pair has its warning. PairsDoNotShareWarnings
    makes the correspondence one to one.
   */
  lemma OneWarningPerPair(h: Digest, xs: seq<OverlapInterval>, r: seq<Warning>)
    requires WarningList(h, xs, xs, r)
    requires forall i, j :: 0 <= i < j < |xs| ==> xs[i].key != xs[j].key
    ensures forall w :: w in r ==> exists i, j :: WarnsOf(h, xs, i, j, w)
    ensures forall i, j :: 0 <= i < j < |xs| && Conflict(xs[i], xs[j]) ==> exists w :: w in r && WarnsOf(h, xs, i, j, w)
  {
    forall w | w in r ensures exists i, j :: WarnsOf(h, xs, i, j, w) {
      var a, b :| a in xs && b in xs && Conflict(a, b) && w == PairWarning(h, a, b);
      var i :| 0 <= i < |xs| && xs[i] == a;
      var j :| 0 <= j < |xs| && xs[j] == b;
      PairsAreUnordered(h, a, b);
      assert i != j;
      assert WarnsOf(h, xs, i, j, w) || WarnsOf(h, xs, j, i, w);
    }
    forall i, j | 0 <= i < j < |xs| && Conflict(xs[i], xs[j])
      ensures exists w :: w in r && WarnsOf(h, xs, i, j, w)
    {
      assert PairWarning(h, xs[i], xs[j]) in r && WarnsOf(h, xs, i, j, PairWarning(h, xs[i], xs[j]));
    }
  }

  lemma PairsDoNotShareWarnings(h: Digest, xs: seq<OverlapInterval>, i: int, j: int, m: int, n: int, w: Warning)
    requires forall i, j :: 0 <= i < j < |xs| ==> xs[i].key != xs[j].key
    requires WarnsOf(h, xs, i, j, w) && WarnsOf(h, xs, m, n, w)
    ensures i == m && j == n
  {
  }
}
