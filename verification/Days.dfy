/**
  Civil dates as day numbers (day 0 is 1970-01-01, a Thursday) and strictly
  ordered lists. A strictly ordered list is determined by its members, so every
  "this loop returns exactly those days" claim is stated as membership plus order.
 */
module Days {

  /** Sunday is 0, as in EXTRACT(DOW). */
  function Weekday(d: int): (w: int)
    ensures 0 <= w < 7
  {
    (d + 4) % 7
  }

  /** The Sunday that starts d's week. */
  function WeekStart(d: int): (s: int)
    ensures s <= d < s + 7 && Weekday(s) == 0
  {
    d - Weekday(d)
  }

  /** Day 0 is a Thursday, weekdays follow each other, and a week starts on the last Sunday not after its days. */
  lemma WeekdaysFollow(d: int)
    ensures Weekday(0) == 4
    ensures Weekday(d + 1) == if Weekday(d) == 6 then 0 else Weekday(d) + 1
    ensures WeekStart(d) <= d && Weekday(WeekStart(d)) == 0
    ensures forall x :: WeekStart(d) < x <= d ==> Weekday(x) != 0
  {
  }

  ghost predicate Ordered<T>(s: seq<T>, key: T -> int) {
    forall i, j :: 0 <= i < j < |s| ==> key(s[i]) < key(s[j])
  }

  ghost predicate DistinctBy<T>(s: seq<T>, key: T -> int) {
    forall i, j :: 0 <= i < j < |s| ==> key(s[i]) != key(s[j])
  }

  ghost predicate Ascending(s: seq<int>) {
    forall i, j :: 0 <= i < j < |s| ==> s[i] < s[j]
  }

  lemma HeadIsLeast<T>(s: seq<T>, key: T -> int)
    requires Ordered(s, key) && s != []
    ensures forall x :: x in s ==> key(s[0]) <= key(x)
    ensures forall x :: x in s[1..] ==> key(s[0]) < key(x)
    ensures Ordered(s[1..], key)
  {
  }

  lemma {:induction false} OrderedListsAgree<T>(a: seq<T>, b: seq<T>, key: T -> int)
    requires Ordered(a, key) && Ordered(b, key)
    requires forall i :: 0 <= i < |a| ==> a[i] in b
    requires forall i :: 0 <= i < |b| ==> b[i] in a
    ensures a == b
  {
    assert a != [] ==> a[0] in b;
    assert b != [] ==> b[0] in a;
    if a != [] && b != [] {
      HeadIsLeast(a, key);
      HeadIsLeast(b, key);
      assert a[0] in b && b[0] in a;
      assert a[0] == b[0];
      forall i | 0 <= i < |a| - 1 ensures a[1..][i] in b[1..] {
        assert a[1..][i] == a[i + 1] && a[1..][i] in a[1..];
      }
      forall i | 0 <= i < |b| - 1 ensures b[1..][i] in a[1..] {
        assert b[1..][i] == b[i + 1] && b[1..][i] in b[1..];
      }
      OrderedListsAgree(a[1..], b[1..], key);
    }
  }

  lemma AscendingListsAgree(a: seq<int>, b: seq<int>)
    requires Ascending(a) && Ascending(b)
    requires forall x :: x in a <==> x in b
    ensures a == b
  {
    var id := (x: int) => x;
    assert Ordered(a, id) && Ordered(b, id);
    forall i | 0 <= i < |a| ensures a[i] in b { assert a[i] in a; }
    forall i | 0 <= i < |b| ensures b[i] in a { assert b[i] in b; }
    OrderedListsAgree(a, b, id);
  }

  /** Day by day: every day of [lo, hi] that p keeps. */
  function DaysWhere(lo: int, hi: int, p: int -> bool): (r: seq<int>)
    ensures Ascending(r)
    ensures forall d :: d in r <==> lo <= d <= hi && p(d)
    decreases hi - lo + 1
  {
    if lo > hi then [] else
    var rest := DaysWhere(lo + 1, hi, p);
    assert forall j :: 0 <= j < |rest| ==> rest[j] in rest;
    if p(lo) then [lo] + rest else rest
  }

  /** One step of the sort used wherever the program calls sort.Slice. */
  function InsertBy<T(!new)>(s: seq<T>, x: T, key: T -> int): (r: seq<T>)
    ensures |r| == |s| + 1
    ensures forall y :: y in r <==> y == x || y in s
    ensures Ordered(s, key) && (forall y :: y in s ==> key(y) != key(x)) ==> Ordered(r, key)
  {
    if s == [] || key(x) < key(s[0]) then
      [x] + s
    else
      var rest := InsertBy(s[1..], x, key);
      assert forall y :: y in s <==> y == s[0] || y in s[1..];
      assert forall j :: 0 <= j < |rest| ==> rest[j] in rest;
      [s[0]] + rest
  }

  function SortBy<T(!new)>(s: seq<T>, key: T -> int): (r: seq<T>)
    ensures |r| == |s|
    ensures forall y :: y in r <==> y in s
    ensures DistinctBy(s, key) ==> Ordered(r, key)
  {
    if s == [] then [] else
    var last := s[|s| - 1];
    var front := s[..|s| - 1];
    assert s == front + [last];
    InsertBy(SortBy(front, key), last, key)
  }
}
