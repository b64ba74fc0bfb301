/**
  Delivery of the queue's outbox rows. A claim only takes a lease; a failed delivery counts the
  attempt and sets a backoff; a row whose attempts are used up is parked, and a replay may still
  claim it. Dispatchers may crash with copies in flight, and leases may run out under them.
 */
module QueueOutbox {
  import opened Wrappers
  import opened Leases

  const RETRY_LIMIT := 5

  datatype Row = Row(session: nat, round: nat, version: int, available: int, attempts: nat, delivered: bool,
                     parked: bool)

  /** A claimed event as its dispatcher holds it: the attempts counted before this one. */
  datatype Copy = Copy(event: nat, attempts: nat)

  datatype State = State(rows: seq<Row>, flights: seq<Copy>, now: int)

  const START := State([], [], 0)

  datatype Action =
    | Insert(session: nat, round: nat, version: int)
    | Tick(delay: nat)
    | Claim(event: nat)
    | Replay(event: nat)
    | Deliver(flight: nat)
    | Fail(flight: nat, draw: nat)
    | Lose(flight: nat)

  // ------------------------------------------------------------------- statements

  predicate Claimable(row: Row, now: int) {
    row.available <= now && !row.delivered && !row.parked
  }

  predicate Replayable(row: Row, now: int) {
    !row.delivered && (row.parked || row.available <= now)
  }

  function Leased(row: Row, now: int): Row { row.(available := now + LEASE, parked := false) }

  function MarkedDelivered(row: Row): Row { row.(delivered := true) }

  function Retried(row: Row, at: int): Row {
    if row.delivered || row.parked then row else row.(attempts := row.attempts + 1, available := at)
  }

  function Parked(row: Row): Row {
    if row.delivered || row.parked then row else row.(parked := true)
  }

  /** Exponential backoff with the default jitter: a tenth less, plus a draw of up to a fifth. */
  function Backoff(attempts: nat, draw: nat): (delay: nat) {
    var delay := Doubled(attempts) * SECOND;
    delay - delay / 10 + draw % (delay / 5 + 1)
  }

  lemma BackoffWithinLease(attempts: nat, draw: nat)
    requires attempts < RETRY_LIMIT
    ensures 0 < Backoff(attempts, draw) < LEASE
  {
    assert Doubled(0) == 1 && Doubled(1) == 2 && Doubled(2) == 4 && Doubled(3) == 8 && Doubled(4) == 16;
  }

  // ------------------------------------------------------------------------ steps

  function Launch(st: State, e: nat): State
    requires e < |st.rows|
  {
    State(st.rows[e := Leased(st.rows[e], st.now)], st.flights + [Copy(e, st.rows[e].attempts)], st.now)
  }

  function Land(st: State, i: nat, row: Row): State
    requires i < |st.flights| && st.flights[i].event < |st.rows|
  {
    State(st.rows[st.flights[i].event := row], Without(st.flights, i), st.now)
  }

  /** What a failed projection of a copy does to its row. */
  function Failed(row: Row, flight: Copy, now: int, draw: nat): Row {
    if flight.attempts >= RETRY_LIMIT then Parked(row) else Retried(row, now + Backoff(flight.attempts, draw))
  }

  predicate Flying(st: State, i: nat) { i < |st.flights| && st.flights[i].event < |st.rows| }

  /** One atomic step; an action whose guard fails does nothing. */
  function Step(st: State, a: Action): State {
    match a
    case Insert(session, round, version) =>
      st.(rows := st.rows + [Row(session, round, version, st.now, 0, false, false)])
    case Tick(delay) => st.(now := st.now + delay)
    case Claim(e) => if e < |st.rows| && Claimable(st.rows[e], st.now) then Launch(st, e) else st
    case Replay(e) => if e < |st.rows| && Replayable(st.rows[e], st.now) then Launch(st, e) else st
    case Deliver(i) => if Flying(st, i) then Land(st, i, MarkedDelivered(st.rows[st.flights[i].event])) else st
    case Fail(i, draw) =>
      if Flying(st, i) then Land(st, i, Failed(st.rows[st.flights[i].event], st.flights[i], st.now, draw)) else st
    case Lose(i) => if i < |st.flights| then st.(flights := Without(st.flights, i)) else st
  }

  function Run(st: State, actions: seq<Action>): State
    decreases |actions|
  {
    if actions == [] then st else Run(Step(st, actions[0]), actions[1..])
  }

  /**
    What a claim does: a due row, undelivered and not parked, is leased for thirty seconds and its
    attempts stay; a replay takes parked rows too, due or not.
   */
  lemma ClaimLeases(st: State, e: nat)
    requires e < |st.rows|
    ensures var row := st.rows[e];
      Step(st, Claim(e)) ==
        if row.available <= st.now && !row.delivered && !row.parked
        then State(st.rows[e := row.(available := st.now + 30_000_000_000)], st.flights + [Copy(e, row.attempts)],
                   st.now)
        else st
    ensures var row := st.rows[e];
      Step(st, Replay(e)) ==
        if !row.delivered && row.parked
        then State(st.rows[e := row.(available := st.now + 30_000_000_000, parked := false)],
                   st.flights + [Copy(e, row.attempts)], st.now)
        else Step(st, Claim(e))
  {
  }

  /**
    An undelivered, unparked row after its dispatch: delivered, tried again after a backoff, or
    after five tries parked.
   */
  ghost predicate Dispatched(row: Row, flight: Copy, projected: bool, now: int, draw: nat, after: Row) {
    if projected then after == row.(delivered := true)
    else if flight.attempts < 5 then
      after == row.(attempts := row.attempts + 1, available := now + Backoff(flight.attempts, draw))
    else after == row.(parked := true)
  }

  /** The backoff is one second doubled for every attempt before, a tenth more or less. */
  lemma BackoffDoubles(attempts: nat, draw: nat)
    requires attempts < 5
    ensures var undisturbed := [1, 2, 4, 8, 16][attempts] * 1_000_000_000;
      && undisturbed * 9 <= Backoff(attempts, draw) * 10 <= undisturbed * 11
      && Backoff(attempts, 0) * 10 == undisturbed * 9 && Backoff(attempts, undisturbed / 5) * 10 == undisturbed * 11
  {
    assert Doubled(0) == 1 && Doubled(1) == 2 && Doubled(2) == 4 && Doubled(3) == 8 && Doubled(4) == 16;
    var fifth := Doubled(attempts) * 200_000_000;
    BackoffIsJittered(attempts, draw, fifth);
    BackoffIsJittered(attempts, 0, fifth);
    BackoffIsJittered(attempts, fifth, fifth);
    hide *;
  }

  lemma BackoffIsJittered(attempts: nat, draw: nat, fifth: nat)
    requires fifth == Doubled(attempts) * 200_000_000
    ensures 9 * fifth <= 2 * Backoff(attempts, draw) <= 11 * fifth
    ensures draw <= fifth ==> 2 * Backoff(attempts, draw) == 9 * fifth + 2 * draw
  {
    var unit := Doubled(attempts);
    assert Backoff(attempts, draw) == unit * SECOND - (unit * SECOND) / 10 + draw % ((unit * SECOND) / 5 + 1);
    hide *;
    assert (unit * SECOND) / 10 == unit * 100_000_000 && (unit * SECOND) / 5 == fifth;
    RestIsSmall(draw, fifth + 1);
  }

  lemma RestIsSmall(x: nat, m: nat)
    requires m > 0
    ensures 0 <= x % m < m && (x < m ==> x % m == x)
  {
  }

  // --------------------------------------------------------------- nothing strands

  /** No row waits longer than one lease. */
  ghost predicate WaitsOneLease(st: State) {
    forall e :: 0 <= e < |st.rows| ==> st.rows[e].available <= st.now + LEASE
  }

  lemma StepWaitsOneLease(st: State, a: Action)
    requires WaitsOneLease(st)
    ensures WaitsOneLease(Step(st, a))
  {
    if a.Fail? && Flying(st, a.flight) && st.flights[a.flight].attempts < RETRY_LIMIT {
      BackoffWithinLease(st.flights[a.flight].attempts, a.draw);
    }
  }

  lemma {:induction false} RunWaitsOneLease(st: State, actions: seq<Action>)
    requires WaitsOneLease(st)
    ensures WaitsOneLease(Run(st, actions))
    decreases |actions|
  {
    if actions != [] {
      StepWaitsOneLease(st, actions[0]);
      RunWaitsOneLease(Step(st, actions[0]), actions[1..]);
    }
  }

  /**
    Whatever claims, failures, crashes and replays happened, an undelivered row is parked or can
    be claimed once its lease has passed, at most thirty seconds from now, and then delivered.
   */
  lemma NothingStrands(actions: seq<Action>, e: nat)
    requires e < |Run(START, actions).rows| && !Run(START, actions).rows[e].delivered
    ensures var st := Run(START, actions); var row := st.rows[e];
      && (row.parked || exists wait :: 0 <= wait <= LEASE && Claimable(Step(st, Tick(wait)).rows[e], st.now + wait))
      && Replayable(Step(st, Tick(LEASE)).rows[e], st.now + LEASE)
      && Step(Step(Step(st, Tick(LEASE)), Replay(e)), Deliver(|st.flights|)).rows[e].delivered
  {
    RunWaitsOneLease(START, actions);
    var st := Run(START, actions);
    var wait := if st.rows[e].available > st.now then st.rows[e].available - st.now else 0;
    assert st.rows[e].parked || Claimable(Step(st, Tick(wait)).rows[e], st.now + wait);
  }

  // ------------------------------------------- one dispatcher that does not crash

  /** The state, how often each row was projected, and how often it was replayed while parked. */
  datatype Tracked = Tracked(st: State, projections: seq<nat>, revived: seq<nat>)

  const UNTRACKED := Tracked(START, [], [])

  ghost predicate NoCopy(flights: seq<Copy>, e: nat) {
    forall i :: 0 <= i < |flights| ==> flights[i].event != e
  }

  /** A single dispatcher claims or replays a row only when it holds no copy of it, and loses none. */
  ghost predicate Solo(st: State, a: Action) {
    match a
    case Claim(e) => NoCopy(st.flights, e)
    case Replay(e) => NoCopy(st.flights, e)
    case Lose(_) => false
    case _ => true
  }

  function Projected(st: State, a: Action): Option<nat> {
    match a
    case Deliver(i) => if Flying(st, i) then Some(st.flights[i].event) else None
    case Fail(i, _) => if Flying(st, i) then Some(st.flights[i].event) else None
    case _ => None
  }

  predicate Revives(st: State, a: Action, e: nat) {
    a == Replay(e) && e < |st.rows| && Replayable(st.rows[e], st.now) && st.rows[e].parked
  }

  /** The counter of row e goes up by one when it is hit. */
  function Count(counts: seq<nat>, e: nat, hit: bool): seq<nat> {
    if hit && e < |counts| then counts[e := counts[e] + 1] else counts
  }

  function Track(t: Tracked, a: Action): Tracked {
    var next := Step(t.st, a);
    match a
    case Insert(_, _, _) => Tracked(next, t.projections + [0], t.revived + [0])
    case Replay(e) => Tracked(next, t.projections, Count(t.revived, e, Revives(t.st, a, e)))
    case _ =>
      match Projected(t.st, a)
      case None => Tracked(next, t.projections, t.revived)
      case Some(e) => Tracked(next, Count(t.projections, e, true), t.revived)
  }

  /** One projection for every attempt counted and every revival, and one more once decided. */
  ghost predicate CountFits(row: Row, projections: nat, revived: nat) {
    && row.attempts <= RETRY_LIMIT
    && (revived > 0 ==> row.attempts == RETRY_LIMIT)
    && projections == row.attempts + revived + (if row.delivered || row.parked then 1 else 0)
    && (row.parked ==> row.attempts == RETRY_LIMIT && !row.delivered)
  }

  ghost predicate CopyFits(flight: Copy, rows: seq<Row>) {
    && flight.event < |rows|
    && flight.attempts == rows[flight.event].attempts
    && !rows[flight.event].delivered && !rows[flight.event].parked
  }

  ghost predicate SoloValid(t: Tracked) {
    && |t.projections| == |t.st.rows| == |t.revived|
    && (forall e :: 0 <= e < |t.st.rows| ==> CountFits(t.st.rows[e], t.projections[e], t.revived[e]))
    && (forall i :: 0 <= i < |t.st.flights| ==> CopyFits(t.st.flights[i], t.st.rows))
    && (forall i, j :: 0 <= i < j < |t.st.flights| ==> t.st.flights[i].event != t.st.flights[j].event)
  }

  lemma LandStaysSolo(t: Tracked, i: nat, row: Row)
    requires SoloValid(t) && i < |t.st.flights|
    requires CountFits(row, t.projections[t.st.flights[i].event] + 1, t.revived[t.st.flights[i].event])
    ensures var e := t.st.flights[i].event;
      SoloValid(Tracked(Land(t.st, i, row), Count(t.projections, e, true), t.revived))
  {
  }

  lemma LaunchStaysSolo(t: Tracked, e: nat, revived: seq<nat>)
    requires SoloValid(t) && e < |t.st.rows| && !t.st.rows[e].delivered && NoCopy(t.st.flights, e)
    requires revived == Count(t.revived, e, t.st.rows[e].parked)
    ensures SoloValid(Tracked(Launch(t.st, e), t.projections, revived))
  {
    var next := Launch(t.st, e);
    assert CopyFits(next.flights[|t.st.flights|], next.rows);
    forall i | 0 <= i < |t.st.flights| ensures CopyFits(t.st.flights[i], next.rows) {
      assert CopyFits(t.st.flights[i], t.st.rows);
    }
  }

  lemma TrackStaysSolo(t: Tracked, a: Action)
    requires SoloValid(t) && Solo(t.st, a)
    ensures SoloValid(Track(t, a))
  {
    match a
    case Deliver(i) =>
      if i < |t.st.flights| {
        assert CopyFits(t.st.flights[i], t.st.rows);
        LandStaysSolo(t, i, MarkedDelivered(t.st.rows[t.st.flights[i].event]));
      }
    case Fail(i, draw) =>
      if i < |t.st.flights| {
        assert CopyFits(t.st.flights[i], t.st.rows);
        LandStaysSolo(t, i, Failed(t.st.rows[t.st.flights[i].event], t.st.flights[i], t.st.now, draw));
      }
    case Insert(_, _, _) =>
      forall i | 0 <= i < |t.st.flights| ensures CopyFits(t.st.flights[i], Track(t, a).st.rows) {
        assert CopyFits(t.st.flights[i], t.st.rows);
      }
    case Claim(e) =>
      if e < |t.st.rows| && Claimable(t.st.rows[e], t.st.now) { LaunchStaysSolo(t, e, t.revived); }
    case Replay(e) =>
      if e < |t.st.rows| && Replayable(t.st.rows[e], t.st.now) {
        LaunchStaysSolo(t, e, Count(t.revived, e, t.st.rows[e].parked));
      }
    case Tick(_) =>
  }

  function TrackAll(t: Tracked, actions: seq<Action>): Tracked
    decreases |actions|
  {
    if actions == [] then t else TrackAll(Track(t, actions[0]), actions[1..])
  }

  ghost predicate SoloRun(st: State, actions: seq<Action>)
    decreases |actions|
  {
    actions == [] || (Solo(st, actions[0]) && SoloRun(Step(st, actions[0]), actions[1..]))
  }

  lemma {:induction false} SoloRunStays(t: Tracked, actions: seq<Action>)
    requires SoloValid(t) && SoloRun(t.st, actions)
    ensures SoloValid(TrackAll(t, actions))
    decreases |actions|
  {
    if actions != [] {
      TrackStaysSolo(t, actions[0]);
      SoloRunStays(Track(t, actions[0]), actions[1..]);
    }
  }

  lemma {:induction false} TrackFollowsRun(t: Tracked, actions: seq<Action>)
    ensures TrackAll(t, actions).st == Run(t.st, actions)
    decreases |actions|
  {
    if actions != [] { TrackFollowsRun(Track(t, actions[0]), actions[1..]); }
  }

  /**
    With one dispatcher that neither crashes nor meets a store error, a row is projected at most
    six times, and once more for each time it was replayed while parked; the last of these
    projections delivers it or parks it, and it is parked by none before.
   */
  lemma SixProjectionsSettle(actions: seq<Action>, e: nat)
    requires SoloRun(START, actions) && e < |Run(START, actions).rows|
    ensures var t := TrackAll(UNTRACKED, actions); var row := Run(START, actions).rows[e];
      && t.st == Run(START, actions)
      && e < |t.projections| && e < |t.revived| && t.projections[e] <= RETRY_LIMIT + 1 + t.revived[e]
      && (t.projections[e] == RETRY_LIMIT + 1 + t.revived[e] ==> row.delivered || row.parked)
      && (row.parked ==> t.projections[e] == RETRY_LIMIT + 1 + t.revived[e])
  {
    TrackFollowsRun(UNTRACKED, actions);
    SoloRunStays(UNTRACKED, actions);
    var t := TrackAll(UNTRACKED, actions);
    assert CountFits(t.st.rows[e], t.projections[e], t.revived[e]);
  }

  // ---------------------------------------------------------------------- the store

  /** The claim order: by session, round and version, then by availability and key. */
  predicate Before(rows: seq<Row>, d: nat, e: nat)
    requires d < |rows| && e < |rows|
  {
    var a, b := rows[d], rows[e];
    if a.session != b.session then a.session < b.session
    else if a.round != b.round then a.round < b.round
    else if a.version != b.version then a.version < b.version
    else if a.available != b.available then a.available < b.available
    else d < e
  }

  class Store {
    var rows: seq<Row>
    var flights: seq<Copy>
    var now: int

    constructor ()
      ensures View() == START
    {
      rows, flights, now := [], [], 0;
    }

    function View(): State
      reads this
    {
      State(rows, flights, now)
    }

    /** The first claimable row in claim order. */
    method NextDue() returns (next: Option<nat>)
      ensures next == None <==> forall e :: 0 <= e < |rows| ==> !Claimable(rows[e], now)
      ensures next.Some? ==> next.value < |rows| && Claimable(rows[next.value], now)
      ensures next.Some? ==> forall e :: 0 <= e < |rows| && Claimable(rows[e], now) ==> !Before(rows, e, next.value)
    {
      next := None;
      for k := 0 to |rows|
        invariant next == None <==> forall e :: 0 <= e < k ==> !Claimable(rows[e], now)
        invariant next.Some? ==> next.value < k && Claimable(rows[next.value], now)
        invariant next.Some? ==> forall e :: 0 <= e < k && Claimable(rows[e], now) ==> !Before(rows, e, next.value)
      {
        if Claimable(rows[k], now) && (next == None || Before(rows, k, next.value)) { next := Some(k); }
      }
    }

    /** Leases up to limit due rows; no row left unclaimed comes before a claimed one. */
    method ClaimDue(limit: nat) returns (events: seq<nat>)
      modifies this
      ensures |events| <= limit && |rows| == |old(rows)| && now == old(now)
      ensures forall e :: e in events ==> e < |rows| && Claimable(old(rows)[e], now)
      ensures forall e :: 0 <= e < |rows| ==> rows[e] == if e in events then Leased(old(rows)[e], now) else old(rows)[e]
      ensures |flights| == |old(flights)| + |events|
      ensures forall k :: 0 <= k < |events| ==>
        events[k] < |rows| && flights[|old(flights)| + k] == Copy(events[k], old(rows)[events[k]].attempts)
      ensures forall d, e :: 0 <= d < |rows| && d !in events && Claimable(old(rows)[d], now) && e in events ==>
        !Before(old(rows), d, e)
      ensures |events| < limit ==> forall d :: 0 <= d < |rows| && Claimable(old(rows)[d], now) ==> d in events
    {
      events := [];
      while |events| < limit
        invariant |events| <= limit && |rows| == |old(rows)| && now == old(now)
        invariant forall e :: e in events ==> e < |rows| && Claimable(old(rows)[e], now)
        invariant forall e :: 0 <= e < |rows| ==>
          rows[e] == if e in events then Leased(old(rows)[e], now) else old(rows)[e]
        invariant |flights| == |old(flights)| + |events|
        invariant forall k :: 0 <= k < |events| ==>
          events[k] < |rows| && flights[|old(flights)| + k] == Copy(events[k], old(rows)[events[k]].attempts)
        invariant forall d, e :: 0 <= d < |rows| && d !in events && Claimable(old(rows)[d], now) && e in events ==>
          !Before(old(rows), d, e)
        decreases limit - |events|
      {
        var next := NextDue();
        if next == None { return; }
        var e := next.value;
        assert e !in events;
        rows := rows[e := Leased(rows[e], now)];
        flights := flights + [Copy(e, rows[e].attempts)];
        events := events + [e];
      }
    }

    /** Dispatches one copy, given whether projecting it worked. */
    method Dispatch(i: nat, projected: bool, draw: nat)
      requires i < |flights| && flights[i].event < |rows|
      modifies this
      ensures View() == Step(old(View()), if projected then Deliver(i) else Fail(i, draw))
      ensures flights == Without(old(flights), i) && now == old(now) && |rows| == |old(rows)|
      ensures forall e :: 0 <= e < |rows| && e != old(flights)[i].event ==> rows[e] == old(rows)[e]
      ensures var e := old(flights)[i].event;
        !old(rows)[e].delivered && !old(rows)[e].parked ==>
          Dispatched(old(rows)[e], old(flights)[i], projected, now, draw, rows[e])
    {
      var flight := flights[i];
      flights := Without(flights, i);
      if projected {
        MarkDelivered(flight.event);
      } else if flight.attempts >= RETRY_LIMIT {
        ParkEvent(flight.event);
      } else {
        RetryEvent(flight.event, now + Backoff(flight.attempts, draw));
      }
    }

    method MarkDelivered(e: nat)
      requires e < |rows|
      modifies this`rows
      ensures rows == old(rows)[e := MarkedDelivered(old(rows)[e])]
    {
      if rows[e].delivered { return; }
      rows := rows[e := rows[e].(delivered := true)];
    }

    method RetryEvent(e: nat, at: int)
      requires e < |rows|
      modifies this`rows
      ensures rows == old(rows)[e := Retried(old(rows)[e], at)]
    {
      if rows[e].delivered || rows[e].parked { return; }
      rows := rows[e := rows[e].(attempts := rows[e].attempts + 1, available := at)];
    }

    method ParkEvent(e: nat)
      requires e < |rows|
      modifies this`rows
      ensures rows == old(rows)[e := Parked(old(rows)[e])]
    {
      if rows[e].delivered || rows[e].parked { return; }
      rows := rows[e := rows[e].(parked := true)];
    }
  }
}
