/**
  The chat outbox: rows leased by claims that count the attempt, and the in-flight copies that
  any number of dispatchers hold. A crash, a failed store call or an aborted batch loses copies
  and changes nothing else; leases expire with time, so a row can have several copies at once.
 */
module ChatOutbox {
  import opened Wrappers
  import opened Leases

  const ATTEMPT_LIMIT := 5
  const MAX_RETRY_DELAY := 30 * SECOND

  /** deletion: the event announces that its message was deleted. */
  datatype Row = Row(deletion: bool, available: int, attempts: int, delivered: bool, parked: bool)

  /** A claimed event as its dispatcher holds it: the attempt its claim counted. */
  datatype Copy = Copy(event: nat, attempt: int)

  datatype State = State(rows: seq<Row>, flights: seq<Copy>, now: int)

  const START := State([], [], 0)

  datatype Action =
    | Insert(deletion: bool)
    | Tick(delay: nat)
    | Claim(event: nat)
    | Replay(event: nat)
    | Deliver(flight: nat)
    | Retry(flight: nat, at: int)
    | Park(flight: nat)
    | Lose(flight: nat)

  // ------------------------------------------------------------------- statements

  predicate Claimable(row: Row, now: int) {
    row.available <= now && !row.delivered && !row.parked && row.attempts < ATTEMPT_LIMIT
  }

  predicate Replayable(row: Row, now: int) {
    !row.delivered && (row.parked || (row.available <= now && row.attempts < ATTEMPT_LIMIT))
  }

  /** A claim counts its attempt; replaying a parked row starts a fresh budget. */
  function Leased(row: Row, now: int): Row {
    row.(available := now + LEASE, attempts := if row.parked then 1 else row.attempts + 1, parked := false)
  }

  /** The row constraints; a statement whose result breaks them fails and changes nothing. */
  predicate Allowed(row: Row) {
    && 0 <= row.attempts <= ATTEMPT_LIMIT
    && !(row.delivered && row.parked)
    && (row.parked ==> row.attempts == ATTEMPT_LIMIT)
  }

  function MarkedDelivered(row: Row): Row {
    if !row.delivered && Allowed(row.(delivered := true)) then row.(delivered := true) else row
  }

  function Rescheduled(row: Row, at: int): Row {
    if row.delivered || row.parked then row else row.(available := at)
  }

  function Parked(row: Row): Row {
    if !row.delivered && !row.parked && Allowed(row.(parked := true)) then row.(parked := true) else row
  }

  // ------------------------------------------------------------------------ steps

  function Launch(st: State, e: nat): State
    requires e < |st.rows|
  {
    var row := Leased(st.rows[e], st.now);
    State(st.rows[e := row], st.flights + [Copy(e, row.attempts)], st.now)
  }

  function Land(st: State, i: nat, change: Row -> Row): State
    requires i < |st.flights|
  {
    var e := st.flights[i].event;
    State(if e < |st.rows| then st.rows[e := change(st.rows[e])] else st.rows, Without(st.flights, i), st.now)
  }

  /** One atomic step; an action whose guard fails does nothing. */
  function Step(st: State, a: Action): State {
    match a
    case Insert(deletion) => st.(rows := st.rows + [Row(deletion, st.now, 0, false, false)])
    case Tick(delay) => st.(now := st.now + delay)
    case Claim(e) => if e < |st.rows| && Claimable(st.rows[e], st.now) then Launch(st, e) else st
    case Replay(e) => if e < |st.rows| && Replayable(st.rows[e], st.now) then Launch(st, e) else st
    case Deliver(i) => if i < |st.flights| then Land(st, i, MarkedDelivered) else st
    case Retry(i, at) =>
      if i < |st.flights| && st.flights[i].attempt < ATTEMPT_LIMIT then Land(st, i, row => Rescheduled(row, at)) else st
    case Park(i) => if i < |st.flights| && st.flights[i].attempt >= ATTEMPT_LIMIT then Land(st, i, Parked) else st
    case Lose(i) => if i < |st.flights| then st.(flights := Without(st.flights, i)) else st
  }

  function Run(st: State, actions: seq<Action>): State
    decreases |actions|
  {
    if actions == [] then st else Run(Step(st, actions[0]), actions[1..])
  }

  /**
    What a claim does: a due row in nobody's hands, with attempts left, is leased for thirty seconds and
    its attempt counted. A replay takes parked rows too, and gives these a fresh budget.
   */
  lemma ClaimLeases(st: State, e: nat)
    requires e < |st.rows|
    ensures var row := st.rows[e];
      Step(st, Claim(e)) ==
        if row.available <= st.now && !row.delivered && !row.parked && row.attempts < 5
        then State(st.rows[e := row.(available := st.now + 30_000_000_000, attempts := row.attempts + 1)],
                   st.flights + [Copy(e, row.attempts + 1)], st.now)
        else st
    ensures var row := st.rows[e];
      Step(st, Replay(e)) ==
        if !row.delivered && row.parked
        then State(st.rows[e := row.(available := st.now + 30_000_000_000, attempts := 1, parked := false)],
                   st.flights + [Copy(e, 1)], st.now)
        else Step(st, Claim(e))
  {
  }

  // -------------------------------------------------------------------- invariant

  ghost predicate Valid(st: State) {
    && (forall e :: 0 <= e < |st.rows| ==> Allowed(st.rows[e]))
    && (forall i :: 0 <= i < |st.flights| ==> FlightFits(st.flights[i], st.rows))
    && (forall i, j :: 0 <= i < j < |st.flights| && st.flights[i].event == st.flights[j].event ==>
          !(st.flights[i].attempt == ATTEMPT_LIMIT && st.flights[j].attempt == ATTEMPT_LIMIT))
  }

  /** A last attempt in flight keeps its row at the limit and unparked. */
  ghost predicate FlightFits(flight: Copy, rows: seq<Row>) {
    && flight.event < |rows| && 1 <= flight.attempt <= ATTEMPT_LIMIT
    && (flight.attempt == ATTEMPT_LIMIT ==> rows[flight.event].attempts == ATTEMPT_LIMIT && !rows[flight.event].parked)
  }

  lemma LaunchKeepsValid(st: State, e: nat)
    requires Valid(st) && e < |st.rows| && Replayable(st.rows[e], st.now)
    ensures Valid(Launch(st, e))
  {
  }

  lemma LandKeepsValid(st: State, i: nat, change: Row -> Row)
    requires Valid(st) && i < |st.flights|
    requires var row := st.rows[st.flights[i].event];
      && Allowed(change(row)) && change(row).attempts == row.attempts
      && (change(row).parked ==> row.parked || st.flights[i].attempt == ATTEMPT_LIMIT)
    ensures Valid(Land(st, i, change))
  {
    var next := Land(st, i, change);
    forall k | 0 <= k < |next.flights| ensures FlightFits(next.flights[k], next.rows) {
      var j := if k < i then k else k + 1;
      assert next.flights[k] == st.flights[j] && FlightFits(st.flights[j], st.rows);
    }
    forall k, l | 0 <= k < l < |next.flights| && next.flights[k].event == next.flights[l].event
      ensures !(next.flights[k].attempt == ATTEMPT_LIMIT && next.flights[l].attempt == ATTEMPT_LIMIT)
    {
      assert next.flights[k] == st.flights[if k < i then k else k + 1];
      assert next.flights[l] == st.flights[if l < i then l else l + 1];
    }
  }

  lemma StepKeepsValid(st: State, a: Action)
    requires Valid(st)
    ensures Valid(Step(st, a))
  {
    match a
    case Insert(_) =>
      forall i | 0 <= i < |st.flights| ensures FlightFits(st.flights[i], Step(st, a).rows) {
        assert FlightFits(st.flights[i], st.rows);
      }
    case Tick(_) =>
    case Claim(e) => if e < |st.rows| && Claimable(st.rows[e], st.now) { LaunchKeepsValid(st, e); }
    case Replay(e) => if e < |st.rows| && Replayable(st.rows[e], st.now) { LaunchKeepsValid(st, e); }
    case Deliver(i) => if i < |st.flights| { LandKeepsValid(st, i, MarkedDelivered); }
    case Retry(i, at) =>
      if i < |st.flights| && st.flights[i].attempt < ATTEMPT_LIMIT {
        LandKeepsValid(st, i, row => Rescheduled(row, at));
      }
    case Park(i) =>
      if i < |st.flights| && st.flights[i].attempt >= ATTEMPT_LIMIT { LandKeepsValid(st, i, Parked); }
    case Lose(i) =>
      if i < |st.flights| {
        LandKeepsValid(st, i, row => row);
        assert Land(st, i, row => row).rows == st.rows;
      }
  }

  lemma {:induction false} RunKeepsValid(st: State, actions: seq<Action>)
    requires Valid(st)
    ensures Valid(Run(st, actions))
    decreases |actions|
  {
    if actions != [] {
      StepKeepsValid(st, actions[0]);
      RunKeepsValid(Step(st, actions[0]), actions[1..]);
    }
  }

  /**
    In every reachable state: at most five attempts, a parked row has exactly five, one last attempt
    in flight at most.
   */
  lemma AttemptsAreBounded(actions: seq<Action>, e: nat, i: nat, j: nat)
    requires e < |Run(START, actions).rows|
    ensures var st := Run(START, actions); var row := st.rows[e];
      && 0 <= row.attempts <= ATTEMPT_LIMIT
      && (row.parked ==> row.attempts == ATTEMPT_LIMIT && !row.delivered)
      && (i < j < |st.flights| && st.flights[i].event == st.flights[j].event == e ==>
            !(st.flights[i].attempt == ATTEMPT_LIMIT && st.flights[j].attempt == ATTEMPT_LIMIT))
  {
    assert Valid(START);
    RunKeepsValid(START, actions);
    assert Allowed(Run(START, actions).rows[e]);
  }

  // ---------------------------------------------------------- delivered is final

  function CopiesOf(flights: seq<Copy>, e: nat): nat {
    if flights == [] then 0 else
    CopiesOf(flights[..|flights| - 1], e) + if flights[|flights| - 1].event == e then 1 else 0
  }

  lemma {:induction false} CopiesWithout(flights: seq<Copy>, i: nat, e: nat)
    requires i < |flights|
    ensures CopiesOf(Without(flights, i), e) == CopiesOf(flights, e) - if flights[i].event == e then 1 else 0
  {
    var last := |flights| - 1;
    if i < last {
      CopiesWithout(flights[..last], i, e);
      assert Without(flights, i) == Without(flights[..last], i) + [flights[last]];
      assert Without(flights, i)[..last - 1] == Without(flights[..last], i);
    } else {
      assert Without(flights, i) == flights[..last];
    }
  }

  lemma CopiesAppend(flights: seq<Copy>, flight: Copy, e: nat)
    ensures CopiesOf(flights + [flight], e) == CopiesOf(flights, e) + if flight.event == e then 1 else 0
  {
  }

  lemma DeliveredStepStays(st: State, a: Action, e: nat)
    requires e < |st.rows| && st.rows[e].delivered
    ensures e < |Step(st, a).rows| && Step(st, a).rows[e] == st.rows[e]
    ensures CopiesOf(Step(st, a).flights, e) <= CopiesOf(st.flights, e)
  {
    match a
    case Claim(d) => if d < |st.rows| { CopiesAppend(st.flights, Copy(d, Leased(st.rows[d], st.now).attempts), e); }
    case Replay(d) => if d < |st.rows| { CopiesAppend(st.flights, Copy(d, Leased(st.rows[d], st.now).attempts), e); }
    case Deliver(i) => if i < |st.flights| { CopiesWithout(st.flights, i, e); }
    case Retry(i, at) => if i < |st.flights| { CopiesWithout(st.flights, i, e); }
    case Park(i) => if i < |st.flights| { CopiesWithout(st.flights, i, e); }
    case Lose(i) => if i < |st.flights| { CopiesWithout(st.flights, i, e); }
    case Insert(_) =>
    case Tick(_) =>
  }

  /** A delivered row never changes again and is never claimed again: its copies in flight only run out. */
  lemma {:induction false} DeliveredIsFinal(st: State, actions: seq<Action>, e: nat)
    requires e < |st.rows| && st.rows[e].delivered
    ensures e < |Run(st, actions).rows| && Run(st, actions).rows[e] == st.rows[e]
    ensures CopiesOf(Run(st, actions).flights, e) <= CopiesOf(st.flights, e)
    decreases |actions|
  {
    if actions != [] {
      DeliveredStepStays(st, actions[0], e);
      DeliveredIsFinal(Step(st, actions[0]), actions[1..], e);
    }
  }

  // -------------------------------------------------- when delivery is still possible

  /** Neither delivered nor parked, its attempts used up, and nobody holds a copy. */
  ghost predicate Stranded(st: State, e: nat) {
    && e < |st.rows| && !st.rows[e].delivered && !st.rows[e].parked && st.rows[e].attempts == ATTEMPT_LIMIT
    && NoCopy(st.flights, e)
  }

  ghost predicate NoCopy(flights: seq<Copy>, e: nat) {
    forall i :: 0 <= i < |flights| ==> flights[i].event != e
  }

  lemma StrandedStepStays(st: State, a: Action, e: nat)
    requires Stranded(st, e)
    ensures Stranded(Step(st, a), e)
  {
  }

  lemma {:induction false} StrandedStays(st: State, actions: seq<Action>, e: nat)
    requires Stranded(st, e)
    ensures Stranded(Run(st, actions), e)
    decreases |actions|
  {
    if actions != [] {
      StrandedStepStays(st, actions[0], e);
      StrandedStays(Step(st, actions[0]), actions[1..], e);
    }
  }

  ghost predicate CanDeliver(st: State, e: nat) {
    exists actions :: e < |Run(st, actions).rows| && Run(st, actions).rows[e].delivered
  }

  lemma Deliverable(st: State, i: nat, e: nat)
    requires Valid(st) && e < |st.rows| && !st.rows[e].parked && i < |st.flights| && st.flights[i].event == e
    ensures Step(st, Deliver(i)).rows[e].delivered
    ensures CanDeliver(st, e)
  {
    assert Allowed(st.rows[e]);
    assert Run(st, [Deliver(i)]) == Run(Step(st, Deliver(i)), []);
  }

  lemma LaterDelivery(st: State, a: Action, e: nat)
    requires CanDeliver(Step(st, a), e)
    ensures CanDeliver(st, e)
  {
    var rest :| e < |Run(Step(st, a), rest).rows| && Run(Step(st, a), rest).rows[e].delivered;
    assert ([a] + rest)[1..] == rest;
    assert Run(st, [a] + rest) == Run(Step(st, a), rest);
  }

  lemma LaunchedCanDeliver(st: State, e: nat)
    requires Valid(st) && e < |st.rows| && Replayable(st.rows[e], st.now)
    ensures CanDeliver(st, e)
  {
    var next := Step(st, Replay(e));
    LaunchKeepsValid(st, e);
    Deliverable(next, |st.flights|, e);
    LaterDelivery(st, Replay(e), e);
  }

  lemma AwaitedCanDeliver(st: State, e: nat)
    requires Valid(st) && e < |st.rows| && !st.rows[e].delivered && !st.rows[e].parked
      && st.rows[e].attempts < ATTEMPT_LIMIT
    ensures CanDeliver(st, e)
  {
    var delay := if st.rows[e].available > st.now then st.rows[e].available - st.now else 0;
    var next := Step(st, Tick(delay));
    StepKeepsValid(st, Tick(delay));
    LaunchedCanDeliver(next, e);
    LaterDelivery(st, Tick(delay), e);
  }

  /** A row can still be delivered exactly when it is not stranded: a lost copy of its fifth claim strands it. */
  lemma DeliverableUnlessStranded(st: State, e: nat)
    requires Valid(st) && e < |st.rows|
    ensures CanDeliver(st, e) <==> !Stranded(st, e)
  {
    if Stranded(st, e) {
      forall actions ensures !(e < |Run(st, actions).rows| && Run(st, actions).rows[e].delivered) {
        StrandedStays(st, actions, e);
      }
    } else if st.rows[e].delivered {
      assert Run(st, []) == st;
    } else if st.rows[e].parked {
      LaunchedCanDeliver(st, e);
    } else if st.rows[e].attempts < ATTEMPT_LIMIT {
      assert Allowed(st.rows[e]);
      AwaitedCanDeliver(st, e);
    } else {
      assert Allowed(st.rows[e]);
      var i :| 0 <= i < |st.flights| && st.flights[i].event == e;
      Deliverable(st, i, e);
    }
  }

  /** A dispatcher that crashes while holding the fifth claim strands the row for good. */
  lemma LostFifthClaimStrands(st: State, e: nat, actions: seq<Action>)
    requires Valid(st) && e < |st.rows| && Claimable(st.rows[e], st.now) && st.rows[e].attempts == ATTEMPT_LIMIT - 1
    requires NoCopy(st.flights, e)
    ensures Stranded(Run(Step(Step(st, Claim(e)), Lose(|st.flights|)), actions), e)
  {
    var lost := Step(Step(st, Claim(e)), Lose(|st.flights|));
    assert lost.flights == st.flights;
    StrandedStays(lost, actions, e);
  }

  ghost predicate CanStrand(st: State, e: nat) {
    exists actions :: Stranded(Run(st, actions), e)
  }

  lemma LaterStranded(st: State, a: Action, e: nat)
    requires CanStrand(Step(st, a), e)
    ensures CanStrand(st, e)
  {
    var rest :| Stranded(Run(Step(st, a), rest), e);
    assert ([a] + rest)[1..] == rest;
    assert Run(st, [a] + rest) == Run(Step(st, a), rest);
  }

  /** Crashing with every copy of an only row uses its attempts up. */
  lemma {:induction false} CrashingStrands(st: State)
    requires |st.rows| == 1 && st.flights == [] && st.rows[0].available <= st.now
    requires !st.rows[0].delivered && !st.rows[0].parked && 0 <= st.rows[0].attempts <= ATTEMPT_LIMIT
    ensures CanStrand(st, 0)
    decreases ATTEMPT_LIMIT - st.rows[0].attempts
  {
    if st.rows[0].attempts == ATTEMPT_LIMIT {
      assert Run(st, []) == st && Stranded(st, 0);
    } else {
      var claimed := Step(st, Claim(0));
      var lost := Step(claimed, Lose(0));
      CrashingStrands(Step(lost, Tick(LEASE)));
      LaterStranded(lost, Tick(LEASE), 0);
      LaterStranded(claimed, Lose(0), 0);
      LaterStranded(st, Claim(0), 0);
    }
  }

  /** A stranded row is reachable from the empty table. */
  lemma StrandedIsReached()
    ensures CanStrand(START, 0)
  {
    CrashingStrands(Step(START, Insert(false)));
    LaterStranded(START, Insert(false), 0);
  }

  // -------------------------------------------------------------------- retry delay

  /** A product as a 64-bit duration holds it. */
  function Wrapped(x: int): int { (x + 0x8000_0000_0000_0000) % 0x1_0000_0000_0000_0000 - 0x8000_0000_0000_0000 }

  /** Exponential backoff after the failed attempt, jittered, then clamped. */
  function RetryDelay(attempt: int, jitter: int -> int): (delay: int)
    ensures 0 <= delay <= MAX_RETRY_DELAY
  {
    var jittered := jitter(Wrapped(Doubled((if attempt < 1 then 1 else attempt) - 1) * SECOND));
    if jittered < 0 then 0 else if jittered > MAX_RETRY_DELAY then MAX_RETRY_DELAY else jittered
  }

  lemma WrappedFits(x: int)
    ensures 0 <= x < 0x8000_0000_0000_0000 ==> Wrapped(x) == x
  {
  }

  lemma DoubledEightTimes(n: nat)
    ensures Doubled(n + 8) == 256 * Doubled(n)
  {
    assert Doubled(n + 2) == 4 * Doubled(n);
    assert Doubled(n + 4) == 4 * Doubled(n + 2);
    assert Doubled(n + 6) == 4 * Doubled(n + 4);
    assert Doubled(n + 8) == 4 * Doubled(n + 6);
  }

  lemma DoubledValues()
    ensures Doubled(0) == 1 && Doubled(1) == 2 && Doubled(2) == 4 && Doubled(3) == 8
    ensures Doubled(4) == 16 && Doubled(5) == 32
    ensures Doubled(33) == 8_589_934_592 && Doubled(34) == 17_179_869_184
  {
    DoubledEightTimes(0);
    DoubledEightTimes(8);
    DoubledEightTimes(16);
    DoubledEightTimes(24);
    assert Doubled(33) == 2 * Doubled(32);
    assert Doubled(34) == 2 * Doubled(33);
  }

  lemma {:induction false} DoubledGrows(m: nat, n: nat)
    requires m <= n
    ensures Doubled(m) <= Doubled(n)
  {
    if m < n { DoubledGrows(m, n - 1); }
  }

  /** Undisturbed, the delay is one second doubled with every attempt up to the cap, as long as the product fits. */
  lemma DelayDoublesToCap(attempt: int)
    requires 1 <= attempt <= 34
    ensures var undisturbed := RetryDelay(attempt, d => d);
      undisturbed == if Doubled(attempt - 1) * SECOND < MAX_RETRY_DELAY then Doubled(attempt - 1) * SECOND
        else MAX_RETRY_DELAY
    ensures attempt <= 5 ==> RetryDelay(attempt, d => d) == [1, 2, 4, 8, 16][attempt - 1] * SECOND
    ensures attempt > 5 ==> RetryDelay(attempt, d => d) == MAX_RETRY_DELAY
  {
    DoubledValues();
    DoubledGrows(attempt - 1, 33);
    WrappedFits(Doubled(attempt - 1) * SECOND);
    if attempt > 5 { DoubledGrows(5, attempt - 1); }
  }

  /** One attempt further the product overflows and the delay would drop to nothing; no retry gets there. */
  lemma DelayOverflows()
    ensures RetryDelay(35, d => d) == 0
  {
    DoubledValues();
  }

  /** The default jitter for one random draw; Go's division truncates, and the delay is never negative here. */
  function DefaultJitter(delay: int, draw: int): int {
    if delay <= 0 then 0 else
    var delta := delay / 10;
    if delta == 0 then delay else delay - delta + draw
  }

  /** The default jitter keeps a delay of whole seconds within a tenth of it. */
  lemma JitteredDelay(attempt: int, seconds: int, draw: int)
    requires attempt >= 1 && seconds == Doubled(attempt - 1) && 1 <= seconds <= 8
    requires 0 <= draw <= 2 * (seconds * SECOND / 10)
    ensures var delay := RetryDelay(attempt, d => DefaultJitter(d, draw));
      9 * (seconds * 100_000_000) <= delay <= 11 * (seconds * 100_000_000)
  {
    hide Doubled;
    WrappedFits(seconds * SECOND);
  }

  /** With the default jitter no retry of a budget waits longer than the one after it can at least. */
  lemma BackoffGrows(attempt: int, draw: int, nextDraw: int)
    requires 1 <= attempt < ATTEMPT_LIMIT - 1
    requires 0 <= draw <= 2 * (Doubled(attempt - 1) * SECOND / 10)
    requires 0 <= nextDraw <= 2 * (Doubled(attempt) * SECOND / 10)
    ensures var delay := RetryDelay(attempt, d => DefaultJitter(d, draw));
      var next := RetryDelay(attempt + 1, d => DefaultJitter(d, nextDraw));
      delay < next < MAX_RETRY_DELAY
  {
    DoubledValues();
    JitteredDelay(attempt, Doubled(attempt - 1), draw);
    JitteredDelay(attempt + 1, Doubled(attempt), nextDraw);
  }

  // ---------------------------------------------------------------------- the store

  /** What reloading the message of an event gave: nothing, no message to show, or one that may be deleted. */
  datatype Load = LoadFailed | NotProjectable | Loaded(deleted: bool)

  /** What a dispatcher does with a claimed copy, given what it loaded and whether projecting it worked. */
  function Decision(row: Row, flight: Copy, i: nat, load: Load, projected: bool, now: int, jitter: int -> int): Action {
    match load
    case LoadFailed => Lose(i)
    case NotProjectable => Deliver(i)
    case Loaded(deleted) =>
      if deleted && !row.deletion then Deliver(i)
      else if projected then Deliver(i)
      else if flight.attempt >= ATTEMPT_LIMIT then Park(i)
      else Retry(i, now + RetryDelay(flight.attempt, jitter))
  }

  /** Nothing is left to show: the message cannot be shown, was deleted since the event, or was projected. */
  predicate Settles(row: Row, load: Load, projected: bool) {
    || load == NotProjectable
    || (load == Loaded(true) && row.deletion == false)
    || (load.Loaded? && projected)
  }

  /** An undelivered and unparked row after its dispatch, by what was loaded and projected. */
  ghost predicate Dispatched(row: Row, flight: Copy, load: Load, projected: bool, now: int, jitter: int -> int,
                             after: Row) {
    && (load == LoadFailed ==> after == row)
    && (Settles(row, load, projected) ==> after == row.(delivered := true))
    && (load.Loaded? && !Settles(row, load, projected) ==>
          if flight.attempt < 5 then after == row.(available := now + RetryDelay(flight.attempt, jitter))
          else after == row.(parked := true))
  }

  /** Of all claimable rows e comes first by availability, then by key. */
  ghost predicate FirstDue(st: State, e: nat) {
    && e < |st.rows| && Claimable(st.rows[e], st.now)
    && forall d :: 0 <= d < |st.rows| && Claimable(st.rows[d], st.now) ==>
         st.rows[e].available < st.rows[d].available || (st.rows[e].available == st.rows[d].available && e <= d)
  }

  /** Every action claims the row that was first when its turn came. */
  ghost predicate InOrder(st: State, claims: seq<Action>) {
    forall k :: 0 <= k < |claims| ==> claims[k].Claim? && FirstDue(Run(st, claims[..k]), claims[k].event)
  }

  class Store {
    var rows: seq<Row>
    var flights: seq<Copy>
    var now: int

    constructor ()
      ensures View() == START
    {
      rows, flights, now := [], [], 0;
    }

    function View(): State
      reads this
    {
      State(rows, flights, now)
    }

    /** The claimable row that comes first by availability, then by key. */
    method NextDue() returns (next: Option<nat>)
      ensures next == None <==> forall e :: 0 <= e < |rows| ==> !Claimable(rows[e], now)
      ensures next.Some? ==> FirstDue(View(), next.value)
    {
      next := None;
      for k := 0 to |rows|
        invariant next == None <==> forall e :: 0 <= e < k ==> !Claimable(rows[e], now)
        invariant next.Some? ==> next.value < k && Claimable(rows[next.value], now)
        invariant next.Some? ==> forall e :: 0 <= e < k && Claimable(rows[e], now) ==>
                    rows[next.value].available < rows[e].available
                      || (rows[next.value].available == rows[e].available && next.value <= e)
      {
        if Claimable(rows[k], now) && (next == None || rows[k].available < rows[next.value].available) {
          next := Some(k);
        }
      }
    }

    /** Leases up to limit due rows; the claims, one after the other, are the actions returned. */
    method ClaimDue(limit: nat) returns (claims: seq<Action>)
      modifies this
      ensures View() == Run(old(View()), claims) && |claims| <= limit
      ensures InOrder(old(View()), claims)
      ensures |flights| == |old(flights)| + |claims|
      ensures |claims| < limit ==> forall e :: 0 <= e < |rows| ==> !Claimable(rows[e], now)
    {
      claims := [];
      while |claims| < limit
        invariant |claims| <= limit
        invariant View() == Run(old(View()), claims)
        invariant InOrder(old(View()), claims)
        invariant |flights| == |old(flights)| + |claims|
        decreases limit - |claims|
      {
        var next := NextDue();
        if next == None { return; }
        var e := next.value;
        ghost var before := View();
        rows := rows[e := Leased(rows[e], now)];
        flights := flights + [Copy(e, rows[e].attempts)];
        RunAppends(old(View()), claims, Claim(e));
        assert View() == Step(before, Claim(e));
        assert forall k :: 0 <= k < |claims| ==> (claims + [Claim(e)])[..k] == claims[..k];
        assert (claims + [Claim(e)])[..|claims|] == claims;
        claims := claims + [Claim(e)];
      }
    }

    /** Dispatches one copy; says whether the batch goes on. */
    method Dispatch(i: nat, load: Load, projected: bool, jitter: int -> int) returns (ok: bool)
      requires i < |flights| && flights[i].event < |rows|
      modifies this
      ensures View() ==
        Step(old(View()), Decision(old(rows)[old(flights)[i].event], old(flights)[i], i, load, projected, now, jitter))
      ensures flights == Without(old(flights), i) && now == old(now) && |rows| == |old(rows)|
      ensures forall e :: 0 <= e < |rows| && e != old(flights)[i].event ==> rows[e] == old(rows)[e]
      ensures var e := old(flights)[i].event; var row := old(rows)[e];
        Valid(old(View())) && !row.delivered && !row.parked ==>
          && Dispatched(row, old(flights)[i], load, projected, now, jitter, rows[e])
          && (ok <==> load != LoadFailed)
    {
      assert Valid(View()) ==> FlightFits(flights[i], rows) && Allowed(rows[flights[i].event]);
      var flight := flights[i];
      flights := Without(flights, i);
      if load == LoadFailed { return false; }
      if load == NotProjectable {
        ok := MarkDelivered(flight.event);
        return;
      }
      if !rows[flight.event].deletion && load.deleted {
        ok := MarkDelivered(flight.event);
        return;
      }
      if projected {
        ok := MarkDelivered(flight.event);
        return;
      }
      if flight.attempt >= ATTEMPT_LIMIT {
        ok := ParkEvent(flight.event);
        return;
      }
      ScheduleRetry(flight.event, now + RetryDelay(flight.attempt, jitter));
      ok := true;
    }

    /** Fails, changing nothing, when the constraint on terminal states would break. */
    method MarkDelivered(e: nat) returns (ok: bool)
      requires e < |rows|
      modifies this`rows
      ensures rows == old(rows)[e := MarkedDelivered(old(rows)[e])]
      ensures ok <==> rows[e].delivered
    {
      if rows[e].delivered { return true; }
      if !Allowed(rows[e].(delivered := true)) { return false; }
      rows := rows[e := rows[e].(delivered := true)];
      return true;
    }

    method ScheduleRetry(e: nat, at: int)
      requires e < |rows|
      modifies this`rows
      ensures rows == old(rows)[e := Rescheduled(old(rows)[e], at)]
    {
      if rows[e].delivered || rows[e].parked { return; }
      rows := rows[e := rows[e].(available := at)];
    }

    method ParkEvent(e: nat) returns (ok: bool)
      requires e < |rows|
      modifies this`rows
      ensures rows == old(rows)[e := Parked(old(rows)[e])]
      ensures ok <==> rows[e].delivered || rows[e].parked
    {
      if rows[e].delivered || rows[e].parked { return true; }
      if !Allowed(rows[e].(parked := true)) { return false; }
      rows := rows[e := rows[e].(parked := true)];
      return true;
    }
  }

  lemma {:induction false} RunAppends(st: State, actions: seq<Action>, a: Action)
    ensures Run(st, actions + [a]) == Step(Run(st, actions), a)
    decreases |actions|
  {
    if actions == [] {
      assert [a][1..] == [];
    } else {
      assert (actions + [a])[1..] == actions[1..] + [a];
      RunAppends(Step(st, actions[0]), actions[1..], a);
    }
  }
}
