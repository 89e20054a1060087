/**
 The delay between two delivery attempts: backoffFor in
 internal/server/notify/worker.go, in nanoseconds. Rounding of the 64-bit float is
 not modelled; truncation and integer wrap-around are.
 */
module Backoff {
  import opened Int64

  const SECOND := 1_000_000_000
  const BASE := 15 * SECOND
  const MAX_BACKOFF := 16 * 60 * SECOND

  function Pow2(e: nat): nat { if e == 0 then 1 else 2 * Pow2(e - 1) }

  /** Conversion of a float to an integer goes towards zero. */
  function Truncate(x: real): int { if x >= 0.0 then x.Floor else -((-x).Floor) }

  function Jittered(base: int, draw: real): real { base as real * (0.9 + 0.2 * draw) }

  /** `n` is the attempt being scheduled, `draw` a value of [0, 1). */
  function Delay(n: nat, draw: real): int
    requires n >= 2 && 0.0 <= draw < 1.0
  {
    var base := Wrap64(BASE * Wrap64(Pow2(n - 2)));
    var jittered := Truncate(Jittered(base, draw));
    if jittered < MAX_BACKOFF then jittered else MAX_BACKOFF
  }

  lemma {:induction false} Pow2Grows(a: nat, b: nat)
    requires a <= b
    ensures Pow2(a) <= Pow2(b)
  {
    if a < b { Pow2Grows(a, b - 1); }
  }

  lemma {:induction false} Pow2Sum(a: nat, b: nat)
    ensures Pow2(a + b) == Pow2(a) * Pow2(b)
  {
    if a > 0 { Pow2Sum(a - 1, b); }
  }

  lemma Pow2At29()
    ensures Pow2(29) == 0x2000_0000
  {
    assert Pow2(5) == 32;
    Pow2Sum(5, 5);
    Pow2Sum(10, 10);
    assert Pow2(4) == 16;
    Pow2Sum(5, 4);
    Pow2Sum(20, 9);
  }

  /** Up to attempt 31 nothing wraps around. */
  lemma BaseIsExact(n: nat)
    requires 2 <= n <= 31
    ensures Wrap64(BASE * Wrap64(Pow2(n - 2))) == BASE * Pow2(n - 2) >= BASE
  {
    Pow2Grows(0, n - 2);
    Pow2Grows(n - 2, 29);
    Pow2At29();
  }

  lemma Product(a: real, b: real)
    requires a >= 0.0 && b >= 0.0
    ensures a * b >= 0.0
  {
  }

  lemma JitterBounds(tenth: int, draw: real)
    requires tenth >= 0 && 0.0 <= draw < 1.0
    ensures (9 * tenth) as real <= Jittered(10 * tenth, draw) <= (11 * tenth) as real
  {
    var b := (10 * tenth) as real;
    Product(b, draw);
    Product(b, 1.0 - draw);
    assert b * (1.0 - draw) == b - b * draw;
    assert Jittered(10 * tenth, draw) == 0.9 * b + 0.2 * (b * draw);
  }

  const TENTH := 1_500_000_000

  lemma DelayOfBase(tenth: int, draw: real)
    requires tenth >= 0 && 0.0 <= draw < 1.0
    ensures 9 * tenth <= Truncate(Jittered(10 * tenth, draw)) <= 11 * tenth
  {
    JitterBounds(tenth, draw);
  }

  /** What truncation and the clamp leave of the jittered delay. */
  lemma DelayIs(n: nat, draw: real) returns (tenth: int)
    requires 2 <= n <= 31 && 0.0 <= draw < 1.0
    ensures tenth == TENTH * Pow2(n - 2) >= TENTH
    ensures Delay(n, draw) <= MAX_BACKOFF
    ensures Delay(n, draw) <= 11 * tenth
    ensures Delay(n, draw) < MAX_BACKOFF ==> Delay(n, draw) >= 9 * tenth
  {
    BaseIsExact(n);
    tenth := TENTH * Pow2(n - 2);
    var base := Wrap64(BASE * Wrap64(Pow2(n - 2)));
    assert base == 10 * tenth;
    DelayOfBase(tenth, draw);
    assert Delay(n, draw) == if Truncate(Jittered(base, draw)) < MAX_BACKOFF then Truncate(Jittered(base, draw)) else MAX_BACKOFF;
  }

  /** For every attempt that does not wrap around, and every draw, the delay lies
      between 13.5 seconds and 16 minutes. */
  lemma DelayBounds(n: nat, draw: real)
    requires 2 <= n <= 31 && 0.0 <= draw < 1.0
    ensures 13_500_000_000 <= Delay(n, draw) <= MAX_BACKOFF
  {
    var tenth := DelayIs(n, draw);
  }

  /** The jitter is nine to eleven tenths of the base, evenly by the draw. */
  lemma JitterIsLinear(base: int, draw: real)
    ensures Jittered(base, 0.0) == base as real * 0.9
    ensures Jittered(base, draw) - Jittered(base, 0.0) == base as real * 0.2 * draw
  {
    var b := base as real;
    assert b * (0.9 + 0.2 * draw) == b * 0.9 + b * 0.2 * draw;
  }

  lemma TruncateDropsFraction(x: real, limit: int)
    requires x >= 0.0
    ensures Truncate(x) as real <= x < (Truncate(x) + 1) as real
    ensures x >= limit as real <==> Truncate(x) >= limit
  {
  }

  /** Up to attempt 31 the base is 15 seconds doubled for every retry before; a jittered
      delay loses its fraction of a nanosecond, and one too long becomes the maximum. */
  lemma DelayIsDoubled(n: nat, draw: real)
    requires 2 <= n <= 31 && 0.0 <= draw < 1.0
    ensures var exact := Jittered(15_000_000_000 * Pow2(n - 2), draw);
      if exact >= (16 * 60 * SECOND) as real then Delay(n, draw) == 16 * 60 * SECOND
      else Delay(n, draw) as real <= exact < (Delay(n, draw) + 1) as real
  {
    var base := BASE * Pow2(n - 2);
    BaseIsExact(n);
    JitterBounds(TENTH * Pow2(n - 2), draw);
    assert base == 10 * (TENTH * Pow2(n - 2));
    TruncateDropsFraction(Jittered(base, draw), MAX_BACKOFF);
    ClampedIs(Jittered(base, draw), n, draw);
  }

  lemma ClampedIs(jittered: real, n: nat, draw: real)
    requires 2 <= n <= 31 && 0.0 <= draw < 1.0 && jittered == Jittered(Wrap64(BASE * Wrap64(Pow2(n - 2))), draw)
    ensures Delay(n, draw) == if Truncate(jittered) < MAX_BACKOFF then Truncate(jittered) else MAX_BACKOFF
  {
  }

  /** And it never decreases from one attempt to the next, whatever the two draws. */
  lemma DelayGrows(n: nat, draw: real, next: real)
    requires 2 <= n <= 30 && 0.0 <= draw < 1.0 && 0.0 <= next < 1.0
    ensures Delay(n, draw) <= Delay(n + 1, next)
  {
    var tenth := DelayIs(n, draw);
    var double := DelayIs(n + 1, next);
    DoublePow(n - 2);
    assert double == 2 * tenth;
  }

  lemma DoublePow(e: nat)
    ensures Pow2(e + 1) == 2 * Pow2(e)
  {
  }

  /** The delay before attempt 32 wraps around: it is negative for every draw. The
      limit of 16 attempts keeps clear of that hot retry loop. */
  lemma DelayWrapsAt32(draw: real)
    requires 0.0 <= draw < 1.0
    ensures Delay(32, draw) < 0
  {
    Pow2At29();
    assert Pow2(30) == 0x4000_0000;
    var base := Wrap64(BASE * Wrap64(Pow2(30)));
    assert base == -2340616713709551616;
    Product(-(base as real), 0.9 + 0.2 * draw);
  }

  ghost predicate InBounds(n: nat, draw: real)
    requires n >= 2 && 0.0 <= draw < 1.0
  {
    13_500_000_000 <= Delay(n, draw) <= MAX_BACKOFF
  }

  /** Every delay of a delivery that may be attempted `limit` times stays within the
      bounds, for every draw, exactly while the limit is at most 31. */
  lemma DelaysStayInBoundsIff(limit: nat)
    ensures (forall n, draw :: 2 <= n <= limit && 0.0 <= draw < 1.0 ==> InBounds(n, draw)) <==> limit <= 31
  {
    forall n, draw | 2 <= n <= 31 && 0.0 <= draw < 1.0 ensures InBounds(n, draw) { DelayBounds(n, draw); }
    DelayWrapsAt32(0.0);
    assert !InBounds(32, 0.0);
  }
}

/**
 The delivery outbox: rows of internal/store/notifications.go and the single sweeper
 of internal/server/notify/worker.go. Endpoint changes, enqueues, tests,
 redeliveries and retention may run between any two steps of a sweep.
 */
module Outbox {
  import opened Options
  import Backoff

  type EndpointId = string
  /** A clock reading, in unix seconds; 0 stands for NULL in the columns. */
  type Instant = t: int | t > 0 witness 1

  /** A value of the jitter source. */
  type Draw = r: real | 0.0 <= r < 1.0 witness 0.0

  const EVENT_TEST := "endpoint.test"
  const BATCH := 20

  datatype Status = Pending | Delivered | Failed

  /** Why an attempt failed; `Gone` is a 410. */
  datatype Failure = Blocked | Unreachable | Tls | Rejected | Gone | Internal

  datatype Row = Row(
    endpoint: EndpointId, event: string, eventId: int, payload: string,
    attempts: nat, next: Option<Instant>, status: Status, failure: Option<Failure>, createdAt: Instant)

  type Rows = map<nat, Row>

  /** `endpoints` maps an endpoint to its enabled flag. */
  datatype Store = Store(endpoints: map<EndpointId, bool>, rows: Rows, nextId: nat)

  // ---------------------------------------------------------------- statements

  function NewRow(e: EndpointId, event: string, eventId: int, payload: string, now: Instant): Row {
    Row(e, event, eventId, payload, 0, Some(now), Pending, None, now)
  }

  function Insert(s: Store, r: Row): Store {
    s.(rows := s.rows[s.nextId := r], nextId := s.nextId + 1)
  }

  /** A row of one enabled endpoint; the endpoint must exist when it is inserted. */
  function Enqueue(s: Store, e: EndpointId, event: string, eventId: int, payload: string, now: Instant): Store {
    if e in s.endpoints then Insert(s, NewRow(e, event, eventId, payload, now)) else s
  }

  predicate Enabled(s: Store, e: EndpointId) {
    e in s.endpoints && s.endpoints[e]
  }

  function InsertUserTest(s: Store, e: EndpointId, payload: string, now: Instant): Store {
    if Enabled(s, e) then Insert(s, NewRow(e, EVENT_TEST, 0, payload, now)) else s
  }

  predicate Redeliverable(s: Store, id: nat) {
    id in s.rows && !s.rows[id].status.Pending? && Enabled(s, s.rows[id].endpoint)
  }

  /** A fresh pending copy; the source row keeps its history. */
  function InsertRedelivery(s: Store, id: nat, now: Instant): Store {
    if Redeliverable(s, id)
    then var src := s.rows[id]; Insert(s, NewRow(src.endpoint, src.event, src.eventId, src.payload, now))
    else s
  }

  function Without(s: Store, doomed: set<nat>): Store { s.(rows := s.rows - doomed) }

  predicate Prunable(s: Store, id: nat, olderThan: int) {
    id in s.rows && s.rows[id].createdAt < olderThan && !s.rows[id].status.Pending?
  }

  function DeleteEndpoint(s: Store, e: EndpointId): Store {
    s.(endpoints := s.endpoints - {e}, rows := map id | id in s.rows && s.rows[id].endpoint != e :: s.rows[id])
  }

  /** DueForAttempt's WHERE and JOIN: not the status, but the scheduled time. */
  predicate Due(s: Store, id: nat, now: Instant) {
    id in s.rows && s.rows[id].next.Some? && s.rows[id].next.value <= now && Enabled(s, s.rows[id].endpoint)
  }

  /** The rows one sweep selects: due, distinct, oldest first, as many as fit. */
  ghost predicate IsSelection(s: Store, now: Instant, limit: nat, ids: seq<nat>) {
    && (forall id <- ids :: Due(s, id, now))
    && (forall i, j :: 0 <= i < j < |ids| ==> ids[i] != ids[j])
    && (forall i, j :: 0 <= i < j < |ids| && Due(s, ids[i], now) && Due(s, ids[j], now) ==>
          s.rows[ids[i]].next.value <= s.rows[ids[j]].next.value)
    && |ids| <= limit
    && (forall id :: Due(s, id, now) && id !in ids ==>
          |ids| == limit && forall i <- ids :: i in s.rows && s.rows[i].next.Some? ==> s.rows[i].next.value <= s.rows[id].next.value)
  }

  /** endpoint.test is a one-shot probe whatever is configured. */
  function Limit(maxAttempts: nat, event: string): nat {
    if event == EVENT_TEST then 1 else maxAttempts
  }

  /** What deliverOne writes for the row it selected; None is a delivery. */
  function AfterAttempt(maxAttempts: nat, row: Row, outcome: Option<Failure>, now: Instant, draw: Draw): Row
    requires 1 <= maxAttempts <= 16
  {
    var n := row.attempts + 1;
    if outcome.None? then row.(attempts := n, status := Delivered, next := None, failure := None)
    else if outcome.value.Gone? || n >= Limit(maxAttempts, row.event) then
      row.(attempts := n, status := Failed, next := None, failure := outcome)
    else
      Backoff.DelayBounds(n + 1, draw);
      row.(attempts := n, status := Pending, failure := outcome,
           next := Some(now + Backoff.Delay(n + 1, draw) / Backoff.SECOND))
  }

  /** The UPDATE: only the columns of an attempt, and only if the row still exists. */
  function UpdateAfterAttempt(s: Store, id: nat, to: Row): Store {
    if id !in s.rows then s
    else s.(rows := s.rows[id := s.rows[id].(attempts := to.attempts, status := to.status, next := to.next, failure := to.failure)])
  }

  /** An attempt: delivered exactly on success, failed exactly when the failure is a 410
      or used the last attempt, which for a test is the first; otherwise scheduled again.
      Nothing but the attempt's columns changes. */
  lemma AttemptOutcome(maxAttempts: nat, row: Row, outcome: Option<Failure>, now: Instant, draw: Draw)
    requires 1 <= maxAttempts <= 16
    ensures var after := AfterAttempt(maxAttempts, row, outcome, now, draw);
      var last := row.attempts + 1 >= if row.event == "endpoint.test" then 1 else maxAttempts;
      && (after.status.Delivered? <==> outcome.None?)
      && (after.status.Failed? <==> outcome.Some? && (outcome.value.Gone? || last))
      && (after.next.Some? <==> after.status.Pending?)
      && (after.next.Some? ==> after.next.value == now + Backoff.Delay(row.attempts + 2, draw) / Backoff.SECOND)
      && after.failure == outcome && after.attempts == row.attempts + 1
      && after.endpoint == row.endpoint && after.event == row.event && after.eventId == row.eventId
      && after.payload == row.payload && after.createdAt == row.createdAt
  {
  }

  /** What an event, a test and a redelivery insert: a pending row, due at once, with no
      attempt made, under the next id; or nothing. */
  lemma InsertOutcome(s: Store, e: EndpointId, event: string, eventId: int, payload: string, now: Instant, id: nat)
    ensures Enqueue(s, e, event, eventId, payload, now) ==
              if e in s.endpoints
              then s.(rows := s.rows[s.nextId := Row(e, event, eventId, payload, 0, Some(now), Pending, None, now)], nextId := s.nextId + 1)
              else s
    ensures InsertUserTest(s, e, payload, now) ==
              if e in s.endpoints && s.endpoints[e] then Enqueue(s, e, "endpoint.test", 0, payload, now) else s
    ensures InsertRedelivery(s, id, now) ==
              if id in s.rows && s.rows[id].status != Pending && s.rows[id].endpoint in s.endpoints && s.endpoints[s.rows[id].endpoint]
              then Enqueue(s, s.rows[id].endpoint, s.rows[id].event, s.rows[id].eventId, s.rows[id].payload, now)
              else s
  {
  }

  /** Switching an endpoint changes its flag; dropping it takes its rows with it. */
  lemma EndpointOutcome(maxAttempts: nat, y: System, e: EndpointId, enabled: bool)
    requires 1 <= maxAttempts <= 16
    ensures var z := Next(maxAttempts, y, SetEndpoint(e, enabled));
      z.store == y.store.(endpoints := y.store.endpoints[e := enabled]) && z.batch == y.batch
    ensures var s, t := y.store, Next(maxAttempts, y, DropEndpoint(e)).store;
      && (forall f :: f in t.endpoints <==> f in s.endpoints && f != e)
      && (forall f <- t.endpoints :: t.endpoints[f] == s.endpoints[f])
      && (forall id :: id in t.rows <==> id in s.rows && s.rows[id].endpoint != e)
      && (forall id <- t.rows :: t.rows[id] == s.rows[id])
      && t.nextId == s.nextId
  {
  }

  // ------------------------------------------------------------------- a sweep

  /** `batch` is what the sweep in progress has selected and not yet attempted, each
      with the row as it was read. */
  datatype System = System(store: Store, batch: seq<(nat, Row)>)

  datatype Step =
    | SetEndpoint(e: EndpointId, enabled: bool)
    | DropEndpoint(e: EndpointId)
    | Event(e: EndpointId, event: string, eventId: int, payload: string, now: Instant)
    | Test(e: EndpointId, payload: string, now: Instant)
    | Redeliver(id: nat, now: Instant)
    | Prune(doomed: set<nat>, olderThan: int)
    | Select(ids: seq<nat>, now: Instant)
    | Attempt(outcome: Option<Failure>, now: Instant, draw: Draw)
    | LoseWrite
    | Shutdown

  /** An attempt whose write-back fails leaves the row as selected, and so does one cut
      short by a shutdown. */
  ghost function Next(maxAttempts: nat, y: System, step: Step): System
    requires 1 <= maxAttempts <= 16
  {
    match step
    case SetEndpoint(e, enabled) => y.(store := y.store.(endpoints := y.store.endpoints[e := enabled]))
    case DropEndpoint(e) => y.(store := DeleteEndpoint(y.store, e))
    case Event(e, event, eventId, payload, now) => y.(store := Enqueue(y.store, e, event, eventId, payload, now))
    case Test(e, payload, now) => y.(store := InsertUserTest(y.store, e, payload, now))
    case Redeliver(id, now) => y.(store := InsertRedelivery(y.store, id, now))
    case Prune(doomed, olderThan) =>
      if forall id <- doomed :: Prunable(y.store, id, olderThan) then y.(store := Without(y.store, doomed)) else y
    case Select(ids, now) =>
      if y.batch == [] && IsSelection(y.store, now, BATCH, ids) && forall id <- ids :: id in y.store.rows
      then y.(batch := Read(y.store, ids)) else y
    case Attempt(outcome, now, draw) =>
      if y.batch == [] then y
      else System(UpdateAfterAttempt(y.store, y.batch[0].0, AfterAttempt(maxAttempts, y.batch[0].1, outcome, now, draw)), y.batch[1..])
    case LoseWrite => if y.batch == [] then y else y.(batch := y.batch[1..])
    case Shutdown => y.(batch := [])
  }

  function Read(s: Store, ids: seq<nat>): seq<(nat, Row)>
    requires forall id <- ids :: id in s.rows
  {
    seq(|ids|, i requires 0 <= i < |ids| => (ids[i], s.rows[ids[i]]))
  }

  ghost function Run(maxAttempts: nat, y: System, steps: seq<Step>): System
    requires 1 <= maxAttempts <= 16
  {
    if steps == [] then y else Next(maxAttempts, Run(maxAttempts, y, steps[..|steps| - 1]), steps[|steps| - 1])
  }

  // ---------------------------------------------------------------- invariants

  /** Pending exactly when an attempt is scheduled; never more attempts than the limit,
      and one left while pending. */
  ghost predicate RowSound(maxAttempts: nat, r: Row) {
    && (r.status.Pending? <==> r.next.Some?)
    && r.attempts <= Limit(maxAttempts, r.event)
    && (r.status.Pending? ==> r.attempts < Limit(maxAttempts, r.event))
  }

  ghost predicate StoreSound(maxAttempts: nat, s: Store) {
    forall id <- s.rows :: id < s.nextId && RowSound(maxAttempts, s.rows[id])
  }

  /** What the sweep read is still what the row says, until it is attempted. */
  ghost predicate BatchSound(y: System) {
    && (forall i :: 0 <= i < |y.batch| ==> y.batch[i].1.status.Pending? && y.batch[i].0 < y.store.nextId)
    && (forall i :: 0 <= i < |y.batch| && y.batch[i].0 in y.store.rows ==> y.store.rows[y.batch[i].0] == y.batch[i].1)
    && (forall i, j :: 0 <= i < j < |y.batch| ==> y.batch[i].0 != y.batch[j].0)
  }

  ghost predicate Sound(maxAttempts: nat, y: System) {
    && StoreSound(maxAttempts, y.store) && BatchSound(y)
    && forall i :: 0 <= i < |y.batch| ==> RowSound(maxAttempts, y.batch[i].1)
  }

  lemma AttemptKeepsRowSound(maxAttempts: nat, r: Row, outcome: Option<Failure>, now: Instant, draw: Draw)
    requires 1 <= maxAttempts <= 16 && RowSound(maxAttempts, r) && r.status.Pending?
    ensures RowSound(maxAttempts, AfterAttempt(maxAttempts, r, outcome, now, draw))
  {
  }

  lemma AttemptKeepsSound(maxAttempts: nat, y: System, outcome: Option<Failure>, now: Instant, draw: Draw)
    requires 1 <= maxAttempts <= 16 && Sound(maxAttempts, y)
    ensures Sound(maxAttempts, Next(maxAttempts, y, Attempt(outcome, now, draw)))
  {
    if y.batch != [] {
      AttemptKeepsRowSound(maxAttempts, y.batch[0].1, outcome, now, draw);
    }
  }

  lemma SelectKeepsSound(maxAttempts: nat, y: System, ids: seq<nat>, now: Instant)
    requires 1 <= maxAttempts <= 16 && Sound(maxAttempts, y)
    ensures Sound(maxAttempts, Next(maxAttempts, y, Select(ids, now)))
  {
    var z := Next(maxAttempts, y, Select(ids, now));
    if z != y {
      forall i | 0 <= i < |z.batch|
        ensures z.batch[i].0 in y.store.rows && z.batch[i].1 == y.store.rows[z.batch[i].0] && z.batch[i].1.status.Pending?
      {
        assert ids[i] in ids && Due(y.store, ids[i], now);
      }
    }
  }

  lemma StepKeepsSound(maxAttempts: nat, y: System, step: Step)
    requires 1 <= maxAttempts <= 16 && Sound(maxAttempts, y)
    ensures Sound(maxAttempts, Next(maxAttempts, y, step))
  {
    match step
    case Attempt(outcome, now, draw) => AttemptKeepsSound(maxAttempts, y, outcome, now, draw);
    case Select(ids, now) => SelectKeepsSound(maxAttempts, y, ids, now);
    case _ =>
  }

  // -------------------------------------------------------------- main results

  /** The outbox invariant, in every reachable state. */
  lemma {:induction false} OutboxStaysSound(maxAttempts: nat, y: System, steps: seq<Step>)
    requires 1 <= maxAttempts <= 16 && Sound(maxAttempts, y)
    ensures Sound(maxAttempts, Run(maxAttempts, y, steps))
  {
    if steps != [] {
      OutboxStaysSound(maxAttempts, y, steps[..|steps| - 1]);
      StepKeepsSound(maxAttempts, Run(maxAttempts, y, steps[..|steps| - 1]), steps[|steps| - 1]);
    }
  }

  /** A terminal row is never attempted and never altered; only retention and the
      deletion of its endpoint remove it. */
  lemma TerminalRowsRest(maxAttempts: nat, start: System, steps: seq<Step>, step: Step, id: nat)
    requires 1 <= maxAttempts <= 16 && Sound(maxAttempts, start)
    requires id in Run(maxAttempts, start, steps).store.rows && !Run(maxAttempts, start, steps).store.rows[id].status.Pending?
    ensures var y := Run(maxAttempts, start, steps); var z := Next(maxAttempts, y, step);
      && (forall i :: 0 <= i < |y.batch| ==> y.batch[i].0 != id)
      && (id in z.store.rows ==> z.store.rows[id] == y.store.rows[id])
      && (id !in z.store.rows ==> (step.Prune? && id in step.doomed) || (step.DropEndpoint? && step.e == y.store.rows[id].endpoint))
  {
    OutboxStaysSound(maxAttempts, start, steps);
  }

  /** A pending row changes only by its own attempt, which adds one to its count, and
      is removed only with its endpoint: retention never takes it. */
  lemma PendingRowsAreOwed(maxAttempts: nat, start: System, steps: seq<Step>, step: Step, id: nat)
    requires 1 <= maxAttempts <= 16 && Sound(maxAttempts, start)
    requires id in Run(maxAttempts, start, steps).store.rows && Run(maxAttempts, start, steps).store.rows[id].status.Pending?
    ensures var y := Run(maxAttempts, start, steps); var z := Next(maxAttempts, y, step);
      && (id !in z.store.rows ==> step.DropEndpoint? && step.e == y.store.rows[id].endpoint)
      && (id in z.store.rows && z.store.rows[id] != y.store.rows[id] ==>
            && step.Attempt? && y.batch != [] && y.batch[0].0 == id
            && z.store.rows[id] == AfterAttempt(maxAttempts, y.store.rows[id], step.outcome, step.now, step.draw)
            && z.store.rows[id].attempts == y.store.rows[id].attempts + 1)
  {
    OutboxStaysSound(maxAttempts, start, steps);
  }

  /** Over every run: a row that has come to be delivered had a successful attempt of its
      own, and one that has come to be failed an unsuccessful one. */
  lemma {:induction false} TerminalRowsWereAttempted(maxAttempts: nat, start: System, steps: seq<Step>, id: nat) returns (k: nat)
    requires 1 <= maxAttempts <= 16 && Sound(maxAttempts, start)
    requires id in Run(maxAttempts, start, steps).store.rows && !Run(maxAttempts, start, steps).store.rows[id].status.Pending?
    requires id in start.store.rows ==> start.store.rows[id].status != Run(maxAttempts, start, steps).store.rows[id].status
    ensures k < |steps| && steps[k].Attempt?
    ensures Run(maxAttempts, start, steps[..k]).batch != [] && Run(maxAttempts, start, steps[..k]).batch[0].0 == id
    ensures steps[k].outcome.None? <==> Run(maxAttempts, start, steps).store.rows[id].status.Delivered?
  {
    var n := |steps| - 1;
    if steps == [] { assert false; }
    var y, z := Run(maxAttempts, start, steps[..n]), Run(maxAttempts, start, steps);
    OutboxStaysSound(maxAttempts, start, steps[..n]);
    if id in y.store.rows && y.store.rows[id].status == z.store.rows[id].status {
      k := TerminalRowsWereAttempted(maxAttempts, start, steps[..n], id);
      assert steps[..n][..k] == steps[..k];
    } else {
      k := n;
      StatusNeedsAttempt(maxAttempts, y, steps[n], id);
    }
  }

  /** Only its own attempt makes a row terminal. */
  lemma StatusNeedsAttempt(maxAttempts: nat, y: System, step: Step, id: nat)
    requires 1 <= maxAttempts <= 16 && Sound(maxAttempts, y)
    requires var z := Next(maxAttempts, y, step);
      && id in z.store.rows && !z.store.rows[id].status.Pending?
      && (id in y.store.rows ==> y.store.rows[id].status != z.store.rows[id].status)
    ensures step.Attempt? && y.batch != [] && y.batch[0].0 == id
    ensures step.outcome.None? <==> Next(maxAttempts, y, step).store.rows[id].status.Delivered?
  {
  }

  /** What a sweep selects, of a sound store: pending rows whose time has come, of enabled
      endpoints, the longest due first; what it leaves is not due, or the batch is full
      of rows due no later. */
  lemma SelectionOutcome(maxAttempts: nat, s: Store, now: Instant, limit: nat, ids: seq<nat>)
    requires StoreSound(maxAttempts, s) && IsSelection(s, now, limit, ids)
    ensures |ids| <= limit && forall i :: 0 <= i < |ids| ==>
              && ids[i] in s.rows && s.rows[ids[i]].status == Pending && s.rows[ids[i]].next.Some?
              && s.rows[ids[i]].next.value <= now
              && s.rows[ids[i]].endpoint in s.endpoints && s.endpoints[s.rows[ids[i]].endpoint]
    ensures forall i, j :: 0 <= i < j < |ids| ==> ids[i] != ids[j] && s.rows[ids[i]].next.value <= s.rows[ids[j]].next.value
    ensures forall id :: id in s.rows && id !in ids && s.rows[id].status == Pending && s.rows[id].next.value <= now
                         && s.rows[id].endpoint in s.endpoints && s.endpoints[s.rows[id].endpoint] ==>
              |ids| == limit && forall i :: 0 <= i < |ids| ==> s.rows[ids[i]].next.value <= s.rows[id].next.value
  {
    assert forall i :: 0 <= i < |ids| ==> ids[i] in ids && Due(s, ids[i], now);
    forall id | id in s.rows && id !in ids && s.rows[id].status == Pending && s.rows[id].next.value <= now
                && s.rows[id].endpoint in s.endpoints && s.endpoints[s.rows[id].endpoint]
      ensures |ids| == limit && forall i :: 0 <= i < |ids| ==> s.rows[ids[i]].next.value <= s.rows[id].next.value
    {
      assert Due(s, id, now);
    }
  }

  /** A redelivery only adds a row: a pending copy of the source with no attempts made;
      and it is refused exactly for a pending source or a disabled endpoint. */
  lemma RedeliveryAddsACopy(maxAttempts: nat, s: Store, id: nat, now: Instant)
    requires StoreSound(maxAttempts, s)
    ensures var t := InsertRedelivery(s, id, now);
      && (forall k <- s.rows :: k in t.rows && t.rows[k] == s.rows[k])
      && t.rows.Keys - s.rows.Keys == (if Redeliverable(s, id) then {s.nextId} else {})
      && (Redeliverable(s, id) ==>
            t.rows[s.nextId] == s.rows[id].(attempts := 0, next := Some(now), status := Pending, failure := None, createdAt := now))
  {
    assert s.nextId !in s.rows;
  }

  /** A retry is scheduled at least 13 and at most 960 seconds ahead. */
  lemma RetriesAreSpaced(maxAttempts: nat, r: Row, outcome: Option<Failure>, now: Instant, draw: Draw)
    requires 1 <= maxAttempts <= 16
    ensures var after := AfterAttempt(maxAttempts, r, outcome, now, draw);
      after.next.Some? ==> now + 13 <= after.next.value <= now + 960
  {
    if r.attempts + 2 <= 31 { Backoff.DelayBounds(r.attempts + 2, draw); }
  }
}

/**
 The same operations on tables, in the form of the source: the sweep reads its batch
 first and then writes back one row at a time.
 */
module OutboxWorker {
  import opened Options
  import opened Outbox

  /** What happens around one attempt: its outcome, the clock when it is written back,
      whether the write is lost, or the process shuts down first. */
  datatype Attempted = Attempted(outcome: Option<Failure>, now: Instant, draw: Draw, lost: bool, stopped: bool)

  /** What a sweep leaves, from its i-th row on. */
  function Swept(maxAttempts: nat, s: Store, batch: seq<(nat, Row)>, world: nat -> Attempted, i: nat): Store
    requires 1 <= maxAttempts <= 16 && i <= |batch|
    decreases |batch| - i
  {
    if i == |batch| || world(i).stopped then s
    else
      var a := world(i);
      var after := if a.lost then s
                   else UpdateAfterAttempt(s, batch[i].0, AfterAttempt(maxAttempts, batch[i].1, a.outcome, a.now, a.draw));
      Swept(maxAttempts, after, batch, world, i + 1)
  }

  lemma {:induction false} RunFirst(maxAttempts: nat, y: System, step: Step, rest: seq<Step>)
    requires 1 <= maxAttempts <= 16
    ensures Run(maxAttempts, y, [step] + rest) == Run(maxAttempts, Next(maxAttempts, y, step), rest)
    decreases |rest|
  {
    if rest == [] {
      assert [step] + rest == [step] && [step][..0] == [];
      assert Run(maxAttempts, y, [step]) == Next(maxAttempts, Run(maxAttempts, y, []), step);
    } else {
      assert ([step] + rest)[..|rest|] == [step] + rest[..|rest| - 1];
      RunFirst(maxAttempts, y, step, rest[..|rest| - 1]);
    }
  }

  /** The attempts over a selected batch, from its i-th row on, are a run. */
  lemma {:induction false} AttemptsAreARun(maxAttempts: nat, s: Store, batch: seq<(nat, Row)>, world: nat -> Attempted, i: nat)
      returns (steps: seq<Step>)
    requires 1 <= maxAttempts <= 16 && i <= |batch|
    ensures Run(maxAttempts, System(s, batch[i..]), steps) == System(Swept(maxAttempts, s, batch, world, i), [])
    decreases |batch| - i
  {
    var y, a := System(s, batch[i..]), world(i);
    if i == |batch| {
      steps := [];
    } else if a.stopped {
      steps := [Shutdown] + [];
      RunFirst(maxAttempts, y, Shutdown, []);
    } else {
      var step := if a.lost then LoseWrite else Attempt(a.outcome, a.now, a.draw);
      var z := Next(maxAttempts, y, step);
      assert batch[i..][1..] == batch[i + 1..] && batch[i..][0] == batch[i];
      var rest := AttemptsAreARun(maxAttempts, z.store, batch, world, i + 1);
      steps := [step] + rest;
      RunFirst(maxAttempts, y, step, rest);
    }
  }

  /** A whole sweep, from its selection on, is a run of the outbox, so what holds over
      every run holds after it. */
  lemma SweepIsARun(maxAttempts: nat, s: Store, ids: seq<nat>, now: Instant, world: nat -> Attempted) returns (steps: seq<Step>)
    requires 1 <= maxAttempts <= 16 && IsSelection(s, now, BATCH, ids) && forall id <- ids :: id in s.rows
    ensures Run(maxAttempts, System(s, []), steps) == System(Swept(maxAttempts, s, Read(s, ids), world, 0), [])
  {
    var batch := Read(s, ids);
    var rest := AttemptsAreARun(maxAttempts, s, batch, world, 0);
    assert batch[0..] == batch;
    steps := [Select(ids, now)] + rest;
    assert Next(maxAttempts, System(s, []), Select(ids, now)) == System(s, batch);
    RunFirst(maxAttempts, System(s, []), Select(ids, now), rest);
  }

  class Worker {
    var endpoints: map<EndpointId, bool>
    var rows: Rows
    var nextId: nat
    const maxAttempts: nat

    ghost function State(): Store
      reads this
    {
      Store(endpoints, rows, nextId)
    }

    constructor (maxAttempts: nat)
      ensures State() == Store(map[], map[], 0) && this.maxAttempts == maxAttempts
    {
      endpoints, rows, nextId := map[], map[], 0;
      this.maxAttempts := maxAttempts;
    }

    method Insert(r: Row)
      modifies this`rows, this`nextId
      ensures State() == Outbox.Insert(old(State()), r)
    {
      rows, nextId := rows[nextId := r], nextId + 1;
    }

    /** Enqueuer.Enqueue: one row for every endpoint that is enabled now. */
    method Enqueue(event: string, eventId: int, payload: string, now: Instant) returns (ghost order: seq<EndpointId>)
      modifies this`rows, this`nextId
      ensures forall e :: e in order <==> Enabled(old(State()), e)
      ensures forall i, j :: 0 <= i < j < |order| ==> order[i] != order[j]
      ensures nextId == old(nextId) + |order|
      ensures forall id :: old(nextId) <= id < nextId ==>
                id in rows && rows[id] == NewRow(order[id - old(nextId)], event, eventId, payload, now)
      ensures forall id :: id < old(nextId) ==> (id in rows <==> id in old(rows)) && (id in rows ==> rows[id] == old(rows)[id])
    {
      var enabled := set e | e in endpoints && endpoints[e];
      order := [];
      while enabled != {}
        invariant forall e :: e in order || e in enabled <==> Enabled(State(), e)
        invariant forall e <- order :: e !in enabled
        invariant forall i, j :: 0 <= i < j < |order| ==> order[i] != order[j]
        invariant nextId == old(nextId) + |order|
        invariant forall id :: old(nextId) <= id < nextId ==>
                    id in rows && rows[id] == NewRow(order[id - old(nextId)], event, eventId, payload, now)
        invariant forall id :: id < old(nextId) ==> (id in rows <==> id in old(rows)) && (id in rows ==> rows[id] == old(rows)[id])
        decreases enabled
      {
        var e :| e in enabled;
        enabled := enabled - {e};
        Insert(NewRow(e, event, eventId, payload, now));
        order := order + [e];
      }
    }

    method InsertUserTest(e: EndpointId, payload: string, now: Instant) returns (ok: bool)
      modifies this`rows, this`nextId
      ensures State() == Outbox.InsertUserTest(old(State()), e, payload, now) && ok == Enabled(old(State()), e)
    {
      ok := e in endpoints && endpoints[e];
      if ok { Insert(NewRow(e, EVENT_TEST, 0, payload, now)); }
    }

    method InsertRedelivery(id: nat, now: Instant) returns (ok: bool)
      modifies this`rows, this`nextId
      ensures State() == Outbox.InsertRedelivery(old(State()), id, now) && ok == Redeliverable(old(State()), id)
    {
      ok := id in rows && !rows[id].status.Pending? && rows[id].endpoint in endpoints && endpoints[rows[id].endpoint];
      if ok { Insert(NewRow(rows[id].endpoint, rows[id].event, rows[id].eventId, rows[id].payload, now)); }
    }

    /** The rows retention may take. */
    ghost function Eligible(olderThan: int): set<nat>
      reads this
    {
      set id | id in rows && Prunable(State(), id, olderThan)
    }

    /** One batch of retention: any `batch` of the eligible rows, or all of them. */
    method Prune(olderThan: int, batch: nat) returns (n: nat)
      modifies this`rows
      ensures exists doomed ::
                && doomed <= old(Eligible(olderThan)) && |doomed| == n && State() == Without(old(State()), doomed)
      ensures n == if |old(Eligible(olderThan))| < batch then |old(Eligible(olderThan))| else batch
      ensures forall id :: id in old(Eligible(olderThan)) <==>
                id in old(rows) && old(rows)[id].status != Pending && old(rows)[id].createdAt < olderThan
    {
      var eligible := set id | id in rows && rows[id].createdAt < olderThan && !rows[id].status.Pending?;
      assert eligible == Eligible(olderThan);
      var doomed := Pick(eligible, batch);
      n := |doomed|;
      rows := rows - doomed;
      assert State() == Without(old(State()), doomed);
    }

    /** LIMIT without an order: some `limit` members, or all. */
    static method Pick(ids: set<nat>, limit: nat) returns (picked: set<nat>)
      ensures picked <= ids && |picked| == if |ids| < limit then |ids| else limit
    {
      var left := ids;
      picked := {};
      while |picked| < limit && left != {}
        invariant picked <= ids && left == ids - picked && |picked| <= limit && |picked| + |left| == |ids|
        decreases left
      {
        var id :| id in left;
        picked, left := picked + {id}, left - {id};
      }
    }

    /** ORDER BY next_attempt_at LIMIT n over the due rows of enabled endpoints. */
    method DueForAttempt(now: Instant, limit: nat) returns (ids: seq<nat>)
      ensures IsSelection(State(), now, limit, ids)
    {
      ids := [];
      var left := set id | id in rows && rows[id].next.Some? && rows[id].next.value <= now
                             && rows[id].endpoint in endpoints && endpoints[rows[id].endpoint];
      while |ids| < limit && left != {}
        invariant |ids| <= limit && forall id :: Due(State(), id, now) <==> id in ids || id in left
        invariant forall id <- ids :: id !in left && id in rows && rows[id].next.Some?
        invariant forall i, j :: 0 <= i < j < |ids| ==> ids[i] != ids[j] && rows[ids[i]].next.value <= rows[ids[j]].next.value
        invariant forall i, id :: i in ids && id in left ==> rows[i].next.value <= rows[id].next.value
        decreases left
      {
        var first := Oldest(left);
        ids, left := ids + [first], left - {first};
      }
    }

    method Oldest(ids: set<nat>) returns (first: nat)
      requires ids != {} && forall id <- ids :: id in rows && rows[id].next.Some?
      ensures first in ids && forall id <- ids :: rows[first].next.value <= rows[id].next.value
    {
      first :| first in ids;
      var rest := ids - {first};
      while rest != {}
        invariant rest <= ids && first in ids
        invariant forall id <- ids :: id in rest || rows[first].next.value <= rows[id].next.value
        decreases rest
      {
        var id :| id in rest;
        rest := rest - {id};
        if rows[id].next.value < rows[first].next.value { first := id; }
      }
    }

    /** deliverOne, after the attempt. */
    method DeliverOne(id: nat, row: Row, a: Attempted)
      requires 1 <= maxAttempts <= 16
      modifies this`rows
      ensures State() == if a.lost then old(State())
                         else UpdateAfterAttempt(old(State()), id, AfterAttempt(maxAttempts, row, a.outcome, a.now, a.draw))
    {
      var limit := if row.event == EVENT_TEST then 1 else maxAttempts;
      var attempts := row.attempts + 1;
      var status, next, failure := Pending, None, a.outcome;
      if a.outcome.None? {
        status := Delivered;
      } else if a.outcome.value.Gone? || attempts >= limit {
        status := Failed;
      } else {
        next := AfterAttempt(maxAttempts, row, a.outcome, a.now, a.draw).next;
      }
      if !a.lost && id in rows {
        rows := rows[id := rows[id].(attempts := attempts, status := status, next := next, failure := failure)];
      }
    }

    method Sweep(now: Instant, world: nat -> Attempted) returns (batch: seq<(nat, Row)>)
      requires 1 <= maxAttempts <= 16
      modifies this`rows
      ensures exists ids :: IsSelection(old(State()), now, BATCH, ids) && (forall id <- ids :: id in old(rows)) && batch == Read(old(State()), ids)
      ensures State() == Swept(maxAttempts, old(State()), batch, world, 0) && |batch| <= 20
    {
      var ids := DueForAttempt(now, BATCH);
      assert forall id <- ids :: Due(State(), id, now);
      batch := seq(|ids|, i requires 0 <= i < |ids| && ids[i] in rows reads this => (ids[i], rows[ids[i]]));
      assert batch == Read(State(), ids);
      for i := 0 to |batch|
        invariant Swept(maxAttempts, State(), batch, world, i) == Swept(maxAttempts, old(State()), batch, world, 0)
      {
        if world(i).stopped { return; }
        DeliverOne(batch[i].0, batch[i].1, world(i));
      }
    }
  }
}
