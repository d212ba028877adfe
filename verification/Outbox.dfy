/** The event outbox: its rows, its consumer receipts, and what each repository call does to
    them. Events are claimed under a lease, settled by the worker that holds them, retried with
    exponential backoff, and recovered by an administrator. */
module Outbox {
  import opened Common

  type EventId = nat
  type Worker = string

  datatype Status = Pending | Processing | Published | Failed

  datatype Row = Row(
    name: string,
    payload: string,
    status: Status,
    availableAt: Time,
    attempts: nat,
    lockedAt: Option<Time>,
    lockedBy: Option<Worker>,
    publishedAt: Option<Time>,
    retryCount: nat,
    lastError: Option<string>)

  datatype Receipt = Receipt(event: EventId, consumer: string, at: Time)

  datatype State = State(rows: map<EventId, Row>, receipts: seq<Receipt>)

  const EMPTY := State(map[], [])

  /** The arguments of a claim. `rowLocks` are the rows other transactions hold locked at that
      moment, which SKIP LOCKED passes over. */
  datatype Query = Query(names: set<string>, now: Time, lease: Time, limit: nat, rowLocks: set<EventId>)

  datatype ClaimedEvent = ClaimedEvent(id: EventId, name: string, payload: string, attempts: nat, recovered: bool)

  datatype Op =
    | Publish(id: EventId, name: string, payload: string, availableAt: Time)
    | Claim(query: Query, worker: Worker)
    | MarkProcessed(id: EventId, worker: Worker, now: Time, consumer: string)
    | Release(id: EventId, worker: Worker, now: Time)
    | MarkFailed(id: EventId, worker: Worker, now: Time, error: string, maxAttempts: int, retryBase: int)
    | Recover(id: EventId, now: Time, lease: Time)

  // ---------- Claiming ----------

  predicate Stale(row: Row, now: Time, lease: Time) {
    row.status == Processing && row.lockedAt.Some? && row.lockedAt.value <= now - lease
  }

  predicate Eligible(row: Row, now: Time, lease: Time) {
    (row.status == Pending && row.availableAt <= now) || Stale(row, now, lease)
  }

  function Candidates(rows: map<EventId, Row>, q: Query): set<EventId> {
    set id | id in rows && id !in q.rowLocks && rows[id].name in q.names && Eligible(rows[id], q.now, q.lease)
  }

  /** ORDER BY available_at, id. */
  function Rank(rows: map<EventId, Row>): EventId -> Time {
    id => if id in rows then rows[id].availableAt else 0
  }

  predicate Before(rows: map<EventId, Row>, a: EventId, b: EventId)
    requires a in rows && b in rows
  {
    rows[a].availableAt < rows[b].availableAt || (rows[a].availableAt == rows[b].availableAt && a < b)
  }

  function First(rows: map<EventId, Row>, ids: set<EventId>): (m: EventId)
    requires ids != {} && ids <= rows.Keys
    ensures m in ids && forall x | x in ids && x != m :: Before(rows, m, x)
  {
    var m := Earliest(Rank(rows), ids);
    assert forall x | x in ids && x != m :: Precedes(Rank(rows), m, x);
    m
  }

  /** The first `limit` of `ids` in claim order. */
  function Selection(rows: map<EventId, Row>, ids: set<EventId>, limit: nat): (picked: seq<EventId>)
    requires ids <= rows.Keys
    ensures forall id | id in picked :: id in ids
  {
    if limit == 0 || ids == {} then []
    else
      var m := First(rows, ids);
      [m] + Selection(rows, ids - {m}, limit - 1)
  }

  function Picked(rows: map<EventId, Row>, q: Query): (picked: seq<EventId>)
    ensures forall id | id in picked :: id in Candidates(rows, q)
  {
    Selection(rows, Candidates(rows, q), q.limit)
  }

  function ClaimRow(row: Row, worker: Worker, now: Time): Row {
    row.(status := Processing, attempts := row.attempts + 1, lockedAt := Some(now), lockedBy := Some(worker))
  }

  ghost function ClaimAll(rows: map<EventId, Row>, picked: seq<EventId>, worker: Worker, now: Time): map<EventId, Row> {
    map id | id in rows :: if id in picked then ClaimRow(rows[id], worker, now) else rows[id]
  }

  /** What the worker is handed for each claimed row, in claim order. */
  ghost function Claims(rows: map<EventId, Row>, picked: seq<EventId>): seq<ClaimedEvent>
    requires forall id | id in picked :: id in rows
  {
    seq(|picked|, i requires 0 <= i < |picked| =>
      var row := rows[picked[i]];
      ClaimedEvent(picked[i], row.name, row.payload, row.attempts + 1, row.status == Processing))
  }

  // ---------- Settling and recovering ----------

  /** The row is in progress under this worker's name. Nothing else is checked. */
  predicate Holds(rows: map<EventId, Row>, id: EventId, worker: Worker) {
    id in rows && rows[id].status == Processing && rows[id].lockedBy == Some(worker)
  }

  predicate Recoverable(rows: map<EventId, Row>, id: EventId, now: Time, lease: Time) {
    id in rows && (rows[id].status == Failed || Stale(rows[id], now, lease))
  }

  function Unlocked(row: Row, status: Status): Row {
    row.(status := status, lockedAt := None, lockedBy := None)
  }

  function Pow2(n: nat): (p: nat)
    ensures p >= 1
  {
    if n == 0 then 1 else 2 * Pow2(n - 1)
  }

  function RetryDelay(base: int, attempts: nat): Time {
    SECOND * (base * Pow2(if attempts == 0 then 0 else attempts - 1))
  }

  predicate HasReceipt(receipts: seq<Receipt>, id: EventId, consumer: string) {
    exists r | r in receipts :: r.event == id && r.consumer == consumer
  }

  /** INSERT ... ON CONFLICT (event_id, consumer_name) DO NOTHING. */
  function AddReceipt(receipts: seq<Receipt>, r: Receipt): seq<Receipt> {
    if HasReceipt(receipts, r.event, r.consumer) then receipts else receipts + [r]
  }

  // ---------- One call ----------

  predicate Accepted(s: State, op: Op) {
    match op
    case Publish(id, _, _, _) => id !in s.rows
    case Claim(_, _) => true
    case MarkProcessed(id, worker, _, _) => Holds(s.rows, id, worker)
    case Release(id, worker, _) => Holds(s.rows, id, worker)
    case MarkFailed(id, worker, _, _, _, _) => Holds(s.rows, id, worker)
    case Recover(id, now, lease) => Recoverable(s.rows, id, now, lease)
  }

  ghost function Step(s: State, op: Op): State {
    if !Accepted(s, op) then s
    else
      match op
      case Publish(id, name, payload, availableAt) =>
        s.(rows := s.rows[id := Row(name, payload, Pending, availableAt, 0, None, None, None, 0, None)])
      case Claim(q, worker) =>
        s.(rows := ClaimAll(s.rows, Picked(s.rows, q), worker, q.now))
      case MarkProcessed(id, _, now, consumer) =>
        State(s.rows[id := Unlocked(s.rows[id], Published).(publishedAt := Some(now), lastError := None)],
              AddReceipt(s.receipts, Receipt(id, consumer, now)))
      case Release(id, _, now) =>
        s.(rows := s.rows[id := Unlocked(s.rows[id], Pending).(availableAt := now)])
      case MarkFailed(id, _, now, error, maxAttempts, retryBase) =>
        var row := s.rows[id];
        s.(rows := s.rows[id :=
          Unlocked(row, if row.attempts >= maxAttempts then Failed else Pending).(
            retryCount := row.attempts,
            availableAt := now + RetryDelay(retryBase, row.attempts),
            lastError := Some(error))])
      case Recover(id, now, _) =>
        s.(rows := s.rows[id := Unlocked(s.rows[id], Pending).(availableAt := now)])
  }

  type Run = History<State, Op>

  ghost function After(h: Run): State {
    match h
    case Start(s) => s
    case Then(past, op) => Step(After(past), op)
  }

  // ---------- What a call did to one event ----------

  datatype Outcome =
    | Untouched | Born
    | FreshClaim | StaleReclaim
    | Processed | Released | Retried | Exhausted
    | RecoveredFailed | RecoveredStale

  ghost function OutcomeOf(s: State, op: Op, e: EventId): Outcome {
    if op.Claim? then
      if e !in Picked(s.rows, op.query) then Untouched
      else if s.rows[e].status == Processing then StaleReclaim else FreshClaim
    else if op.id != e || !Accepted(s, op) then Untouched
    else if op.Publish? then Born
    else if op.MarkProcessed? then Processed
    else if op.Release? then Released
    else if op.MarkFailed? then (if s.rows[e].attempts >= op.maxAttempts then Exhausted else Retried)
    else if s.rows[e].status == Failed then RecoveredFailed else RecoveredStale
  }

  /** How many calls of the run had one of these outcomes for the event. */
  ghost function Tally(h: Run, e: EventId, kinds: set<Outcome>): nat {
    match h
    case Start(_) => 0
    case Then(past, op) => Tally(past, e, kinds) + if OutcomeOf(After(past), op, e) in kinds then 1 else 0
  }

  function NowOf(op: Op): Option<Time> {
    match op
    case Publish(_, _, _, _) => None
    case Claim(q, _) => Some(q.now)
    case MarkProcessed(_, _, now, _) => Some(now)
    case Release(_, _, now) => Some(now)
    case MarkFailed(_, _, now, _, _, _) => Some(now)
    case Recover(_, now, _) => Some(now)
  }

  /** The latest clock reading passed to a call of the run. */
  ghost function Clock(h: Run): Option<Time> {
    LastReading(h, NowOf)
  }

  /** The callers' clock never goes back. */
  ghost predicate Timed(h: Run) {
    NeverBack(h, NowOf, NowOf)
  }
}
