/** What each outbox call does, told by the columns of the rows it finds and leaves. */
module OutboxEffects {
  import opened Common
  import opened Outbox
  import opened OutboxSafety

  // ---------- Claiming ----------

  /** The event has a name asked for and is not locked by another transaction; it is pending and
      due, or in progress under a lease that has run out. */
  ghost predicate Claimable(rows: map<EventId, Row>, q: Query, e: EventId) {
    && e in rows && rows[e].name in q.names && e !in q.rowLocks
    && ((rows[e].status == Pending && rows[e].availableAt <= q.now)
        || (rows[e].status == Processing && rows[e].lockedAt.Some? && rows[e].lockedAt.value + q.lease <= q.now))
  }

  /** The claimable events that were available before this one, or at once with it under a smaller
      identifier. */
  ghost function Preferred(rows: map<EventId, Row>, q: Query, e: EventId): set<EventId>
    requires e in rows
  {
    set x | x in rows && Claimable(rows, q, x)
      && (rows[x].availableAt < rows[e].availableAt || (rows[x].availableAt == rows[e].availableAt && x < e))
  }

  /** An event is taken exactly if it is claimable and fewer than `limit` are preferred to it. */
  ghost predicate Taken(rows: map<EventId, Row>, q: Query, e: EventId) {
    Claimable(rows, q, e) && |Preferred(rows, q, e)| < q.limit
  }

  ghost function Earlier(rows: map<EventId, Row>, ids: set<EventId>, e: EventId): set<EventId>
    requires ids <= rows.Keys && e in rows
  {
    set x | x in ids && Before(rows, x, e)
  }

  lemma {:induction false} SelectedExactlyIf(rows: map<EventId, Row>, ids: set<EventId>, limit: nat, e: EventId)
    requires ids <= rows.Keys && e in ids
    ensures e in Selection(rows, ids, limit) <==> |Earlier(rows, ids, e)| < limit
    decreases limit
  {
    if limit != 0 {
      var m := First(rows, ids);
      var rest := ids - {m};
      assert Selection(rows, ids, limit) == [m] + Selection(rows, rest, limit - 1);
      if e == m {
        assert Earlier(rows, ids, e) == {};
      } else {
        SelectedExactlyIf(rows, rest, limit - 1, e);
        assert Earlier(rows, ids, e) == {m} + Earlier(rows, rest, e);
      }
    }
  }

  lemma CandidatesAreClaimable(rows: map<EventId, Row>, q: Query, e: EventId)
    ensures e in Candidates(rows, q) <==> Claimable(rows, q, e)
  {
  }

  lemma ClaimTakesExactly(s: State, q: Query, e: EventId)
    ensures e in Picked(s.rows, q) <==> Taken(s.rows, q, e)
  {
    var ids := Candidates(s.rows, q);
    CandidatesAreClaimable(s.rows, q, e);
    if e in ids {
      forall x ensures x in Earlier(s.rows, ids, e) <==> x in Preferred(s.rows, q, e) {
        CandidatesAreClaimable(s.rows, q, x);
      }
      assert Earlier(s.rows, ids, e) == Preferred(s.rows, q, e);
      SelectedExactlyIf(s.rows, ids, q.limit, e);
    }
  }

  /** A claim puts the taken events in progress under the worker and leaves the others alone. */
  lemma ClaimDoes(s: State, q: Query, worker: Worker, e: EventId)
    ensures var s' := Step(s, Claim(q, worker));
      && s'.receipts == s.receipts && s'.rows.Keys == s.rows.Keys
      && (e in s.rows ==>
          var r := s.rows[e];
          s'.rows[e] == if Taken(s.rows, q, e)
            then Row(r.name, r.payload, Processing, r.availableAt, r.attempts + 1, Some(q.now), Some(worker),
                     r.publishedAt, r.retryCount, r.lastError)
            else r)
  {
    ClaimTakesExactly(s, q, e);
  }

  // ---------- Settling and recovering ----------

  /** In progress, and locked by this worker. */
  ghost predicate LockedBy(s: State, id: EventId, worker: Worker) {
    id in s.rows && s.rows[id].status == Processing && s.rows[id].lockedBy == Some(worker)
  }

  /** In any run, completing an event the worker has locked publishes it and adds its receipt; any
      other attempt changes nothing. */
  lemma CompletionDoes(h: Run, op: Op)
    requires FromEmpty(h) && op.MarkProcessed?
    ensures var s, s' := After(h), After(Then(h, op));
      if LockedBy(s, op.id, op.worker) then
        var r := s.rows[op.id];
        && s'.rows == s.rows[op.id := Row(r.name, r.payload, Published, r.availableAt, r.attempts, None, None,
                                          Some(op.now), r.retryCount, None)]
        && s'.receipts == s.receipts + [Receipt(op.id, op.consumer, op.now)]
      else s' == s
  {
    if LockedBy(After(h), op.id, op.worker) {
      CompletedExactlyOnce(h, op.id);
      NoReceiptFound(After(h).receipts, op.id, op.consumer);
    }
  }

  lemma ReleaseDoes(s: State, op: Op)
    requires op.Release?
    ensures
      if LockedBy(s, op.id, op.worker) then
        var r := s.rows[op.id];
        Step(s, op) == State(s.rows[op.id := Row(r.name, r.payload, Pending, op.now, r.attempts, None, None,
                                                 r.publishedAt, r.retryCount, r.lastError)], s.receipts)
      else Step(s, op) == s
  {
  }

  /** A reported failure is terminal exactly if the attempts have reached the maximum; either way
      the row waits for its delay from now. */
  lemma FailureDoes(s: State, op: Op)
    requires op.MarkFailed?
    ensures
      if LockedBy(s, op.id, op.worker) then
        var r := s.rows[op.id];
        Step(s, op) == State(s.rows[op.id := Row(r.name, r.payload,
          if r.attempts < op.maxAttempts then Pending else Failed,
          op.now + RetryDelay(op.retryBase, r.attempts), r.attempts, None, None,
          r.publishedAt, r.attempts, Some(op.error))], s.receipts)
      else Step(s, op) == s
  {
  }

  /** The delay is the base in seconds after the first attempt, and doubles with each. */
  lemma DelayDoubles(base: int, attempts: nat)
    ensures RetryDelay(base, 1) == 1_000_000 * base
    ensures attempts >= 1 ==> RetryDelay(base, attempts + 1) == 2 * RetryDelay(base, attempts)
  {
    if attempts >= 1 {
      var p := Pow2(attempts - 1);
      assert Pow2(attempts) == 2 * p;
      assert base * (2 * p) == 2 * (base * p);
    }
  }

  /** In any run, the wait after a failure is the delay for the number of claims made so far. */
  lemma BackoffIsExact(h: Run, op: Op)
    requires FromEmpty(h) && op.MarkFailed? && LockedBy(After(h), op.id, op.worker)
    ensures var row := After(Then(h, op)).rows[op.id];
      && row.availableAt == op.now + RetryDelay(op.retryBase, Tally(h, op.id, CLAIMS))
      && row.retryCount == Tally(h, op.id, CLAIMS)
      && (row.status == Failed <==> Tally(h, op.id, CLAIMS) >= op.maxAttempts)
  {
    AttemptsAreAccountedFor(h, op.id);
    FailureDoes(After(h), op);
  }

  lemma RecoveryDoes(s: State, op: Op)
    requires op.Recover?
    ensures
      if op.id in s.rows
        && (s.rows[op.id].status == Failed
            || (s.rows[op.id].status == Processing && s.rows[op.id].lockedAt.Some?
                && s.rows[op.id].lockedAt.value + op.lease <= op.now)) then
        var r := s.rows[op.id];
        Step(s, op) == State(s.rows[op.id := Row(r.name, r.payload, Pending, op.now, r.attempts, None, None,
                                                 r.publishedAt, r.retryCount, r.lastError)], s.receipts)
      else Step(s, op) == s
  {
  }

  lemma PublicationDoes(s: State, op: Op)
    requires op.Publish?
    ensures
      if op.id in s.rows then Step(s, op) == s
      else
        Step(s, op) == State(s.rows[op.id := Row(op.name, op.payload, Pending, op.availableAt, 0, None, None,
                                                 None, 0, None)], s.receipts)
  {
  }

  /** A row keeps its name and payload in every run, and its attempts never fall. */
  lemma {:induction false} NameAndPayloadStay(g: Run, h: Run, e: EventId)
    requires Extends(h, g) && e in After(g).rows
    ensures e in After(h).rows
    ensures var was, now := After(g).rows[e], After(h).rows[e];
      now.name == was.name && now.payload == was.payload && now.attempts >= was.attempts
    decreases h
  {
    if h != g { NameAndPayloadStay(g, h.past, e); }
  }
}
