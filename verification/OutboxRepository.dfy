/** The repository object: each method works on its rows in place, and is one Step. */
module OutboxRepository {
  import opened Common
  import opened Outbox
  import opened OutboxEffects

  lemma {:induction false} SelectionHasNoDuplicates(rows: map<EventId, Row>, ids: set<EventId>, limit: nat)
    requires ids <= rows.Keys
    ensures var picked := Selection(rows, ids, limit);
      && |picked| <= limit
      && (forall i, j | 0 <= i < j < |picked| :: picked[i] != picked[j] && Before(rows, picked[i], picked[j]))
    decreases limit
  {
    if limit != 0 && ids != {} {
      var m := First(rows, ids);
      SelectionHasNoDuplicates(rows, ids - {m}, limit - 1);
    }
  }

  /** A claim hands out at most `limit` eligible events, earliest first, and leaves none out
      that comes before one it hands out; it leaves one out at all only if it is full. */
  lemma {:induction false} SelectionIsTheEarliest(rows: map<EventId, Row>, ids: set<EventId>, limit: nat)
    requires ids <= rows.Keys
    ensures var picked := Selection(rows, ids, limit);
      && (forall x | x in ids && x !in picked ::
            |picked| == limit && forall i | 0 <= i < |picked| :: Before(rows, picked[i], x))
    decreases limit
  {
    if limit != 0 && ids != {} {
      var m := First(rows, ids);
      SelectionIsTheEarliest(rows, ids - {m}, limit - 1);
    }
  }

  lemma ClaimOneMore(rows: map<EventId, Row>, done: seq<EventId>, id: EventId, worker: Worker, now: Time)
    requires id in rows && id !in done && forall x | x in done :: x in rows
    ensures ClaimAll(rows, done, worker, now)[id] == rows[id]
    ensures ClaimAll(rows, done, worker, now)[id := ClaimRow(rows[id], worker, now)]
      == ClaimAll(rows, done + [id], worker, now)
    ensures var row := rows[id];
      Claims(rows, done) + [ClaimedEvent(id, row.name, row.payload, row.attempts + 1, row.status == Processing)]
      == Claims(rows, done + [id])
  {
  }

  /** The claim tells what was in the row, the attempt it is, and whether it was taken over. */
  ghost predicate Tells(c: ClaimedEvent, row: Row) {
    && c.name == row.name && c.payload == row.payload
    && c.attempts == row.attempts + 1
    && (c.recovered <==> row.status == Processing)
  }

  lemma ClaimsAreTaken(s: State, q: Query, claims: seq<ClaimedEvent>)
    requires claims == Claims(s.rows, Picked(s.rows, q))
    ensures forall c | c in claims :: Taken(s.rows, q, c.id) && Tells(c, s.rows[c.id])
    ensures forall e | e in s.rows && Taken(s.rows, q, e) :: exists c :: c in claims && c.id == e
  {
    var picked := Picked(s.rows, q);
    forall c | c in claims ensures Taken(s.rows, q, c.id) && Tells(c, s.rows[c.id]) {
      var i :| 0 <= i < |claims| && claims[i] == c;
      assert picked[i] in picked;
      ClaimTakesExactly(s, q, picked[i]);
    }
    forall e | e in s.rows && Taken(s.rows, q, e) ensures exists c :: c in claims && c.id == e {
      ClaimTakesExactly(s, q, e);
      var i :| 0 <= i < |picked| && picked[i] == e;
      assert claims[i] in claims;
    }
  }

  class Repository {
    var rows: map<EventId, Row>
    var receipts: seq<Receipt>
    const consumerName: string

    constructor (consumerName: string)
      ensures Store() == EMPTY && this.consumerName == consumerName
    {
      this.consumerName := consumerName;
      rows, receipts := map[], [];
    }

    ghost function Store(): State
      reads this
    {
      State(rows, receipts)
    }

    method Publish(id: EventId, name: string, payload: string, availableAt: Time) returns (added: bool)
      modifies this
      ensures added == Accepted(old(Store()), Op.Publish(id, name, payload, availableAt))
      ensures Store() == Step(old(Store()), Op.Publish(id, name, payload, availableAt))
    {
      added := id !in rows;
      if added {
        rows := rows[id := Row(name, payload, Pending, availableAt, 0, None, None, None, 0, None)];
      }
    }

    method Claim(q: Query, worker: Worker) returns (claims: seq<ClaimedEvent>)
      modifies this
      ensures Store() == Step(old(Store()), Op.Claim(q, worker))
      ensures claims == Claims(old(rows), Picked(old(rows), q))
      ensures forall c | c in claims :: Taken(old(rows), q, c.id) && Tells(c, old(rows)[c.id])
      ensures forall e | e in old(rows) && Taken(old(rows), q, e) :: exists c :: c in claims && c.id == e
      ensures forall e | e in old(rows) && !Taken(old(rows), q, e) :: e in rows && rows[e] == old(rows)[e]
      ensures forall c | c in claims :: c.id in rows && c.attempts == rows[c.id].attempts
    {
      ghost var before := Store();
      SelectionHasNoDuplicates(rows, Candidates(rows, q), q.limit);
      claims := Lock(Picked(rows, q), worker, q.now);
      ClaimsAreTaken(before, q, claims);
      forall e ensures e in Picked(before.rows, q) <==> Taken(before.rows, q, e) { ClaimTakesExactly(before, q, e); }
    }

    /** The loop over the selected rows. */
    method Lock(picked: seq<EventId>, worker: Worker, now: Time) returns (claims: seq<ClaimedEvent>)
      requires forall id | id in picked :: id in rows
      requires forall i, j | 0 <= i < j < |picked| :: picked[i] != picked[j]
      modifies this`rows
      ensures rows == ClaimAll(old(rows), picked, worker, now)
      ensures claims == Claims(old(rows), picked)
    {
      ghost var before := rows;
      claims := [];
      assert rows == ClaimAll(before, picked[..0], worker, now);
      for i := 0 to |picked|
        invariant rows == ClaimAll(before, picked[..i], worker, now)
        invariant claims == Claims(before, picked[..i])
      {
        var id := picked[i];
        assert picked[..i + 1] == picked[..i] + [id];
        ClaimOneMore(before, picked[..i], id, worker, now);
        var row := rows[id];
        var recovered := row.status == Processing;
        row := row.(status := Processing, attempts := row.attempts + 1);
        row := row.(lockedAt := Some(now), lockedBy := Some(worker));
        rows := rows[id := row];
        claims := claims + [ClaimedEvent(id, row.name, row.payload, row.attempts, recovered)];
      }
      assert picked[..|picked|] == picked;
    }

    method MarkProcessed(id: EventId, worker: Worker, now: Time) returns (done: bool)
      modifies this
      ensures done == Accepted(old(Store()), Op.MarkProcessed(id, worker, now, consumerName))
      ensures Store() == Step(old(Store()), Op.MarkProcessed(id, worker, now, consumerName))
    {
      done := Holds(rows, id, worker);
      if !done { return; }
      receipts := AddReceipt(receipts, Receipt(id, consumerName, now));
      var row := rows[id];
      row := row.(status := Published, publishedAt := Some(now));
      row := row.(lockedAt := None, lockedBy := None, lastError := None);
      rows := rows[id := row];
    }

    method Release(id: EventId, worker: Worker, now: Time) returns (done: bool)
      modifies this
      ensures done == Accepted(old(Store()), Op.Release(id, worker, now))
      ensures Store() == Step(old(Store()), Op.Release(id, worker, now))
    {
      done := Holds(rows, id, worker);
      if !done { return; }
      var row := rows[id];
      row := row.(status := Pending, availableAt := now);
      row := row.(lockedAt := None, lockedBy := None);
      rows := rows[id := row];
    }

    method MarkFailed(id: EventId, worker: Worker, now: Time, error: string, maxAttempts: int, retryBase: int)
      returns (done: bool)
      modifies this
      ensures done == Accepted(old(Store()), Op.MarkFailed(id, worker, now, error, maxAttempts, retryBase))
      ensures Store() == Step(old(Store()), Op.MarkFailed(id, worker, now, error, maxAttempts, retryBase))
    {
      done := Holds(rows, id, worker);
      if !done { return; }
      var row := rows[id];
      var terminal := row.attempts >= maxAttempts;
      row := row.(status := if terminal then Failed else Pending);
      row := row.(retryCount := row.attempts);
      row := row.(availableAt := now + RetryDelay(retryBase, row.attempts));
      row := row.(lockedAt := None, lockedBy := None, lastError := Some(error));
      rows := rows[id := row];
    }

    method Recover(id: EventId, now: Time, lease: Time) returns (recovered: Option<Row>)
      modifies this
      ensures recovered.Some? == Accepted(old(Store()), Op.Recover(id, now, lease))
      ensures Store() == Step(old(Store()), Op.Recover(id, now, lease))
      ensures recovered.Some? ==> id in rows && recovered.value == rows[id]
    {
      if !Recoverable(rows, id, now, lease) { return None; }
      var row := rows[id];
      row := row.(status := Pending, availableAt := now);
      row := row.(lockedAt := None, lockedBy := None);
      rows := rows[id := row];
      recovered := Some(row);
    }
  }
}
