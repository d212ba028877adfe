/** Runs that show what the outbox does not promise. */
module OutboxRuns {
  import opened Common
  import opened Outbox
  import opened OutboxSafety

  const FAILURES := {Retried, Exhausted}

  lemma PickedAlone(rows: map<EventId, Row>, q: Query, id: EventId)
    requires Candidates(rows, q) == {id} && q.limit >= 1
    ensures Picked(rows, q) == [id]
  {
    var m := First(rows, {id});
    assert m == id && {id} - {m} == {};
    assert Selection(rows, {}, q.limit - 1) == [];
  }

  /** One event, published at time 0. */
  ghost function JustPublished(name: string): Run {
    Then(Start(EMPTY), Publish(1, name, "", 0))
  }

  function Asking(name: string, now: Time, lease: Time): Query {
    Query({name}, now, lease, 1, {})
  }

  /** The only event, taken by a claim that asks for it. */
  lemma TakesTheEvent(s: State, name: string, now: Time, lease: Time, worker: Worker)
    requires s.rows.Keys == {1} && s.rows[1].name == name && Eligible(s.rows[1], now, lease)
    ensures var op := Claim(Asking(name, now, lease), worker);
      && Step(s, op).rows == map[1 := ClaimRow(s.rows[1], worker, now)] && Step(s, op).receipts == s.receipts
      && OutcomeOf(s, op, 1) in CLAIMS
  {
    var q := Asking(name, now, lease);
    assert Candidates(s.rows, q) == {1};
    PickedAlone(s.rows, q, 1);
  }

  lemma PublishedOnce(name: string)
    ensures var h := JustPublished(name);
      && FromEmpty(h) && Timed(h) && Clock(h) == None && Tally(h, 1, FAILURES) == 0
      && After(h).rows == map[1 := Row(name, "", Pending, 0, 0, None, None, None, 0, None)]
  {
    var h0: Run := Start(EMPTY);
    assert FromEmpty(h0) && Timed(h0) && Clock(h0) == None && Tally(h0, 1, FAILURES) == 0;
    assert NowOf(Publish(1, name, "", 0)) == None;
  }

  /** A run in which the event has been attempted n + 1 times without a failure: it is claimed and
      released over and over. So attempts pass any `max_attempts`. */
  lemma {:induction false} AttemptsPassAnyMaximum(name: string, worker: Worker, n: nat) returns (h: Run)
    ensures FromEmpty(h) && Timed(h) && Clock(h) == Some(0) && Tally(h, 1, FAILURES) == 0
    ensures After(h).rows.Keys == {1} && After(h).rows[1].name == name
    ensures After(h).rows[1].attempts == n + 1 && Holds(After(h).rows, 1, worker)
  {
    var waiting: Run;
    if n == 0 {
      waiting := JustPublished(name);
      PublishedOnce(name);
    } else {
      var before := AttemptsPassAnyMaximum(name, worker, n - 1);
      waiting := Then(before, Release(1, worker, 0));
      AtTheStart(before, Release(1, worker, 0));
    }
    h := Then(waiting, Claim(Asking(name, 0, 1), worker));
    TakesTheEvent(After(waiting), name, 0, 1, worker);
    AtTheStart(waiting, h.op);
  }

  lemma AtTheStart(h: Run, op: Op)
    requires FromEmpty(h) && Timed(h) && (Clock(h).Some? ==> Clock(h).value == 0) && NowOf(op) == Some(0)
    ensures FromEmpty(Then(h, op)) && Timed(Then(h, op)) && Clock(Then(h, op)) == Some(0)
  {
  }

  /** A run in which a worker settles long after its lease ran out, as nobody claimed the event
      in between. */
  lemma SettledLate(name: string, worker: Worker, lease: Time, late: Time, consumer: string) returns (h: Run, op: Op)
    requires lease >= 0 && late >= lease
    ensures FromEmpty(h) && Timed(h) && Clock(h) == Some(0)
    ensures op == MarkProcessed(1, worker, late, consumer) && 1 in After(h).rows
    ensures Stale(After(h).rows[1], late, lease) && Accepted(After(h), op)
  {
    h := Then(JustPublished(name), Claim(Asking(name, 0, lease), worker));
    op := MarkProcessed(1, worker, late, consumer);
    PublishedOnce(name);
    AtTheStart(JustPublished(name), h.op);
    TakesTheEvent(After(JustPublished(name)), name, 0, lease, worker);
  }

  /** A run in which a claim has been taken over under the same worker name, and the name settles
      it: whoever reports first, for the first claim or the second. */
  lemma SettledUnderOneName(name: string, worker: Worker, lease: Time, now: Time, consumer: string)
    returns (h: Run, op: Op)
    requires 0 <= lease <= now
    ensures FromEmpty(h) && op == MarkProcessed(1, worker, now, consumer)
    ensures Tally(h, 1, {StaleReclaim}) == 1 && Accepted(After(h), op)
  {
    var first := Then(JustPublished(name), Claim(Asking(name, 0, lease), worker));
    PublishedOnce(name);
    AtTheStart(JustPublished(name), first.op);
    TakesTheEvent(After(JustPublished(name)), name, 0, lease, worker);
    h := Then(first, Claim(Asking(name, now, lease), worker));
    op := MarkProcessed(1, worker, now, consumer);
    TakesTheEvent(After(first), name, now, lease, worker);
    assert Tally(JustPublished(name), 1, {StaleReclaim}) == 0;
  }
}
