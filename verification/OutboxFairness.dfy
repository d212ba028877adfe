/** Bounded overtaking: a due event waits only for the rows already ahead of it. */
module OutboxFairness {
  import opened Common
  import opened Outbox

  /** The pending rows that a claim would prefer to this one. */
  ghost function Ahead(rows: map<EventId, Row>, e: EventId): set<EventId>
    requires e in rows
  {
    set id | id in rows && rows[id].status == Pending && id != e && Before(rows, id, e)
  }

  ghost function CountAhead(s: State, e: EventId): nat {
    if e in s.rows then |Ahead(s.rows, e)| else 0
  }

  /** A claim that lists the event's name, does not find the event's own row locked by others, and
      takes `limit`. */
  ghost predicate Covers(s: State, op: Op, e: EventId, limit: nat)
    requires e in s.rows
  {
    op.Claim? && s.rows[e].name in op.query.names && e !in op.query.rowLocks && op.query.limit == limit
  }

  /** One call as the bound assumes it: clocks are past the event's availability, no backoff is
      negative, and no new event is dated before this one. */
  ghost predicate Ordinary(s: State, op: Op, e: EventId)
    requires e in s.rows
  {
    && (NowOf(op).Some? ==> s.rows[e].availableAt < NowOf(op).value)
    && (op.MarkFailed? ==> op.retryBase >= 0)
    && (op.Publish? ==>
        || s.rows[e].availableAt < op.availableAt
        || (s.rows[e].availableAt == op.availableAt && e < op.id))
  }

  ghost predicate OrdinarySince(g: Run, h: Run, e: EventId)
    requires Extends(h, g)
    decreases h
  {
    h != g ==> OrdinarySince(g, h.past, e) && e in After(h.past).rows && Ordinary(After(h.past), h.op, e)
  }

  /** The rows a claim takes over from workers whose lease has run out. */
  ghost function TakenOver(s: State, op: Op): set<EventId>
    requires op.Claim?
  {
    set id | id in Picked(s.rows, op.query) && s.rows[id].status == Processing
  }

  ghost function CoveringHere(s: State, op: Op, e: EventId, limit: nat): nat {
    if e in s.rows && Covers(s, op, e, limit) then 1 else 0
  }

  ghost function TakeOversHere(s: State, op: Op, e: EventId, limit: nat): nat {
    if e in s.rows && Covers(s, op, e, limit) then |TakenOver(s, op)| else 0
  }

  /** How many covering claims were made since `g`. */
  ghost function CoveringClaims(g: Run, h: Run, e: EventId, limit: nat): nat
    requires Extends(h, g)
    decreases h
  {
    if h == g then 0 else CoveringClaims(g, h.past, e, limit) + CoveringHere(After(h.past), h.op, e, limit)
  }

  /** How many rows the covering claims since `g` took over. All of them sort before the event. */
  ghost function TakeOvers(g: Run, h: Run, e: EventId, limit: nat): nat
    requires Extends(h, g)
    decreases h
  {
    if h == g then 0 else TakeOvers(g, h.past, e, limit) + TakeOversHere(After(h.past), h.op, e, limit)
  }

  /** Some claim since `g` has taken the event. */
  ghost predicate TakenSince(g: Run, h: Run, e: EventId)
    requires Extends(h, g)
    decreases h
  {
    h != g && (TakenSince(g, h.past, e) || OutcomeOf(After(h.past), h.op, e) == FreshClaim)
  }

  ghost function Elements(ids: seq<EventId>): set<EventId> {
    set id | id in ids
  }

  lemma ElementsOfCons(m: EventId, rest: seq<EventId>)
    requires m !in rest
    ensures Elements([m] + rest) == {m} + Elements(rest)
    ensures |Elements([m] + rest)| == 1 + |Elements(rest)|
  {
  }

  lemma {:induction false} SelectionPassedOver(rows: map<EventId, Row>, ids: set<EventId>, limit: nat, e: EventId)
    requires ids <= rows.Keys && e in ids && e !in Selection(rows, ids, limit)
    ensures |Elements(Selection(rows, ids, limit))| == limit
    ensures forall id | id in Elements(Selection(rows, ids, limit)) :: Before(rows, id, e)
    decreases limit
  {
    if limit == 0 {
      assert Elements([]) == {};
    } else {
      var m := First(rows, ids);
      var rest := Selection(rows, ids - {m}, limit - 1);
      assert Selection(rows, ids, limit) == [m] + rest;
      assert m in [m] + rest;
      assert forall id | id in rest :: id in [m] + rest;
      SelectionPassedOver(rows, ids - {m}, limit - 1, e);
      ElementsOfCons(m, rest);
    }
  }

  /** An ordinary call never moves a row ahead of a waiting event. */
  lemma NothingJumpsAhead(s: State, op: Op, e: EventId)
    requires e in s.rows && s.rows[e].status == Pending && Ordinary(s, op, e)
    requires OutcomeOf(s, op, e) == Untouched
    ensures e in Step(s, op).rows && Step(s, op).rows[e] == s.rows[e]
    ensures Ahead(Step(s, op).rows, e) <= Ahead(s.rows, e)
  {
    if op.MarkFailed? && Accepted(s, op) {
      var row := s.rows[op.id];
      assert RetryDelay(op.retryBase, row.attempts) >= 0 by {
        NonNegative(op.retryBase, Pow2(if row.attempts == 0 then 0 else row.attempts - 1));
      }
    }
  }

  lemma NonNegative(a: int, b: int)
    requires a >= 0 && b >= 0
    ensures SECOND * (a * b) >= 0
  {
    assert a * b >= 0;
  }

  /** A covering claim that passes a due event over takes `limit` rows that sort before it: pending
      ones, which are ahead of it no longer, and ones it takes over. */
  lemma PassedOverMeansFewerAhead(s: State, op: Op, e: EventId, limit: nat)
    requires e in s.rows && s.rows[e].status == Pending && Ordinary(s, op, e) && Covers(s, op, e, limit)
    requires OutcomeOf(s, op, e) == Untouched
    ensures |Ahead(Step(s, op).rows, e)| + limit <= |Ahead(s.rows, e)| + |TakenOver(s, op)|
    ensures forall id | id in TakenOver(s, op) :: Before(s.rows, id, e)
  {
    var rows, q := s.rows, op.query;
    var taken, over := Elements(Picked(rows, q)), TakenOver(s, op);
    SelectionPassedOver(rows, Candidates(rows, q), limit, e);
    NothingJumpsAhead(s, op, e);
    var before, after := Ahead(rows, e), Ahead(Step(s, op).rows, e);
    assert over <= taken && taken - over <= before;
    assert after <= before - (taken - over);
    CardinalityMonotone(after, before - (taken - over));
    assert |taken - over| == limit - |over|;
  }

  lemma CardinalityMonotone<T>(a: set<T>, b: set<T>)
    requires a <= b
    ensures |a| <= |b|
  {
    assert b == a + (b - a);
  }

  /** One ordinary call that does not take a waiting event. */
  lemma OneMoreCall(s: State, op: Op, e: EventId, limit: nat)
    requires e in s.rows && s.rows[e].status == Pending && Ordinary(s, op, e) && OutcomeOf(s, op, e) != FreshClaim
    ensures e in Step(s, op).rows && Step(s, op).rows[e] == s.rows[e]
    ensures CountAhead(Step(s, op), e) + limit * CoveringHere(s, op, e, limit)
      <= CountAhead(s, e) + TakeOversHere(s, op, e, limit)
  {
    assert OutcomeOf(s, op, e) == Untouched;
    NothingJumpsAhead(s, op, e);
    if Covers(s, op, e, limit) {
      PassedOverMeansFewerAhead(s, op, e, limit);
    } else {
      CardinalityMonotone(Ahead(Step(s, op).rows, e), Ahead(s.rows, e));
    }
  }

  /** Until it is taken, each covering claim uses up `limit` of the rows once ahead of it and of
      the rows taken over. */
  lemma {:induction false} EachCoveringClaimCounts(g: Run, h: Run, e: EventId, limit: nat)
    requires Extends(h, g) && e in After(g).rows && After(g).rows[e].status == Pending
    requires OrdinarySince(g, h, e) && !TakenSince(g, h, e)
    ensures e in After(h).rows && After(h).rows[e] == After(g).rows[e]
    ensures CountAhead(After(h), e) + limit * CoveringClaims(g, h, e, limit)
      <= CountAhead(After(g), e) + TakeOvers(g, h, e, limit)
    decreases h
  {
    if h != g {
      var s, s' := After(h.past), Step(After(h.past), h.op);
      EachCoveringClaimCounts(g, h.past, e, limit);
      OneMoreCall(s, h.op, e, limit);
      AddUp(limit, CoveringClaims(g, h.past, e, limit), CoveringHere(s, h.op, e, limit),
            CountAhead(After(g), e) + TakeOvers(g, h.past, e, limit), CountAhead(s, e),
            TakeOversHere(s, h.op, e, limit), CountAhead(s', e));
    }
  }

  lemma AddUp(limit: nat, claims: nat, more: nat, first: int, before: int, overs: int, after: int)
    requires before + limit * claims <= first
    requires after + limit * more <= before + overs
    ensures after + limit * (claims + more) <= first + overs
  {
    assert limit * (claims + more) == limit * claims + limit * more;
  }

  /** A due event with r pending rows ahead of it has been taken once (r + t) / limit + 1 claims
      covering it have been made, where t is how many rows those claims took over from workers
      whose lease had run out; whatever else happens in between. */
  lemma OvertakingIsBounded(g: Run, h: Run, e: EventId, limit: nat)
    requires Extends(h, g) && e in After(g).rows && After(g).rows[e].status == Pending
    requires OrdinarySince(g, h, e) && limit > 0
    requires CoveringClaims(g, h, e, limit) >= (CountAhead(After(g), e) + TakeOvers(g, h, e, limit)) / limit + 1
    ensures TakenSince(g, h, e)
  {
    if !TakenSince(g, h, e) {
      EachCoveringClaimCounts(g, h, e, limit);
      Exceeds(CountAhead(After(g), e) + TakeOvers(g, h, e, limit), limit, CoveringClaims(g, h, e, limit));
    }
  }

  lemma Exceeds(r: nat, limit: nat, n: nat)
    requires limit > 0 && n >= r / limit + 1
    ensures limit * n > r
  {
    assert limit * n >= limit * (r / limit + 1);
  }
}
