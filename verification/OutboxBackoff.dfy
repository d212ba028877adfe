/** Exponential backoff over whole runs: retried failures push an event's availability out
    at least as fast as the sum of a doubling series. */
module OutboxBackoff {
  import opened Common
  import opened Outbox
  import opened OutboxSafety

  /** Every failure of the event in the run is reported with at least `base` as retry base. */
  ghost predicate BaseAtLeast(h: Run, e: EventId, base: nat) {
    h.Then? ==>
      && BaseAtLeast(h.past, e, base)
      && (h.op.MarkFailed? && h.op.id == e ==> h.op.retryBase >= base)
  }

  /** When the event's first retried failure was reported. */
  ghost function FirstRetryAt(h: Run, e: EventId): Option<Time> {
    match h
    case Start(_) => None
    case Then(past, op) =>
      if FirstRetryAt(past, e).Some? then FirstRetryAt(past, e)
      else if OutcomeOf(After(past), op, e) == Retried then NowOf(op)
      else None
  }

  lemma {:induction false} Pow2Monotone(a: nat, b: nat)
    requires a <= b
    ensures Pow2(a) <= Pow2(b)
  {
    if a < b { Pow2Monotone(a, b - 1); }
  }

  /** The wait after the k-th retried failure, counted from the first: base * (2^k - 1). */
  ghost function Wait(base: nat, k: nat): Time {
    SECOND * (base * (Pow2(k) - 1))
  }

  lemma WaitGrows(base: nat, retryBase: int, k: nat, attempts: nat)
    requires retryBase >= base && attempts >= k + 1
    ensures Wait(base, k) + RetryDelay(retryBase, attempts) >= Wait(base, k + 1)
    ensures RetryDelay(retryBase, attempts) >= 0
  {
    Pow2Monotone(k, attempts - 1);
    var p, q := Pow2(k), Pow2(attempts - 1);
    assert retryBase * q >= base * p by {
      Product(base, retryBase, p, q);
    }
    assert base * (2 * p - 1) == base * (p - 1) + base * p;
  }

  lemma Product(a: nat, b: nat, c: nat, d: nat)
    requires a <= b && c <= d
    ensures a * c <= b * d
  {
    assert a * c <= b * c;
    assert b * c <= b * d;
  }

  lemma {:induction false} LocksPrecedeTheClock(h: Run, e: EventId)
    requires FromEmpty(h) && Timed(h)
    requires e in After(h).rows && After(h).rows[e].status == Processing
    ensures var row := After(h).rows[e];
      && row.lockedAt.Some? && Clock(h).Some? && row.lockedAt.value <= Clock(h).value
      && row.availableAt <= row.lockedAt.value
  {
    LockedExactlyWhileProcessing(h, e);
    LockedExactlyWhileProcessing(h.past, e);
    if e in After(h.past).rows && After(h.past).rows[e].status == Processing {
      LocksPrecedeTheClock(h.past, e);
    }
  }

  /** After k retried failures the row is not available before the first of them plus
      base * (2^k - 1) seconds; releases, stale leases and their recovery do not shorten this. */
  lemma {:induction false} AvailabilityBacksOff(h: Run, e: EventId, base: nat)
    requires FromEmpty(h) && Timed(h) && BaseAtLeast(h, e, base)
    requires Tally(h, e, {RecoveredFailed}) == 0
    requires Tally(h, e, {Retried}) > 0
    ensures e in After(h).rows && FirstRetryAt(h, e).Some?
    ensures After(h).rows[e].availableAt >= FirstRetryAt(h, e).value + Wait(base, Tally(h, e, {Retried}))
  {
    var s, k := After(h.past), Tally(h.past, e, {Retried});
    var outcome := OutcomeOf(s, h.op, e);
    if k > 0 { AvailabilityBacksOff(h.past, e, base); }
    if e in s.rows {
      AttemptsAreAccountedFor(h.past, e);
      LockedExactlyWhileProcessing(h.past, e);
      TallyMonotone(h.past, e, {Retried}, CLOSINGS);
      if s.rows[e].status == Processing { LocksPrecedeTheClock(h.past, e); }
      if outcome == Retried {
        WaitGrows(base, h.op.retryBase, k, s.rows[e].attempts);
        if k == 0 { NoFirstRetryYet(h.past, e); }
      }
    }
  }

  lemma {:induction false} NoFirstRetryYet(h: Run, e: EventId)
    requires Tally(h, e, {Retried}) == 0
    ensures FirstRetryAt(h, e) == None
  {
    if h.Then? { NoFirstRetryYet(h.past, e); }
  }

  /** So no claim made before that instant takes the event. Leases are not negative, as the
      settings demand. */
  lemma NoClaimBeforeBackoff(h: Run, e: EventId, base: nat, q: Query, worker: Worker)
    requires FromEmpty(h) && Timed(Then(h, Claim(q, worker))) && BaseAtLeast(h, e, base) && q.lease >= 0
    requires Tally(h, e, {RecoveredFailed}) == 0
    requires Tally(h, e, {Retried}) > 0
    ensures FirstRetryAt(h, e).Some?
    ensures q.now < FirstRetryAt(h, e).value + Wait(base, Tally(h, e, {Retried})) ==>
      OutcomeOf(After(h), Claim(q, worker), e) == Untouched
  {
    AvailabilityBacksOff(h, e, base);
    if After(h).rows[e].status == Processing { LocksPrecedeTheClock(h, e); }
  }
}
