/** What holds of the outbox in every run, whatever workers, crashes, clocks and recoveries
    it meets: attempts are accounted for, completion happens once, leases exclude, and
    failures are bounded. */
module OutboxSafety {
  import opened Common
  import opened Outbox

  const CLAIMS := {FreshClaim, StaleReclaim}
  /** Ends of a claim: each one closes the claim that was open before it. */
  const CLOSINGS := {Processed, Released, Retried, Exhausted, RecoveredStale, StaleReclaim}

  ghost predicate FromEmpty(h: Run) {
    StartsFrom(h, EMPTY)
  }

  lemma {:induction false} TallyMonotone(h: Run, e: EventId, some: set<Outcome>, all: set<Outcome>)
    requires some <= all
    ensures Tally(h, e, some) <= Tally(h, e, all)
  {
    if h.Then? { TallyMonotone(h.past, e, some, all); }
  }

  /** Rows are never deleted, and a lock is present exactly while a row is in progress. */
  ghost predicate WellFormed(row: Row) {
    && (row.status == Processing <==> row.lockedBy.Some?)
    && (row.status == Processing <==> row.lockedAt.Some?)
    && (row.status == Published <==> row.publishedAt.Some?)
  }

  lemma {:induction false} LockedExactlyWhileProcessing(h: Run, e: EventId)
    requires FromEmpty(h)
    ensures e in After(h).rows ==> WellFormed(After(h).rows[e])
  {
    if h.Then? { LockedExactlyWhileProcessing(h.past, e); }
  }

  // ---------- Accounting ----------

  lemma {:induction false} NothingBeforeBirth(h: Run, e: EventId, kinds: set<Outcome>)
    requires FromEmpty(h) && e !in After(h).rows && Untouched !in kinds
    ensures Tally(h, e, kinds) == 0
  {
    if h.Then? { NothingBeforeBirth(h.past, e, kinds); }
  }

  /** What a call with a given outcome does to the attempts and the status of the row. */
  lemma EffectOfOutcome(s: State, op: Op, e: EventId)
    requires e in s.rows
    ensures e in Step(s, op).rows
    ensures var outcome, row, row' := OutcomeOf(s, op, e), s.rows[e], Step(s, op).rows[e];
      && row'.attempts == row.attempts + (if outcome in CLAIMS then 1 else 0)
      && (outcome in CLAIMS ==> row'.status == Processing)
      && (outcome in CLOSINGS ==> row.status == Processing)
      && (outcome in CLOSINGS - CLAIMS ==> row'.status != Processing)
      && (outcome == FreshClaim ==> row.status == Pending)
      && (outcome == RecoveredFailed ==> row.status == Failed && row'.status == Pending)
      && (outcome == Untouched ==> row' == row)
      && outcome != Born
  {
  }

  /** Every attempt on the row is a claim, and every claim but the open one has been closed. */
  lemma {:induction false} AttemptsAreAccountedFor(h: Run, e: EventId)
    requires FromEmpty(h) && e in After(h).rows
    ensures var row := After(h).rows[e];
      && row.attempts == Tally(h, e, CLAIMS)
      && row.attempts == Tally(h, e, CLOSINGS) + if row.status == Processing then 1 else 0
  {
    if e in After(h.past).rows {
      AttemptsAreAccountedFor(h.past, e);
      EffectOfOutcome(After(h.past), h.op, e);
    } else {
      NothingBeforeBirth(h.past, e, CLAIMS);
      NothingBeforeBirth(h.past, e, CLOSINGS);
    }
  }

  // ---------- Exactly-once completion ----------

  function ReceiptCount(receipts: seq<Receipt>, e: EventId): nat {
    if receipts == [] then 0
    else
      var last := |receipts| - 1;
      ReceiptCount(receipts[..last], e) + if receipts[last].event == e then 1 else 0
  }

  lemma {:induction false} ReceiptCountAppend(receipts: seq<Receipt>, r: Receipt, e: EventId)
    ensures ReceiptCount(receipts + [r], e) == ReceiptCount(receipts, e) + if r.event == e then 1 else 0
  {
    assert (receipts + [r])[..|receipts|] == receipts;
  }

  lemma {:induction false} NoReceiptFound(receipts: seq<Receipt>, e: EventId, consumer: string)
    requires ReceiptCount(receipts, e) == 0
    ensures !HasReceipt(receipts, e, consumer)
  {
    if receipts != [] {
      var last := |receipts| - 1;
      NoReceiptFound(receipts[..last], e, consumer);
      forall r | r in receipts ensures r.event != e || r.consumer != consumer {
        if r in receipts[..last] {
        } else {
          assert r == receipts[last];
        }
      }
    }
  }

  lemma AddReceiptCounts(receipts: seq<Receipt>, r: Receipt, e: EventId)
    requires r.event == e ==> ReceiptCount(receipts, e) == 0
    ensures ReceiptCount(AddReceipt(receipts, r), e) == ReceiptCount(receipts, e) + if r.event == e then 1 else 0
  {
    ReceiptCountAppend(receipts, r, e);
    if r.event == e { NoReceiptFound(receipts, e, r.consumer); }
  }

  ghost predicate IsPublished(s: State, e: EventId) {
    e in s.rows && s.rows[e].status == Published
  }

  /** Completing an event is what adds its one receipt. */
  lemma OneCallCompletes(s: State, op: Op, e: EventId)
    requires IsPublished(s, e) ==> ReceiptCount(s.receipts, e) == 1
    requires !IsPublished(s, e) ==> ReceiptCount(s.receipts, e) == 0
    ensures ReceiptCount(Step(s, op).receipts, e) == if IsPublished(Step(s, op), e) then 1 else 0
    ensures IsPublished(Step(s, op), e) <==> IsPublished(s, e) || OutcomeOf(s, op, e) == Processed
    ensures OutcomeOf(s, op, e) == Processed ==> !IsPublished(s, e)
  {
    if op.MarkProcessed? && Accepted(s, op) {
      AddReceiptCounts(s.receipts, Receipt(op.id, op.consumer, op.now), e);
    }
  }

  /** An event is published once at most; it has a receipt exactly if it is published, and
      then has exactly one, whichever consumers were named. */
  lemma {:induction false} CompletedExactlyOnce(h: Run, e: EventId)
    requires FromEmpty(h)
    ensures Tally(h, e, {Processed}) == if IsPublished(After(h), e) then 1 else 0
    ensures ReceiptCount(After(h).receipts, e) == if IsPublished(After(h), e) then 1 else 0
  {
    if h.Then? {
      CompletedExactlyOnce(h.past, e);
      OneCallCompletes(After(h.past), h.op, e);
    }
  }

  /** No later call of any kind touches a published event or its receipt. */
  lemma {:induction false} PublishedIsForever(g: Run, h: Run, e: EventId, op: Op)
    requires FromEmpty(g) && Extends(h, g)
    requires IsPublished(After(g), e)
    ensures e in After(h).rows && After(h).rows[e] == After(g).rows[e]
    ensures ReceiptCount(After(h).receipts, e) == 1
    ensures OutcomeOf(After(h), op, e) == Untouched
    decreases h
  {
    LockedExactlyWhileProcessing(g, e);
    if h == g {
      CompletedExactlyOnce(g, e);
    } else {
      PublishedIsForever(g, h.past, e, h.op);
      ExtendsKeepsOrigin(g, h);
      CompletedExactlyOnce(h, e);
    }
  }

  lemma {:induction false} ExtendsKeepsOrigin(g: Run, h: Run)
    requires FromEmpty(g) && Extends(h, g)
    ensures FromEmpty(h)
    decreases h
  {
    if h != g { ExtendsKeepsOrigin(g, h.past); }
  }

  // ---------- Leases ----------

  /** The worker whose claim of the event is open, and when it claimed, read off the calls
      alone. */
  ghost function Holder(h: Run, e: EventId): Option<(Worker, Time)> {
    match h
    case Start(_) => None
    case Then(past, op) =>
      var outcome := OutcomeOf(After(past), op, e);
      if outcome in CLAIMS then Some((op.worker, op.query.now))
      else if outcome in CLOSINGS then None
      else Holder(past, e)
  }

  /** The worker that claimed the event last, open or not. */
  ghost function LatestClaimer(h: Run, e: EventId): Option<Worker> {
    match h
    case Start(_) => None
    case Then(past, op) =>
      if OutcomeOf(After(past), op, e) in CLAIMS then Some(op.worker) else LatestClaimer(past, e)
  }

  lemma ClaimLocks(s: State, op: Op, e: EventId)
    ensures OutcomeOf(s, op, e) in CLAIMS ==>
      && op.Claim? && e in s.rows && e in Step(s, op).rows
      && Step(s, op).rows[e] == ClaimRow(s.rows[e], op.worker, op.query.now)
  {
  }

  lemma {:induction false} LockNamesTheHolder(h: Run, e: EventId)
    requires FromEmpty(h)
    ensures e in After(h).rows ==>
      var row := After(h).rows[e];
      && WellFormed(row)
      && Holder(h, e) == (if row.status == Processing then Some((row.lockedBy.value, row.lockedAt.value)) else None)
    ensures e !in After(h).rows ==> Holder(h, e) == None
    ensures Holder(h, e).Some? ==> LatestClaimer(h, e) == Some(Holder(h, e).value.0)
  {
    if h.Then? {
      LockNamesTheHolder(h.past, e);
      ClaimLocks(After(h.past), h.op, e);
      if e in After(h.past).rows { EffectOfOutcome(After(h.past), h.op, e); }
      LockedExactlyWhileProcessing(h, e);
    }
  }

  /** While a claim is open and its lease has not run out, no claim call takes the event;
      so consecutive claims with nothing closing the first are at least a lease apart. */
  lemma LeaseExcludes(h: Run, e: EventId, q: Query, worker: Worker)
    requires FromEmpty(h)
    requires Holder(h, e).Some?
    ensures q.now < Holder(h, e).value.1 + q.lease ==> OutcomeOf(After(h), Claim(q, worker), e) == Untouched
    ensures OutcomeOf(After(h), Claim(q, worker), e) in {Untouched, StaleReclaim}
  {
    LockNamesTheHolder(h, e);
  }

  predicate Settles(op: Op) {
    op.MarkProcessed? || op.Release? || op.MarkFailed?
  }

  /** A settling call is accepted exactly when its worker name holds the open claim (even past
      its lease, and even if the claim is a later one made under the same name). Otherwise it
      changes nothing. */
  lemma SettleNeedsTheOpenClaim(h: Run, op: Op)
    requires FromEmpty(h) && Settles(op)
    ensures Accepted(After(h), op) <==> Holder(h, op.id).Some? && Holder(h, op.id).value.0 == op.worker
    ensures !Accepted(After(h), op) ==> After(Then(h, op)) == After(h)
  {
    LockNamesTheHolder(h, op.id);
  }

  /** No call between `g` and `h` is a claim of the event by this worker. */
  ghost predicate NoClaimBy(g: Run, h: Run, e: EventId, worker: Worker)
    requires Extends(h, g)
    decreases h
  {
    h != g ==>
      && NoClaimBy(g, h.past, e, worker)
      && (OutcomeOf(After(h.past), h.op, e) in CLAIMS ==> h.op.worker != worker)
  }

  /** Once another worker has claimed the event, whatever the old one does to it fails and
      changes nothing until the old one claims it again. */
  lemma {:induction false} SupersededWorkerIsFenced(g: Run, h: Run, e: EventId, op: Op)
    requires FromEmpty(g) && Extends(h, g) && Settles(op) && op.id == e
    requires LatestClaimer(g, e) != Some(op.worker)
    requires NoClaimBy(g, h, e, op.worker)
    ensures !Accepted(After(h), op) && After(Then(h, op)) == After(h)
    ensures LatestClaimer(h, e) != Some(op.worker)
    decreases h
  {
    ExtendsKeepsOrigin(g, h);
    if h != g { SupersededWorkerIsFenced(g, h.past, e, op); }
    SettleNeedsTheOpenClaim(h, op);
    LockNamesTheHolder(h, e);
  }

  // ---------- Failure bound ----------

  /** Every failure of the event in the run is reported with at most `cap` as max_attempts. */
  ghost predicate CappedBy(h: Run, e: EventId, cap: int) {
    h.Then? ==> CappedBy(h.past, e, cap) && (h.op.MarkFailed? && h.op.id == e ==> h.op.maxAttempts <= cap)
  }

  ghost predicate CappedAt(h: Run, e: EventId, cap: int) {
    h.Then? ==> CappedAt(h.past, e, cap) && (h.op.MarkFailed? && h.op.id == e ==> h.op.maxAttempts == cap)
  }

  /** Fewer than `cap` failures are ever retried, recoveries or not. */
  lemma {:induction false} RetriesBelowCap(h: Run, e: EventId, cap: int)
    requires FromEmpty(h) && CappedBy(h, e, cap)
    ensures Tally(h, e, {Retried}) > 0 ==> Tally(h, e, {Retried}) < cap
  {
    if h.Then? {
      RetriesBelowCap(h.past, e, cap);
      if OutcomeOf(After(h.past), h.op, e) == Retried {
        AttemptsAreAccountedFor(h.past, e);
        TallyMonotone(h.past, e, {Retried}, CLOSINGS);
      }
    }
  }

  /** Each terminal failure but the one in force was undone by an administrator. */
  lemma {:induction false} TerminalFailuresAreRecovered(h: Run, e: EventId)
    requires FromEmpty(h)
    ensures Tally(h, e, {Exhausted}) == Tally(h, e, {RecoveredFailed})
      + if e in After(h).rows && After(h).rows[e].status == Failed then 1 else 0
  {
    if h.Then? {
      TerminalFailuresAreRecovered(h.past, e);
      LockedExactlyWhileProcessing(h.past, e);
    }
  }

  lemma {:induction false} TallyPair(h: Run, e: EventId, a: Outcome, b: Outcome)
    requires a != b
    ensures Tally(h, e, {a, b}) == Tally(h, e, {a}) + Tally(h, e, {b})
  {
    if h.Then? { TallyPair(h.past, e, a, b); }
  }

  /** At most max_attempts failures (at least one) succeed per event, plus one for every
      administrator recovery of a failed event. */
  lemma FailuresAreBounded(h: Run, e: EventId, cap: int)
    requires FromEmpty(h) && CappedBy(h, e, cap)
    ensures Tally(h, e, {Retried, Exhausted}) <= (if cap >= 1 then cap else 1) + Tally(h, e, {RecoveredFailed})
  {
    RetriesBelowCap(h, e, cap);
    TerminalFailuresAreRecovered(h, e);
    TallyPair(h, e, Retried, Exhausted);
  }

  lemma {:induction false} ExhaustionSticks(h: Run, e: EventId, cap: int)
    requires FromEmpty(h) && CappedAt(h, e, cap) && Tally(h, e, {Exhausted}) > 0
    ensures e in After(h).rows && After(h).rows[e].attempts >= cap
  {
    if OutcomeOf(After(h.past), h.op, e) != Exhausted {
      ExhaustionSticks(h.past, e, cap);
    }
  }

  /** A failed event has used up its attempts, so after a recovery its next failure is
      terminal again: a run never retries an event that once failed for good. */
  lemma {:induction false} RecoveredEventFailsForGood(h: Run, e: EventId, cap: int, op: Op)
    requires FromEmpty(h) && CappedAt(h, e, cap)
    requires (e in After(h).rows && After(h).rows[e].status == Failed) || Tally(h, e, {Exhausted}) > 0
    requires op.MarkFailed? && op.maxAttempts == cap
    ensures e in After(h).rows && After(h).rows[e].attempts >= cap
    ensures OutcomeOf(After(h), op, e) in {Untouched, Exhausted}
  {
    TerminalFailuresAreRecovered(h, e);
    ExhaustionSticks(h, e, cap);
  }
}
