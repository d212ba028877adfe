/** The fixed-window rate limiter: one counter per key that expires a window after its first
    request, and what that bounds over any sliding interval. */
module RateLimiter {
  import opened Common

  type Scope = string

  /** A scope and the client's key within it; hashing is taken as injective. */
  datatype Key = Key(scope: Scope, client: string)

  datatype Limits = Limits(limit: int, windowSeconds: int)
  type Policy = p: Limits | p.limit >= 1 && p.windowSeconds >= 1 witness Limits(1, 1)

  type Positive = n: int | n >= 1 witness 1

  /** A Redis counter and the instant it expires. */
  datatype Entry = Entry(count: Positive, deadline: Time)

  datatype State = State(policies: map<Scope, Policy>, entries: map<Key, Entry>)

  datatype Request = Request(key: Key, now: Time)

  datatype Decision = Decision(allowed: bool, limit: int, remaining: int, retryAfter: Option<int>)

  /** The checks a decision makes on itself. */
  predicate ValidDecision(d: Decision) {
    d.limit >= 1 && 0 <= d.remaining <= d.limit && (d.retryAfter.Some? ==> d.retryAfter.value >= 0)
  }

  function Window(p: Policy): Time {
    p.windowSeconds * SECOND
  }

  predicate Alive(entries: map<Key, Entry>, key: Key, now: Time) {
    key in entries && now < entries[key].deadline
  }

  /** INCR, and EXPIRE if that created the counter. */
  function Count(entries: map<Key, Entry>, r: Request, window: Time): Entry {
    if Alive(entries, r.key, r.now) then entries[r.key].(count := entries[r.key].count + 1)
    else Entry(1, r.now + window)
  }

  /** Redis reports the remaining life in seconds, rounded to the nearest. */
  function Ttl(e: Entry, now: Time): int {
    (e.deadline - now + SECOND / 2) / SECOND
  }

  /** Waiting so many seconds gets to the deadline, to the nearest second and at least for one. */
  predicate ReachesDeadline(seconds: int, now: Time, deadline: Time) {
    && seconds >= 1 && deadline <= now + seconds * SECOND + SECOND / 2
    && (seconds == 1 || now + seconds * SECOND <= deadline + SECOND / 2)
  }

  function Decide(p: Policy, e: Entry, now: Time): Decision {
    Decision(e.count <= p.limit,
             p.limit,
             if p.limit - e.count > 0 then p.limit - e.count else 0,
             if e.count > p.limit then Some(if Ttl(e, now) > 1 then Ttl(e, now) else 1) else None)
  }

  /** A request on a scope without a policy raises, and counts nothing. */
  function Step(s: State, r: Request): State {
    if r.key.scope !in s.policies then s
    else s.(entries := s.entries[r.key := Count(s.entries, r, Window(s.policies[r.key.scope]))])
  }

  predicate Allowed(s: State, r: Request) {
    && r.key.scope in s.policies
    && Count(s.entries, r, Window(s.policies[r.key.scope])).count <= s.policies[r.key.scope].limit
  }

  type Run = History<State, Request>

  function After(h: Run): State {
    match h
    case Start(s) => s
    case Then(past, r) => Step(After(past), r)
  }

  function Fresh(policies: map<Scope, Policy>): State {
    State(policies, map[])
  }

  function NowOf(r: Request): Option<Time> {
    Some(r.now)
  }

  ghost predicate Timed(h: Run) {
    NeverBack(h, NowOf, NowOf)
  }

  predicate Within(now: Time, from: Time, until: Option<Time>) {
    from <= now && (until.Some? ==> now < until.value)
  }

  /** How many requests on the key were let through from `from` on, and before `until` if given. */
  ghost function Passed(h: Run, key: Key, from: Time, until: Option<Time>): nat {
    match h
    case Start(_) => 0
    case Then(past, r) =>
      Passed(past, key, from, until)
      + if r.key == key && Allowed(After(past), r) && Within(r.now, from, until) then 1 else 0
  }

  lemma {:induction false} PoliciesStay(h: Run, policies: map<Scope, Policy>)
    requires StartsFrom(h, Fresh(policies))
    ensures After(h).policies == policies
  {
    if h.Then? { PoliciesStay(h.past, policies); }
  }

  lemma {:induction false} UntilOnlyRestricts(h: Run, key: Key, from: Time, until: Time)
    ensures Passed(h, key, from, Some(until)) <= Passed(h, key, from, None)
  {
    if h.Then? { UntilOnlyRestricts(h.past, key, from, until); }
  }

  lemma {:induction false} NoneYet(h: Run, policies: map<Scope, Policy>, key: Key, from: Time)
    requires StartsFrom(h, Fresh(policies)) && key !in After(h).entries
    ensures Passed(h, key, from, None) == 0
  {
    if h.Then? { NoneYet(h.past, policies, key, from); }
  }

  function Min(a: int, b: int): int {
    if a < b then a else b
  }

  lemma {:induction false} OpenedInThePast(h: Run, policies: map<Scope, Policy>, key: Key)
    requires StartsFrom(h, Fresh(policies)) && Timed(h) && key in After(h).entries
    ensures key.scope in policies && h.Then?
    ensures After(h).entries[key].deadline - Window(policies[key.scope]) <= h.op.now
    ensures After(h).entries[key].count >= 1
  {
    PoliciesStay(h.past, policies);
    if h.op.key != key || h.op.key.scope !in policies || Alive(After(h.past).entries, key, h.op.now) {
      OpenedInThePast(h.past, policies, key);
    }
  }

  /** What the counter says about the requests let through. Let the current window have opened at
      `start`. Nothing passed at or after its end; from `start` on exactly what the counter shows
      has passed; after `start`, one less at most; and from just after the instant one window
      before `start`, at most limit - 1 more. */
  ghost predicate Told(h: Run, key: Key, p: Policy, e: Entry) {
    var start := e.deadline - Window(p);
    && (forall x | x >= e.deadline :: Passed(h, key, x, None) == 0)
    && Passed(h, key, start, None) == Min(e.count, p.limit)
    && (forall x | x > start :: Passed(h, key, x, None) <= Min(e.count, p.limit) - 1)
    && (forall x | x > start - Window(p) :: Passed(h, key, x, None) <= p.limit - 1 + Min(e.count, p.limit))
  }

  lemma ToldAfter(h: Run, r: Request, key: Key, p: Policy, e: Entry)
    requires key in After(h).entries && r.key == key && key.scope in After(h).policies
    requires p == After(h).policies[key.scope]
    requires Told(h, key, p, e) && e == After(h).entries[key] && e.count >= 1
    requires r.now >= e.deadline - Window(p)
    ensures Told(Then(h, r), key, p, Count(After(h).entries, r, Window(p)))
  {
    var e' := Count(After(h).entries, r, Window(p));
    var start' := e'.deadline - Window(p);
    assert Passed(h, key, e.deadline, None) == 0;
    forall x
      ensures Passed(Then(h, r), key, x, None)
        == Passed(h, key, x, None) + if e'.count <= p.limit && x <= r.now then 1 else 0
    {
    }
  }

  lemma {:induction false} CounterTells(h: Run, policies: map<Scope, Policy>, key: Key)
    requires StartsFrom(h, Fresh(policies)) && Timed(h) && key in After(h).entries
    ensures key.scope in policies && Told(h, key, policies[key.scope], After(h).entries[key])
  {
    PoliciesStay(h.past, policies);
    OpenedInThePast(h, policies, key);
    var p := policies[key.scope];
    if h.op.key != key {
      CounterTells(h.past, policies, key);
      SameForOthers(h.past, h.op, key, p, After(h).entries[key]);
    } else if key in After(h.past).entries {
      CounterTells(h.past, policies, key);
      OpenedInThePast(h.past, policies, key);
      ToldAfter(h.past, h.op, key, p, After(h.past).entries[key]);
    } else {
      FirstRequest(h.past, h.op, policies, key, p);
    }
  }

  lemma SameForOthers(h: Run, r: Request, key: Key, p: Policy, e: Entry)
    requires Told(h, key, p, e) && r.key != key
    ensures Told(Then(h, r), key, p, e)
  {
    assert forall x :: Passed(Then(h, r), key, x, None) == Passed(h, key, x, None);
  }

  lemma FirstRequest(h: Run, r: Request, policies: map<Scope, Policy>, key: Key, p: Policy)
    requires StartsFrom(h, Fresh(policies)) && key !in After(h).entries && r.key == key
    requires key.scope in After(h).policies && p == After(h).policies[key.scope]
    ensures Told(Then(h, r), key, p, Entry(1, r.now + Window(p)))
  {
    forall x ensures Passed(Then(h, r), key, x, None) == if x <= r.now then 1 else 0 {
      NoneYet(h, policies, key, x);
    }
  }

  // ---------- The bounds ----------

  /** Over any interval of one window's length, however it lies across the counter's own windows,
      fewer than twice the limit pass. */
  lemma {:induction false} SlidingBound(h: Run, policies: map<Scope, Policy>, key: Key, t: Time)
    requires StartsFrom(h, Fresh(policies)) && Timed(h) && key.scope in policies
    ensures var p := policies[key.scope];
      Passed(h, key, t, Some(t + 1_000_000 * p.windowSeconds)) <= 2 * p.limit - 1
  {
    if h.Then? {
      SlidingBound(h.past, policies, key, t);
      var p := policies[key.scope];
      PoliciesStay(h.past, policies);
      if h.op.key == key && t <= h.op.now < t + Window(p) {
        OpenedInThePast(h, policies, key);
        CounterTells(h, policies, key);
        UntilOnlyRestricts(h, key, t, t + Window(p));
      }
    }
  }

  /** A request is refused exactly if the limit has already passed in the window it falls in,
      which opened less than a window's length ago. */
  lemma RefusedExactlyWhenUsedUp(h: Run, policies: map<Scope, Policy>, r: Request)
    requires StartsFrom(h, Fresh(policies)) && Timed(Then(h, r)) && r.key.scope in policies
    ensures var p, entries := policies[r.key.scope], After(h).entries;
      !Allowed(After(h), r) <==>
        && Alive(entries, r.key, r.now)
        && Passed(h, r.key, entries[r.key].deadline - Window(p), None) == p.limit
  {
    PoliciesStay(h, policies);
    if r.key in After(h).entries {
      CounterTells(h, policies, r.key);
      OpenedInThePast(h, policies, r.key);
    }
  }

  /** `n` requests on the key, all at the same instant. */
  ghost function Burst(h: Run, key: Key, now: Time, n: nat): Run {
    if n == 0 then h else Then(Burst(h, key, now, n - 1), Request(key, now))
  }

  lemma {:induction false} BurstPasses(h: Run, policies: map<Scope, Policy>, key: Key, now: Time, n: nat, from: Time,
                                       until: Time)
    requires After(h).policies == policies && key.scope in policies && StartsFrom(h, Fresh(policies)) && Timed(h)
    requires h.Then? ==> h.op.now <= now
    requires var used := if Alive(After(h).entries, key, now) then After(h).entries[key].count else 0;
      used + n <= policies[key.scope].limit
    requires from <= now < until
    ensures var g, p := Burst(h, key, now, n), policies[key.scope];
      && StartsFrom(g, Fresh(policies)) && Timed(g) && (g.Then? ==> g.op.now <= now)
      && After(g).policies == policies
      && (n > 0 ==>
          && key in After(g).entries
          && After(g).entries[key] == (if Alive(After(h).entries, key, now)
               then Entry(After(h).entries[key].count + n, After(h).entries[key].deadline)
               else Entry(n, now + Window(p))))
      && Passed(g, key, from, Some(until)) == Passed(h, key, from, Some(until)) + n
  {
    if n > 0 {
      BurstPasses(h, policies, key, now, n - 1, from, until);
    }
  }

  /** The sliding bound is reached: one request opens a window, the rest of its limit comes just
      before it ends, and a full limit right after. */
  lemma SlidingBoundIsTight(policies: map<Scope, Policy>, key: Key) returns (h: Run, t: Time)
    requires key.scope in policies
    ensures StartsFrom(h, Fresh(policies)) && Timed(h)
    ensures var p := policies[key.scope];
      Passed(h, key, t, Some(t + 1_000_000 * p.windowSeconds)) == 2 * p.limit - 1
  {
    var p := policies[key.scope];
    var window := Window(p);
    assert window >= SECOND;
    t := window - 1;
    var first := Then(Start(Fresh(policies)), Request(key, 0));
    assert Passed(first, key, t, Some(t + window)) == 0;
    assert After(first).entries[key] == Entry(1, window);
    BurstPasses(first, policies, key, t, p.limit - 1, t, t + window);
    var second := Burst(first, key, t, p.limit - 1);
    assert After(second).entries[key].deadline == window;
    BurstPasses(second, policies, key, window, p.limit, t, t + window);
    h := Burst(second, key, window, p.limit);
  }

  // ---------- The limiter ----------

  class Limiter {
    const policies: map<Scope, Policy>
    var entries: map<Key, Entry>

    constructor (policies: map<Scope, Policy>)
      ensures Store() == Fresh(policies)
    {
      this.policies := policies;
      entries := map[];
    }

    function Store(): State
      reads this
    {
      State(policies, entries)
    }

    /** A scope without a policy raises. */
    method Check(key: Key, now: Time) returns (decision: Option<Decision>)
      modifies this
      ensures Store() == Step(old(Store()), Request(key, now))
      ensures entries - {key} == old(entries) - {key}
      ensures decision.Some? <==> key.scope in policies
      ensures decision.Some? ==> var d := decision.value;
        && ValidDecision(d) && d.limit == policies[key.scope].limit
        && d.allowed == Allowed(old(Store()), Request(key, now))
        && (d.allowed <==> d.retryAfter.None?)
        && (d.allowed ==> d.remaining == d.limit - entries[key].count)
        && (!d.allowed ==> d.remaining == 0 && ReachesDeadline(d.retryAfter.value, now, entries[key].deadline))
    {
      if key.scope !in policies { return None; }
      var p := policies[key.scope];
      var current: int := 0;
      if Alive(entries, key, now) { current := entries[key].count; }
      current := current + 1;
      if current == 1 {
        entries := entries[key := Entry(1, now + Window(p))];
      } else {
        entries := entries[key := entries[key].(count := current)];
      }
      decision := Some(Decide(p, entries[key], now));
    }
  }
}
