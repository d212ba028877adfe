/** Password changes and resets together with the sessions they end: both happen in one
    transaction, so a joint run is a run of each model with the calls in step. */
module AccountSecurity {
  import opened Common
  import P = Passwords
  import S = RefreshSessions
  import SessionSafety
  import SessionTheorems
  import SessionService

  datatype State = State(passwords: P.State, sessions: S.State)

  /** `Account` and `Session` are the calls that concern one side only. */
  datatype Op =
    | Change(user: P.UserId, password: P.Password, hash: P.Hash, policyHolds: bool, current: S.SessionId, now: Time)
    | Reset(token: P.Token, hash: P.Hash, now: Time, policyHolds: bool)
    | Account(account: P.Op)
    | Session(session: S.Op)

  type Run = History<State, Op>

  function PasswordPart(op: Op): Option<P.Op> {
    match op
    case Change(user, password, hash, policyHolds, _, _) => Some(P.Change(user, password, hash, policyHolds))
    case Reset(token, hash, now, policyHolds) => Some(P.Reset(token, hash, now, policyHolds))
    case Account(account) => if account.Change? || account.Reset? then None else Some(account)
    case Session(_) => None
  }

  predicate Accepted(s: State, op: Op) {
    PasswordPart(op).Some? && P.Accepted(s.passwords, PasswordPart(op).value)
  }

  /** An accepted change revokes the user's other sessions, an accepted reset all of them. */
  function SessionPart(s: State, op: Op): Option<S.Op> {
    match op
    case Change(user, _, _, _, current, now) =>
      if Accepted(s, op) then Some(S.RevokeOthers(user, current, now)) else None
    case Reset(token, _, _, _) =>
      if Accepted(s, op) then Some(S.RevokeAll(s.passwords.tokens[token].user)) else None
    case Account(_) => None
    case Session(session) => Some(session)
  }

  ghost function Step(s: State, op: Op): State {
    State(if PasswordPart(op).Some? then P.Step(s.passwords, PasswordPart(op).value) else s.passwords,
          if SessionPart(s, op).Some? then S.Step(s.sessions, SessionPart(s, op).value) else s.sessions)
  }

  ghost function After(h: Run): State {
    match h
    case Start(s) => s
    case Then(past, op) => Step(After(past), op)
  }

  function Empty(depth: nat): State {
    State(P.Empty(depth), S.EMPTY)
  }

  /** A joint step is the step of the password model, and if that is accepted the revocation that
      goes with it; a call of one side leaves the other alone. */
  lemma StepsTogether(s: State, op: Op)
    ensures op.Change? ==>
      var change := P.Change(op.user, op.password, op.hash, op.policyHolds);
      && Step(s, op).passwords == P.Step(s.passwords, change)
      && Step(s, op).sessions == if P.Accepted(s.passwords, change)
                                 then S.Step(s.sessions, S.RevokeOthers(op.user, op.current, op.now)) else s.sessions
    ensures op.Reset? ==>
      var reset := P.Reset(op.token, op.hash, op.now, op.policyHolds);
      && Step(s, op).passwords == P.Step(s.passwords, reset)
      && (P.Accepted(s.passwords, reset) ==>
          && op.token in s.passwords.tokens
          && Step(s, op).sessions == S.Step(s.sessions, S.RevokeAll(s.passwords.tokens[op.token].user)))
      && (!P.Accepted(s.passwords, reset) ==> Step(s, op).sessions == s.sessions)
    ensures op.Account? ==> Step(s, op).sessions == s.sessions
    ensures op.Account? && !op.account.Change? && !op.account.Reset? ==>
      Step(s, op).passwords == P.Step(s.passwords, op.account)
    ensures op.Session? ==> Step(s, op) == State(s.passwords, S.Step(s.sessions, op.session))
  {
  }

  // ---------- The two sides of a run ----------

  ghost function Sessions(h: Run): S.Run {
    match h
    case Start(s) => Start(s.sessions)
    case Then(past, op) =>
      var part := SessionPart(After(past), op);
      if part.Some? then Then(Sessions(past), part.value) else Sessions(past)
  }

  ghost function PasswordRun(h: Run): P.Run {
    match h
    case Start(s) => Start(s.passwords)
    case Then(past, op) =>
      var part := PasswordPart(op);
      if part.Some? then Then(PasswordRun(past), part.value) else PasswordRun(past)
  }

  /** A joint run is a run of sessions and a run of passwords: all that is proved of either holds. */
  lemma {:induction false} SidesOfARun(h: Run, depth: nat)
    requires StartsFrom(h, Empty(depth))
    ensures S.After(Sessions(h)) == After(h).sessions && SessionSafety.FromEmpty(Sessions(h))
    ensures P.After(PasswordRun(h)) == After(h).passwords && StartsFrom(PasswordRun(h), P.Empty(depth))
  {
    if h.Then? { SidesOfARun(h.past, depth); }
  }

  lemma {:induction false} SidesExtend(g: Run, h: Run)
    requires Extends(h, g)
    ensures Extends(Sessions(h), Sessions(g))
    decreases h
  {
    if h != g { SidesExtend(g, h.past); }
  }

  lemma {:induction false} ExtendsKeepsOrigin(g: Run, h: Run, origin: State)
    requires StartsFrom(g, origin) && Extends(h, g)
    ensures StartsFrom(h, origin)
    decreases h
  {
    if h != g { ExtendsKeepsOrigin(g, h.past, origin); }
  }

  /** After an accepted reset, no refresh token issued to the user before ever yields a session
      again, in any later run of sessions, changes and resets. */
  lemma ResetCutsOff(g: Run, reset: Op, h: Run, depth: nat, id: S.SessionId, op: S.Op)
    requires StartsFrom(g, Empty(depth)) && reset.Reset? && Accepted(After(g), reset) && Extends(h, Then(g, reset))
    requires id in S.Ledger(Sessions(g))
    requires S.Ledger(Sessions(g))[id].user == After(g).passwords.tokens[reset.token].user
    requires op.Refresh? && op.token == S.Ledger(Sessions(g))[id].token
    ensures !S.Exchanged(After(h).sessions, op) && S.Added(After(h).sessions, op).None?
  {
    var user := After(g).passwords.tokens[reset.token].user;
    ExtendsKeepsOrigin(Then(g, reset), h, Empty(depth));
    SidesOfARun(g, depth);
    SidesOfARun(h, depth);
    SidesExtend(Then(g, reset), h);
    SessionTheorems.CutOffIsFinal(Sessions(g), S.RevokeAll(user), Sessions(h), user, id, op);
  }

  /** After an accepted change, no refresh token issued to the user before, other than that of the
      session it was made from, ever yields a session again while the clock does not go back. */
  lemma ChangeCutsOffOthers(g: Run, change: Op, h: Run, depth: nat, id: S.SessionId, op: S.Op)
    requires StartsFrom(g, Empty(depth)) && change.Change? && Accepted(After(g), change) && Extends(h, Then(g, change))
    requires id in S.Ledger(Sessions(g)) && S.Ledger(Sessions(g))[id].user == change.user && id != change.current
    requires op.Refresh? && op.token == S.Ledger(Sessions(g))[id].token && S.Timed(Then(Sessions(h), op))
    ensures !S.Exchanged(After(h).sessions, op) && S.Added(After(h).sessions, op).None?
  {
    ExtendsKeepsOrigin(Then(g, change), h, Empty(depth));
    SidesOfARun(g, depth);
    SidesOfARun(h, depth);
    SidesExtend(Then(g, change), h);
    SessionTheorems.OthersAreCutOff(Sessions(g), change.user, change.current, change.now, Sessions(h), id, op);
  }

  // ---------- The service ----------

  class Service {
    const passwords: P.Service
    const sessions: SessionService.Service

    constructor (depth: nat)
      ensures Valid() && Store() == Empty(depth) && fresh(passwords) && fresh(sessions)
    {
      passwords := new P.Service(depth);
      sessions := new SessionService.Service();
    }

    ghost function Store(): State
      reads passwords, sessions
    {
      State(passwords.Store(), sessions.Store())
    }

    ghost predicate Valid()
      reads sessions
    {
      sessions.Valid()
    }

    method ChangePassword(user: P.UserId, password: P.Password, hash: P.Hash, policyHolds: bool,
                          current: S.SessionId, now: Time)
      returns (changed: bool, revoked: nat)
      requires Valid()
      modifies passwords, sessions
      ensures Valid() && Store() == Step(old(Store()), Change(user, password, hash, policyHolds, current, now))
      ensures changed == Accepted(old(Store()), Change(user, password, hash, policyHolds, current, now))
      ensures revoked == if !changed then 0
        else |SessionService.LiveAmong(old(sessions.sessions), S.OthersOf(old(sessions.sessions), user, current, now))|
    {
      revoked := 0;
      changed := passwords.ChangePassword(user, password, hash, policyHolds);
      if changed { revoked := sessions.RevokeOthers(user, current, now); }
    }

    method ResetPassword(token: P.Token, hash: P.Hash, now: Time, policyHolds: bool) returns (reset: bool, revoked: nat)
      requires Valid()
      modifies passwords, sessions
      ensures Valid() && Store() == Step(old(Store()), Reset(token, hash, now, policyHolds))
      ensures reset == Accepted(old(Store()), Reset(token, hash, now, policyHolds))
    {
      revoked := 0;
      var record := if token in passwords.tokens then Some(passwords.tokens[token].user) else None;
      reset := passwords.ResetPassword(token, hash, now, policyHolds);
      if reset { revoked := sessions.RevokeAll(record.value); }
    }
  }
}
