/** Refresh sessions: opaque single-use tokens, rotated within a family, revoked as a whole when
    a used token comes back, and deleted in batches long after they expire. */
module RefreshSessions {
  import opened Common

  type SessionId = nat
  type FamilyId = nat
  type UserId = nat
  /** A token stands for its hash: hashing is taken as injective. */
  type Token = nat

  datatype Session = Session(
    user: UserId,
    token: Token,
    family: FamilyId,
    parent: Option<SessionId>,
    rotation: nat,
    expiresAt: Time,
    revoked: bool)

  datatype Account = Account(active: bool, locked: bool, lockedUntil: Option<Time>, deleted: bool, verified: bool)

  /** The stored rows, and the identifiers handed out so far: a generator never repeats one. */
  datatype State = State(
    sessions: map<SessionId, Session>,
    accounts: map<UserId, Account>,
    usedIds: set<SessionId>,
    usedTokens: set<Token>,
    usedFamilies: set<FamilyId>)

  const EMPTY := State(map[], map[], {}, {}, {})

  datatype Op =
    | Create(user: UserId, id: SessionId, token: Token, family: FamilyId, now: Time, lifetime: Time)
    | Refresh(token: Token, id: SessionId, next: Token, now: Time, requireVerified: bool, checkedAt: Time)
    | Revoke(id: SessionId)
    | RevokeAll(user: UserId)
    | RevokeOthers(user: UserId, current: SessionId, now: Time)
    | Cleanup(now: Time, retention: Time, expire: set<SessionId>, delete: set<SessionId>)
    | SetAccount(user: UserId, account: Option<Account>)

  type Run = History<State, Op>

  // ---------- Queries ----------

  predicate HasToken(sessions: map<SessionId, Session>, id: SessionId, token: Token) {
    id in sessions && sessions[id].token == token
  }

  ghost function FindToken(sessions: map<SessionId, Session>, token: Token): (found: Option<SessionId>)
    ensures found.Some? ==> HasToken(sessions, found.value, token)
    ensures found.None? ==> forall id :: !HasToken(sessions, id, token)
  {
    if exists id :: HasToken(sessions, id, token) then
      var id :| HasToken(sessions, id, token);
      Some(id)
    else None
  }

  function OfFamily(sessions: map<SessionId, Session>, family: FamilyId): set<SessionId> {
    set id | id in sessions && sessions[id].family == family
  }

  function OfUser(sessions: map<SessionId, Session>, user: UserId): set<SessionId> {
    set id | id in sessions && sessions[id].user == user
  }

  function OthersOf(sessions: map<SessionId, Session>, user: UserId, current: SessionId, now: Time): set<SessionId> {
    set id | id in sessions && sessions[id].user == user && id != current && sessions[id].expiresAt > now
  }

  function RevokeSet(sessions: map<SessionId, Session>, ids: set<SessionId>): map<SessionId, Session> {
    map id | id in sessions :: if id in ids then sessions[id].(revoked := true) else sessions[id]
  }

  predicate HasChild(sessions: map<SessionId, Session>, id: SessionId) {
    exists c | c in sessions :: sessions[c].parent == Some(id)
  }

  // ---------- Cleanup ----------

  function Overdue(sessions: map<SessionId, Session>, now: Time, batch: set<SessionId>): set<SessionId> {
    set id | id in batch && id in sessions && sessions[id].expiresAt <= now
  }

  /** Only revoked sessions long past their expiry go, and only those no stored session descends from. */
  function Removable(sessions: map<SessionId, Session>, expiredBefore: Time, batch: set<SessionId>): set<SessionId> {
    set id | id in batch && id in sessions && sessions[id].revoked && sessions[id].expiresAt <= expiredBefore
      && !HasChild(sessions, id)
  }

  function CleanUp(sessions: map<SessionId, Session>, op: Op): map<SessionId, Session>
    requires op.Cleanup?
  {
    var revoked := RevokeSet(sessions, Overdue(sessions, op.now, op.expire));
    revoked - Removable(revoked, op.now - op.retention, op.delete)
  }

  // ---------- Rotation ----------

  predicate Eligible(account: Account, requireVerified: bool, now: Time) {
    var lockActive := account.locked && (account.lockedUntil.None? || account.lockedUntil.value > now);
    account.active && !lockActive && !account.deleted && (account.verified || !requireVerified)
  }

  predicate UserEligible(s: State, user: UserId, requireVerified: bool, now: Time) {
    user in s.accounts && Eligible(s.accounts[user], requireVerified, now)
  }

  datatype Verdict = Unknown | Reused | Expired | Rotated

  ghost function Judge(s: State, op: Op): Verdict
    requires op.Refresh?
  {
    var found := FindToken(s.sessions, op.token);
    if found.None? then Unknown
    else
      var current := s.sessions[found.value];
      if current.revoked then Reused
      else if current.expiresAt <= op.now then Expired
      else Rotated
  }

  ghost function Current(s: State, op: Op): SessionId
    requires op.Refresh? && Judge(s, op) != Unknown
  {
    FindToken(s.sessions, op.token).value
  }

  /** The generators hand out only what was never handed out. */
  ghost predicate Fresh(s: State, op: Op) {
    match op
    case Create(_, id, token, family, _, _) => id !in s.usedIds && token !in s.usedTokens && family !in s.usedFamilies
    case Refresh(_, id, next, _, _, _) => Judge(s, op) == Rotated ==> id !in s.usedIds && next !in s.usedTokens
    case _ => true
  }

  function Child(current: Session, currentId: SessionId, next: Token): Session {
    current.(token := next, parent := Some(currentId), rotation := current.rotation + 1, revoked := false)
  }

  /** The session a call adds, if it adds one. */
  ghost function Added(s: State, op: Op): Option<Session> {
    if !Fresh(s, op) then None
    else if op.Create? then Some(Session(op.user, op.token, op.family, None, 0, op.now + op.lifetime, false))
    else if op.Refresh? && Judge(s, op) == Rotated then
      Some(Child(s.sessions[Current(s, op)], Current(s, op), op.next))
    else None
  }

  /** The caller is handed new tokens. */
  ghost predicate Exchanged(s: State, op: Op) {
    && op.Refresh? && Fresh(s, op) && Judge(s, op) == Rotated
    && UserEligible(s, s.sessions[Current(s, op)].user, op.requireVerified, op.checkedAt)
  }

  ghost function RefreshSessionRows(s: State, op: Op): map<SessionId, Session>
    requires op.Refresh? && Fresh(s, op)
  {
    match Judge(s, op)
    case Unknown => s.sessions
    case Reused => RevokeSet(s.sessions, OfFamily(s.sessions, s.sessions[Current(s, op)].family))
    case Expired => RevokeSet(s.sessions, {Current(s, op)})
    case Rotated =>
      var id := Current(s, op);
      var rotated := RevokeSet(s.sessions, {id})[op.id := Child(s.sessions[id], id, op.next)];
      if Exchanged(s, op) then rotated
      else RevokeSet(rotated, OfUser(rotated, s.sessions[id].user))
  }

  ghost function Step(s: State, op: Op): State {
    if !Fresh(s, op) then s
    else
      match op
      case Create(_, id, token, family, _, _) =>
        s.(sessions := s.sessions[id := Added(s, op).value],
           usedIds := s.usedIds + {id}, usedTokens := s.usedTokens + {token}, usedFamilies := s.usedFamilies + {family})
      case Refresh(_, id, next, _, _, _) =>
        var s' := s.(sessions := RefreshSessionRows(s, op));
        if Judge(s, op) == Rotated then s'.(usedIds := s.usedIds + {id}, usedTokens := s.usedTokens + {next}) else s'
      case Revoke(id) => s.(sessions := RevokeSet(s.sessions, {id}))
      case RevokeAll(user) => s.(sessions := RevokeSet(s.sessions, OfUser(s.sessions, user)))
      case RevokeOthers(user, current, now) =>
        s.(sessions := RevokeSet(s.sessions, OthersOf(s.sessions, user, current, now)))
      case Cleanup(_, _, _, _) => s.(sessions := CleanUp(s.sessions, op))
      case SetAccount(user, account) =>
        s.(accounts := if account.Some? then s.accounts[user := account.value] else s.accounts - {user})
  }

  ghost function After(h: Run): State {
    match h
    case Start(s) => s
    case Then(past, op) => Step(After(past), op)
  }

  /** Every session the run ever added, as it was added. Nothing leaves the ledger. */
  ghost function Ledger(h: Run): map<SessionId, Session> {
    match h
    case Start(_) => map[]
    case Then(past, op) =>
      var added := Added(After(past), op);
      if added.Some? then Ledger(past)[op.id := added.value] else Ledger(past)
  }

  function NowOf(op: Op): Option<Time> {
    match op
    case Create(_, _, _, _, now, _) => Some(now)
    case Refresh(_, _, _, now, _, _) => Some(now)
    case RevokeOthers(_, _, now) => Some(now)
    case Cleanup(now, _, _, _) => Some(now)
    case _ => None
  }

  ghost function Clock(h: Run): Option<Time> {
    LastReading(h, NowOf)
  }

  /** Cleanup keeps sessions for a retention that is not negative. */
  ghost predicate Retained(h: Run) {
    h.Then? ==> Retained(h.past) && (h.op.Cleanup? ==> h.op.retention >= 0)
  }

  /** The clock never goes back, and retention is not negative. */
  ghost predicate Timed(h: Run) {
    NeverBack(h, NowOf, NowOf) && Retained(h)
  }
}
