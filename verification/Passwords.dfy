/** Password changes and resets: the history that keeps recent passwords from coming back, and
    the single-use reset tokens. */
module Passwords {
  import opened Common

  type UserId = nat
  type Password = string
  type Token = nat

  /** A salted hash. Verifying a candidate against it is comparing passwords. */
  datatype Hash = Hash(password: Password, salt: nat)

  datatype User = User(hash: Hash, active: bool, deleted: bool)

  datatype Past = Past(user: UserId, hash: Hash)

  datatype ResetToken = ResetToken(user: UserId, used: bool, expiresAt: Time)

  /** `depth` is the configured history depth; `history` lists replaced hashes, oldest first;
      `issued` are the reset tokens generated so far. */
  datatype State = State(
    depth: nat,
    users: map<UserId, User>,
    history: seq<Past>,
    tokens: map<Token, ResetToken>,
    issued: set<Token>)

  /** `policyHolds` stands for the length, character and e-mail rules. */
  datatype Op =
    | Register(user: UserId, hash: Hash)
    | Change(user: UserId, current: Password, hash: Hash, policyHolds: bool)
    | RequestReset(user: UserId, token: Token, now: Time, lifetime: Time)
    | Reset(token: Token, hash: Hash, now: Time, policyHolds: bool)
    | DeleteExpired(now: Time, batch: set<Token>)
    | Deactivate(user: UserId)
    | DeleteUser(user: UserId)

  type Run = History<State, Op>

  predicate Verify(candidate: Password, hash: Hash) {
    hash.password == candidate
  }

  /** The user's replaced hashes, oldest first. */
  function PastOf(history: seq<Past>, user: UserId): seq<Hash> {
    if history == [] then []
    else
      var last := |history| - 1;
      PastOf(history[..last], user) + if history[last].user == user then [history[last].hash] else []
  }

  function LastOf<T>(xs: seq<T>, n: nat): seq<T> {
    if |xs| <= n then xs else xs[|xs| - n..]
  }

  /** The current hash and the most recent replaced ones. */
  function Compared(s: State, user: UserId): seq<Hash>
    requires user in s.users
  {
    [s.users[user].hash] + LastOf(PastOf(s.history, user), s.depth)
  }

  predicate RecentlyUsed(s: State, user: UserId, candidate: Password)
    requires user in s.users
  {
    exists h | h in Compared(s, user) :: Verify(candidate, h)
  }

  predicate Usable(tokens: map<Token, ResetToken>, token: Token, now: Time) {
    token in tokens && !tokens[token].used && now < tokens[token].expiresAt
  }

  function Invalidated(tokens: map<Token, ResetToken>, user: UserId): map<Token, ResetToken> {
    map t | t in tokens :: if tokens[t].user == user then tokens[t].(used := true) else tokens[t]
  }

  /** Whose password the call would replace. */
  function Target(s: State, op: Op): Option<UserId> {
    if op.Change? then Some(op.user)
    else if op.Reset? && Usable(s.tokens, op.token, op.now) then Some(s.tokens[op.token].user)
    else None
  }

  /** The history can be read (the query takes 1 to 100 rows), the candidate is neither weak nor
      recent, and the replaced hash is not in the history yet (a unique constraint). */
  predicate Allowed(s: State, user: UserId, candidate: Password, policyHolds: bool)
    requires user in s.users
  {
    && 1 <= s.depth <= 100
    && policyHolds && !RecentlyUsed(s, user, candidate) && Past(user, s.users[user].hash) !in s.history
  }

  /** The caller is authorised, and the new password, if there is one, is allowed. */
  predicate Accepted(s: State, op: Op) {
    match op
    case Register(user, _) => user !in s.users
    case Change(user, current, hash, policyHolds) =>
      && user in s.users && Verify(current, s.users[user].hash)
      && Allowed(s, user, hash.password, policyHolds)
    case RequestReset(user, token, _, _) =>
      user in s.users && s.users[user].active && !s.users[user].deleted && token !in s.issued
    case Reset(token, hash, now, policyHolds) =>
      && Usable(s.tokens, token, now)
      && var user := s.tokens[token].user;
      && user in s.users && !s.users[user].deleted
      && Allowed(s, user, hash.password, policyHolds)
    case DeleteExpired(_, _) => true
    case Deactivate(user) => user in s.users
    case DeleteUser(user) => user in s.users
  }

  /** The stored hash is replaced only if the account is not deleted; the history row is written
      either way. */
  function Replace(s: State, user: UserId, hash: Hash): State
    requires user in s.users
  {
    var old' := s.users[user];
    s.(history := s.history + [Past(user, old'.hash)],
       users := if old'.deleted then s.users else s.users[user := old'.(hash := hash)])
  }

  function Step(s: State, op: Op): State {
    if !Accepted(s, op) then s
    else
      match op
      case Register(user, hash) => s.(users := s.users[user := User(hash, true, false)])
      case Change(user, _, hash, _) => Replace(s, user, hash)
      case RequestReset(user, token, now, lifetime) =>
        s.(tokens := Invalidated(s.tokens, user)[token := ResetToken(user, false, now + lifetime)],
           issued := s.issued + {token})
      case Reset(token, hash, _, _) =>
        var user := s.tokens[token].user;
        Replace(s, user, hash).(tokens := Invalidated(s.tokens, user))
      case DeleteExpired(now, batch) =>
        s.(tokens := map t | t in s.tokens && !(t in batch && s.tokens[t].expiresAt <= now) :: s.tokens[t])
      case Deactivate(user) => s.(users := s.users[user := s.users[user].(active := false)])
      case DeleteUser(user) => s.(users := s.users[user := s.users[user].(deleted := true)])
  }

  function Empty(depth: nat): State {
    State(depth, map[], [], map[], {})
  }

  function After(h: Run): State {
    match h
    case Start(s) => s
    case Then(past, op) => Step(After(past), op)
  }

  // ---------- The window ----------

  /** Does the call give the user a new password? */
  predicate Gives(s: State, op: Op, user: UserId) {
    Accepted(s, op) &&
    if op.Register? then op.user == user
    else Target(s, op) == Some(user) && !s.users[user].deleted
  }

  /** Every password the user ever had, oldest first, read off the calls. */
  function Held(h: Run, user: UserId): seq<Password> {
    match h
    case Start(_) => []
    case Then(past, op) =>
      Held(past, user) + if Gives(After(past), op, user) then [op.hash.password] else []
  }

  function Words(hashes: seq<Hash>): (words: seq<Password>)
    ensures |words| == |hashes| && forall i | 0 <= i < |words| :: words[i] == hashes[i].password
  {
    seq(|hashes|, i requires 0 <= i < |hashes| => hashes[i].password)
  }

  lemma PastOfAppend(history: seq<Past>, p: Past, user: UserId)
    ensures PastOf(history + [p], user) == PastOf(history, user) + if p.user == user then [p.hash] else []
  {
    assert (history + [p])[..|history|] == history;
  }

  lemma {:induction false} DepthStays(h: Run, depth: nat)
    requires StartsFrom(h, Empty(depth))
    ensures After(h).depth == depth
  {
    if h.Then? { DepthStays(h.past, depth); }
  }

  lemma {:induction false} NoPastForStrangers(history: seq<Past>, user: UserId)
    requires forall p | p in history :: p.user != user
    ensures PastOf(history, user) == []
  {
    if history != [] { NoPastForStrangers(history[..|history| - 1], user); }
  }

  lemma {:induction false} StrangersHaveNothing(h: Run, depth: nat, user: UserId)
    requires StartsFrom(h, Empty(depth)) && user !in After(h).users
    ensures Held(h, user) == []
    ensures forall p | p in After(h).history :: p.user != user
  {
    if h.Then? { StrangersHaveNothing(h.past, depth, user); }
  }

  lemma ReplaceFilesTheOld(s: State, target: UserId, hash: Hash, user: UserId)
    requires target in s.users && user in s.users
    ensures PastOf(Replace(s, target, hash).history, user)
      == PastOf(s.history, user) + if target == user then [s.users[user].hash] else []
  {
    PastOfAppend(s.history, Past(target, s.users[target].hash), user);
  }

  /** A call that gives a living account a new password files the old one; no other call
      touches the account's hash or its history. */
  lemma OneCall(s: State, op: Op, user: UserId)
    requires user in s.users && user in Step(s, op).users && !Step(s, op).users[user].deleted
    ensures !s.users[user].deleted
    ensures Gives(s, op, user) ==>
      && PastOf(Step(s, op).history, user) == PastOf(s.history, user) + [s.users[user].hash]
      && Step(s, op).users[user].hash == op.hash
    ensures !Gives(s, op, user) ==>
      && PastOf(Step(s, op).history, user) == PastOf(s.history, user)
      && Step(s, op).users[user].hash == s.users[user].hash
  {
    if Accepted(s, op) && Target(s, op).Some? {
      ReplaceFilesTheOld(s, Target(s, op).value, op.hash, user);
    }
  }

  /** The passwords on record for the account, the current one last. */
  function OnRecord(s: State, user: UserId): seq<Password>
    requires user in s.users
  {
    Words(PastOf(s.history, user)) + [s.users[user].hash.password]
  }

  lemma RecordGrows(s: State, op: Op, user: UserId)
    requires user in s.users && user in Step(s, op).users && !Step(s, op).users[user].deleted
    ensures OnRecord(Step(s, op), user) == OnRecord(s, user) + if Gives(s, op, user) then [op.hash.password] else []
  {
    OneCall(s, op, user);
    WordsAppend(PastOf(s.history, user), s.users[user].hash);
  }

  lemma RecordStarts(s: State, op: Op, user: UserId)
    requires user !in s.users && user in Step(s, op).users && forall p | p in s.history :: p.user != user
    ensures Gives(s, op, user) && OnRecord(Step(s, op), user) == [op.hash.password]
  {
    NoPastForStrangers(s.history, user);
  }

  /** While the account lives, its history and current hash are the passwords it ever had. */
  lemma {:induction false} HistoryIsComplete(h: Run, depth: nat, user: UserId)
    requires StartsFrom(h, Empty(depth)) && user in After(h).users && !After(h).users[user].deleted
    ensures Held(h, user) == OnRecord(After(h), user)
  {
    var s := After(h.past);
    if user !in s.users {
      StrangersHaveNothing(h.past, depth, user);
      RecordStarts(s, h.op, user);
    } else {
      OneCall(s, h.op, user);
      HistoryIsComplete(h.past, depth, user);
      RecordGrows(s, h.op, user);
    }
  }

  lemma WordsAppend(hashes: seq<Hash>, next: Hash)
    ensures Words(hashes + [next]) == Words(hashes) + [next.password]
  {
  }

  /** A candidate that is not recently used differs from the last depth + 1 passwords held. */
  lemma NotRecentMeansNew(s: State, user: UserId, candidate: Password, held: seq<Password>, i: nat)
    requires user in s.users && !RecentlyUsed(s, user, candidate)
    requires held == OnRecord(s, user)
    requires i < |held| && |held| - i <= s.depth + 1
    ensures held[i] != candidate
  {
    var past := PastOf(s.history, user);
    var recent := LastOf(past, s.depth);
    if i == |past| {
      assert s.users[user].hash in Compared(s, user);
    } else {
      assert past[i] == recent[i - (|past| - |recent|)];
      assert past[i] in recent;
      assert past[i] in Compared(s, user);
    }
  }

  /** Over any run of changes and resets, any depth + 2 consecutive passwords of a user are
      pairwise distinct. */
  lemma {:induction false} WindowIsDistinct(h: Run, depth: nat, user: UserId, i: nat, j: nat)
    requires StartsFrom(h, Empty(depth)) && i < j < |Held(h, user)| && j - i <= depth + 1
    ensures Held(h, user)[i] != Held(h, user)[j]
  {
    var s, op, before := After(h.past), h.op, Held(h.past, user);
    if j < |before| {
      WindowIsDistinct(h.past, depth, user, i, j);
    } else {
      DepthStays(h.past, depth);
      if op.Register? {
        StrangersHaveNothing(h.past, depth, user);
      } else {
        HistoryIsComplete(h.past, depth, user);
        NotRecentMeansNew(s, user, op.hash.password, before, i);
      }
    }
  }

  // ---------- Reset tokens ----------

  /** No reset by this token can succeed. */
  predicate Spent(s: State, token: Token) {
    token in s.issued && (token in s.tokens ==> s.tokens[token].used)
  }

  lemma {:induction false} SpentStaysSpent(g: Run, h: Run, token: Token)
    requires Extends(h, g) && Spent(After(g), token)
    ensures Spent(After(h), token)
    decreases h
  {
    if h != g { SpentStaysSpent(g, h.past, token); }
  }

  lemma {:induction false} TokensAreIssued(h: Run, depth: nat)
    requires StartsFrom(h, Empty(depth))
    ensures forall t | t in After(h).tokens :: t in After(h).issued
  {
    if h.Then? { TokensAreIssued(h.past, depth); }
  }

  /** A successful reset or a new request spends every token issued to the user before it, so
      a token resets a password once at most and only until the next is requested. */
  lemma ResetSpendsAllTokens(g: Run, op: Op, h: Run, depth: nat, token: Token, later: Op)
    requires StartsFrom(g, Empty(depth)) && Extends(h, Then(g, op))
    requires op.Reset? || op.RequestReset?
    requires Accepted(After(g), op)
    requires token in After(g).tokens
    requires After(g).tokens[token].user == if op.Reset? then After(g).tokens[op.token].user else op.user
    requires later.Reset? && later.token == token
    ensures !Accepted(After(h), later)
  {
    TokensAreIssued(g, depth);
    SpentStaysSpent(Then(g, op), h, token);
  }

  // ---------- The service ----------

  class Service {
    const depth: nat
    var users: map<UserId, User>
    var history: seq<Past>
    var tokens: map<Token, ResetToken>
    ghost var issued: set<Token>

    constructor (depth: nat)
      ensures Store() == Empty(depth)
    {
      this.depth := depth;
      users, history, tokens, issued := map[], [], map[], {};
    }

    ghost function Store(): State
      reads this
    {
      State(depth, users, history, tokens, issued)
    }

    /** The candidate against the current hash and the recent ones, one at a time. */
    method MatchesRecent(user: UserId, candidate: Password) returns (found: bool)
      requires user in users
      ensures found <==> RecentlyUsed(Store(), user, candidate)
    {
      var hashes := [users[user].hash] + LastOf(PastOf(history, user), depth);
      found := false;
      for i := 0 to |hashes|
        invariant found <==> exists h | h in hashes[..i] :: Verify(candidate, h)
      {
        assert hashes[..i + 1] == hashes[..i] + [hashes[i]];
        if Verify(candidate, hashes[i]) { found := true; }
      }
      assert hashes[..|hashes|] == hashes;
    }

    method ChangePassword(user: UserId, current: Password, hash: Hash, policyHolds: bool) returns (changed: bool)
      modifies this
      ensures changed == Accepted(old(Store()), Op.Change(user, current, hash, policyHolds))
      ensures changed ==> user in old(users) && old(users)[user].hash.password == current
      ensures changed && !old(users)[user].deleted ==> user in users && users[user].hash == hash
      ensures Store() == Step(old(Store()), Op.Change(user, current, hash, policyHolds))
    {
      if user !in users || !Verify(current, users[user].hash) { return false; }
      if !(1 <= depth <= 100) { return false; }
      var recent := MatchesRecent(user, hash.password);
      if !policyHolds || recent { return false; }
      var replaced := Past(user, users[user].hash);
      if replaced in history { return false; }
      history := history + [replaced];
      if !users[user].deleted { users := users[user := users[user].(hash := hash)]; }
      changed := true;
    }

    method ResetPassword(token: Token, hash: Hash, now: Time, policyHolds: bool) returns (reset: bool)
      modifies this
      ensures reset == Accepted(old(Store()), Op.Reset(token, hash, now, policyHolds))
      ensures reset ==> token in old(tokens) && !old(tokens)[token].used && now < old(tokens)[token].expiresAt
      ensures reset ==> var user := old(tokens)[token].user; user in users && users[user].hash == hash
      ensures Store() == Step(old(Store()), Op.Reset(token, hash, now, policyHolds))
    {
      if !Usable(tokens, token, now) { return false; }
      var user := tokens[token].user;
      if user !in users || users[user].deleted { return false; }
      if !(1 <= depth <= 100) { return false; }
      var recent := MatchesRecent(user, hash.password);
      if !policyHolds || recent { return false; }
      var replaced := Past(user, users[user].hash);
      if replaced in history { return false; }
      tokens := tokens[token := tokens[token].(used := true)];
      history := history + [replaced];
      users := users[user := users[user].(hash := hash)];
      tokens := Invalidated(tokens, user);
      reset := true;
    }

    /** The token comes from a generator that never repeats one. */
    method RequestReset(user: UserId, token: Token, now: Time, lifetime: Time) returns (sent: bool)
      requires token !in issued
      modifies this
      ensures sent == Accepted(old(Store()), Op.RequestReset(user, token, now, lifetime))
      ensures Store() == Step(old(Store()), Op.RequestReset(user, token, now, lifetime))
    {
      sent := user in users && users[user].active && !users[user].deleted;
      if sent {
        tokens := Invalidated(tokens, user);
        tokens := tokens[token := ResetToken(user, false, now + lifetime)];
        issued := issued + {token};
      }
    }
  }
}
