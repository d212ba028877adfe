/** Exactly when a password is changed or reset, in terms of the passwords an account has had and
    the tokens it was given; and what every call leaves. */
module PasswordEffects {
  import opened Common
  import opened Passwords

  // ---------- Candidates ----------

  /** The candidate is one of the last depth + 1 passwords. */
  ghost predicate AmongLast(held: seq<Password>, depth: nat, candidate: Password) {
    exists i :: 0 <= i < |held| && |held| - 1 - depth <= i && held[i] == candidate
  }

  lemma RecentIsAmongLast(past: seq<Hash>, current: Hash, depth: nat, h: Hash)
    requires h in [current] + LastOf(past, depth)
    ensures AmongLast(Words(past) + [current.password], depth, h.password)
  {
    var recent, held := LastOf(past, depth), Words(past) + [current.password];
    if h == current {
      assert held[|past|] == h.password;
    } else {
      assert h in recent;
      var i :| 0 <= i < |recent| && recent[i] == h;
      assert past[|past| - |recent| + i] == h;
      assert held[|past| - |recent| + i] == h.password;
    }
  }

  lemma AmongLastIsRecent(past: seq<Hash>, current: Hash, depth: nat, candidate: Password) returns (h: Hash)
    requires AmongLast(Words(past) + [current.password], depth, candidate)
    ensures h in [current] + LastOf(past, depth) && h.password == candidate
  {
    var recent, held := LastOf(past, depth), Words(past) + [current.password];
    var i :| 0 <= i < |held| && |held| - 1 - depth <= i && held[i] == candidate;
    if i == |past| {
      h := current;
    } else {
      h := recent[i - (|past| - |recent|)];
      assert h in recent;
    }
  }

  lemma RecentExactlyIf(s: State, user: UserId, candidate: Password)
    requires user in s.users
    ensures RecentlyUsed(s, user, candidate) <==> AmongLast(OnRecord(s, user), s.depth, candidate)
  {
    var past, current := PastOf(s.history, user), s.users[user].hash;
    if RecentlyUsed(s, user, candidate) {
      var h :| h in Compared(s, user) && Verify(candidate, h);
      RecentIsAmongLast(past, current, s.depth, h);
    }
    if AmongLast(OnRecord(s, user), s.depth, candidate) {
      var h := AmongLastIsRecent(past, current, s.depth, candidate);
      assert h in Compared(s, user) && Verify(candidate, h);
    }
  }

  /** The history can be read, the rules hold, the candidate is not among the last passwords, and
      the hash to be filed is not on file yet. */
  ghost predicate MayReplace(s: State, user: UserId, candidate: Password, policyHolds: bool)
    requires user in s.users
  {
    && 1 <= s.depth <= 100 && policyHolds
    && !AmongLast(OnRecord(s, user), s.depth, candidate)
    && forall p | p in s.history :: p.user != user || p.hash != s.users[user].hash
  }

  lemma AllowedExactlyIf(s: State, user: UserId, candidate: Password, policyHolds: bool)
    requires user in s.users
    ensures Allowed(s, user, candidate, policyHolds) <==> MayReplace(s, user, candidate, policyHolds)
  {
    RecentExactlyIf(s, user, candidate);
  }

  /** A change is accepted exactly if the caller names the account's password and the new one may
      replace it. */
  lemma ChangeAcceptedExactlyIf(s: State, op: Op)
    requires op.Change?
    ensures Accepted(s, op) <==>
      && op.user in s.users && s.users[op.user].hash.password == op.current
      && MayReplace(s, op.user, op.hash.password, op.policyHolds)
  {
    if op.user in s.users { AllowedExactlyIf(s, op.user, op.hash.password, op.policyHolds); }
  }

  /** In any run, a living account's password changes exactly if the caller names the last one it
      was given, and the new one is none of the last depth + 1. */
  lemma ChangeNamesTheLastPassword(h: Run, depth: nat, op: Op)
    requires StartsFrom(h, Empty(depth)) && op.Change?
    requires op.user in After(h).users && !After(h).users[op.user].deleted
    ensures var held := Held(h, op.user);
      && held != []
      && (Accepted(After(h), op) <==>
          && op.current == held[|held| - 1]
          && 1 <= depth <= 100 && op.policyHolds && !AmongLast(held, depth, op.hash.password)
          && forall p | p in After(h).history :: p.user != op.user || p.hash != After(h).users[op.user].hash)
  {
    HistoryIsComplete(h, depth, op.user);
    DepthStays(h, depth);
    ChangeAcceptedExactlyIf(After(h), op);
  }

  // ---------- Reset tokens ----------

  /** The owner and the expiry of a token that can still be used, read off the calls alone: it was
      given on request, and since then the owner has neither been given another nor reset the
      password, and the token has not been deleted as expired. */
  ghost function Standing(h: Run, token: Token): Option<(UserId, Time)> {
    match h
    case Start(_) => None
    case Then(past, op) =>
      var was := Standing(past, token);
      if !Accepted(After(past), op) then was
      else if op.RequestReset? && op.token == token then Some((op.user, op.now + op.lifetime))
      else if was.None? then None
      else if op.RequestReset? && op.user == was.value.0 then None
      else if op.Reset? && Standing(past, op.token).Some? && Standing(past, op.token).value.0 == was.value.0 then None
      else if op.DeleteExpired? && token in op.batch && was.value.1 <= op.now then None
      else was
  }

  /** A stored token that has not been used. */
  ghost function Unused(s: State, token: Token): Option<(UserId, Time)> {
    if token in s.tokens && !s.tokens[token].used then Some((s.tokens[token].user, s.tokens[token].expiresAt)) else None
  }

  lemma {:induction false} StandingIsStored(h: Run, depth: nat, token: Token)
    requires StartsFrom(h, Empty(depth))
    ensures Standing(h, token) == Unused(After(h), token)
  {
    if h.Then? {
      StandingIsStored(h.past, depth, token);
      TokensAreIssued(h.past, depth);
      if h.op.Reset? { StandingIsStored(h.past, depth, h.op.token); }
      TokenStep(After(h.past), h.op, token);
    }
  }

  /** What one call makes of an unused token. */
  lemma TokenStep(s: State, op: Op, token: Token)
    requires token in s.tokens ==> token in s.issued
    ensures Unused(Step(s, op), token) ==
      var was := Unused(s, token);
      if !Accepted(s, op) then was
      else if op.RequestReset? && op.token == token then Some((op.user, op.now + op.lifetime))
      else if was.None? then None
      else if op.RequestReset? && op.user == was.value.0 then None
      else if op.Reset? && Unused(s, op.token).Some? && Unused(s, op.token).value.0 == was.value.0 then None
      else if op.DeleteExpired? && token in op.batch && was.value.1 <= op.now then None
      else was
  {
  }

  /** In any run, a reset is accepted exactly if its token still stands, its expiry has not come, the
      owner is not deleted, and the new password may replace the old. */
  lemma ResetNeedsAStandingToken(h: Run, depth: nat, op: Op)
    requires StartsFrom(h, Empty(depth)) && op.Reset?
    ensures Accepted(After(h), op) <==>
      && Standing(h, op.token).Some? && op.now < Standing(h, op.token).value.1
      && Standing(h, op.token).value.0 in After(h).users
      && !After(h).users[Standing(h, op.token).value.0].deleted
      && MayReplace(After(h), Standing(h, op.token).value.0, op.hash.password, op.policyHolds)
  {
    StandingIsStored(h, depth, op.token);
    if Standing(h, op.token).Some? && Standing(h, op.token).value.0 in After(h).users {
      AllowedExactlyIf(After(h), Standing(h, op.token).value.0, op.hash.password, op.policyHolds);
    }
  }

  // ---------- What the calls leave ----------

  lemma RegisterDoes(s: State, op: Op)
    requires op.Register?
    ensures Step(s, op) ==
      if op.user in s.users then s
      else State(s.depth, s.users[op.user := User(op.hash, true, false)], s.history, s.tokens, s.issued)
  {
  }

  /** A change files the old hash; the account gets the new one unless it is deleted. */
  lemma ChangeDoes(s: State, op: Op)
    requires op.Change? && Accepted(s, op)
    ensures var u := s.users[op.user];
      Step(s, op) == State(s.depth,
        if u.deleted then s.users else s.users[op.user := User(op.hash, u.active, false)],
        s.history + [Past(op.user, u.hash)], s.tokens, s.issued)
  {
  }

  /** A reset does the same for the owner of the token, and uses up all of the owner's tokens. */
  lemma ResetDoes(s: State, op: Op, token: Token)
    requires op.Reset? && Accepted(s, op)
    ensures op.token in s.tokens && s.tokens[op.token].user in s.users
    ensures var owner := s.tokens[op.token].user; var u := s.users[owner];
      && Step(s, op).users == s.users[owner := User(op.hash, u.active, false)]
      && Step(s, op).history == s.history + [Past(owner, u.hash)]
      && Step(s, op).depth == s.depth && Step(s, op).issued == s.issued
      && Step(s, op).tokens.Keys == s.tokens.Keys
      && (token in s.tokens ==>
          var t := s.tokens[token];
          Step(s, op).tokens[token] == ResetToken(t.user, t.used || t.user == owner, t.expiresAt))
  {
  }

  /** A request gives an active, undeleted account a token, and uses up its others. */
  lemma RequestDoes(s: State, op: Op, token: Token)
    requires op.RequestReset? && op.token !in s.issued && forall t | t in s.tokens :: t in s.issued
    ensures
      if op.user in s.users && s.users[op.user].active && !s.users[op.user].deleted then
        && Step(s, op).users == s.users && Step(s, op).history == s.history && Step(s, op).depth == s.depth
        && Step(s, op).tokens.Keys == s.tokens.Keys + {op.token}
        && Step(s, op).tokens[op.token] == ResetToken(op.user, false, op.now + op.lifetime)
        && (token in s.tokens ==>
            var t := s.tokens[token];
            Step(s, op).tokens[token] == ResetToken(t.user, t.used || t.user == op.user, t.expiresAt))
      else Step(s, op) == s
  {
  }

  /** Cleanup deletes of the batch what has expired; nothing else changes. */
  lemma DeletionDoes(s: State, op: Op, token: Token)
    requires op.DeleteExpired?
    ensures Step(s, op).users == s.users && Step(s, op).history == s.history
    ensures Step(s, op).depth == s.depth && Step(s, op).issued == s.issued
    ensures token in Step(s, op).tokens <==>
      token in s.tokens && (token in op.batch ==> op.now < s.tokens[token].expiresAt)
    ensures token in Step(s, op).tokens ==> Step(s, op).tokens[token] == s.tokens[token]
  {
  }

  lemma AccountFlagsDo(s: State, op: Op)
    requires op.Deactivate? || op.DeleteUser?
    ensures Step(s, op) ==
      if op.user !in s.users then s
      else
        var u := s.users[op.user];
        var u' := if op.Deactivate? then User(u.hash, false, u.deleted) else User(u.hash, u.active, true);
        State(s.depth, s.users[op.user := u'], s.history, s.tokens, s.issued)
  {
  }
}
