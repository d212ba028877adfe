/** What each session call does, told by the fields of the rows it finds and leaves; and that a
    session nobody disturbs stays good. */
module SessionEffects {
  import opened Common
  import opened RefreshSessions
  import opened SessionSafety
  import opened SessionTheorems

  /** The unique index on the token column: a token finds at most one stored session. */
  ghost predicate Indexed(s: State) {
    && (forall id | id in s.sessions :: id in s.usedIds && s.sessions[id].token in s.usedTokens)
    && (forall a, b | a in s.sessions && b in s.sessions && s.sessions[a].token == s.sessions[b].token :: a == b)
  }

  lemma {:induction false} StepKeepsIndexed(s: State, op: Op)
    requires Indexed(s)
    ensures Indexed(Step(s, op))
  {
    var s' := Step(s, op);
    UsedOnlyGrows(s, op);
    if Added(s, op).Some? { AddingStep(s, op); }
    forall a | a in s'.sessions
      ensures a in s'.usedIds && s'.sessions[a].token in s'.usedTokens
      ensures a in s.sessions ==> s.sessions[a].token == s'.sessions[a].token
      ensures a !in s.sessions ==> Added(s, op).Some? && a == op.id && s'.sessions[a].token == Added(s, op).value.token
    {
      StepAddsAtMostOne(s, op, a);
      if Added(s, op).Some? && op.Refresh? { RotationInStages(s, op); }
    }
  }

  lemma IndexFinds(s: State, id: SessionId, token: Token)
    requires Indexed(s) && HasToken(s.sessions, id, token)
    ensures FindToken(s.sessions, token) == Some(id)
  {
  }

  // ---------- Who may exchange a token ----------

  /** Active, not deleted, verified if that is required, and not under a lock that still holds. */
  ghost predicate MayLogIn(account: Account, requireVerified: bool, now: Time) {
    && account.active && !account.deleted && (requireVerified ==> account.verified)
    && (account.locked ==> account.lockedUntil.Some? && account.lockedUntil.value <= now)
  }

  /** A rotation hands out tokens exactly if the owner has an account that may log in. */
  lemma ExchangedExactlyIf(s: State, op: Op)
    requires op.Refresh? && Fresh(s, op) && Judge(s, op) == Rotated
    ensures var user := s.sessions[Current(s, op)].user;
      Exchanged(s, op) <==> user in s.accounts && MayLogIn(s.accounts[user], op.requireVerified, op.checkedAt)
  {
  }

  /** What becomes of a presented token: unknown if no session bears it, reused if that session is
      revoked, expired from its deadline on, and otherwise rotated. */
  lemma JudgedExactly(s: State, op: Op, id: SessionId)
    requires Indexed(s) && op.Refresh? && id in s.sessions && s.sessions[id].token == op.token
    ensures Judge(s, op) == (if s.sessions[id].revoked then Reused
                             else if s.sessions[id].expiresAt <= op.now then Expired else Rotated)
    ensures Current(s, op) == id
  {
    IndexFinds(s, id, op.token);
  }

  lemma UnknownExactlyIf(s: State, op: Op)
    requires op.Refresh?
    ensures Judge(s, op) == Unknown <==> forall id | id in s.sessions :: s.sessions[id].token != op.token
  {
    if Judge(s, op) == Unknown {
      forall id | id in s.sessions ensures s.sessions[id].token != op.token {
        assert !HasToken(s.sessions, id, op.token);
      }
    }
  }

  // ---------- What the calls leave ----------

  /** The row, revoked if it was or if `also` holds. */
  function Revoking(x: Session, also: bool): Session {
    Session(x.user, x.token, x.family, x.parent, x.rotation, x.expiresAt, x.revoked || also)
  }

  lemma CreateDoes(s: State, op: Op)
    requires op.Create? && op.id !in s.usedIds && op.token !in s.usedTokens && op.family !in s.usedFamilies
    ensures Step(s, op).sessions
      == s.sessions[op.id := Session(op.user, op.token, op.family, None, 0, op.now + op.lifetime, false)]
    ensures Step(s, op).accounts == s.accounts
  {
  }

  /** A reused token revokes its family, and nothing else. */
  lemma ReuseDoes(s: State, op: Op, id: SessionId, x: SessionId)
    requires Indexed(s) && op.Refresh? && id in s.sessions && s.sessions[id].token == op.token
    requires s.sessions[id].revoked
    ensures Step(s, op).sessions.Keys == s.sessions.Keys && Step(s, op).accounts == s.accounts
    ensures x in s.sessions ==>
      Step(s, op).sessions[x] == Revoking(s.sessions[x], s.sessions[x].family == s.sessions[id].family)
  {
    JudgedExactly(s, op, id);
  }

  /** An expired token revokes its own session, and nothing else. */
  lemma ExpiryDoes(s: State, op: Op, id: SessionId, x: SessionId)
    requires Indexed(s) && op.Refresh? && id in s.sessions && s.sessions[id].token == op.token
    requires !s.sessions[id].revoked && s.sessions[id].expiresAt <= op.now
    ensures Step(s, op).sessions.Keys == s.sessions.Keys && Step(s, op).accounts == s.accounts
    ensures x in s.sessions ==> Step(s, op).sessions[x] == Revoking(s.sessions[x], x == id)
  {
    JudgedExactly(s, op, id);
  }

  /** A live token is replaced: its session is revoked and a child added that inherits owner, family
      and deadline. If the owner may not log in, all of the owner's sessions are revoked as well. */
  lemma RotationDoes(s: State, op: Op, id: SessionId, x: SessionId)
    requires Indexed(s) && op.Refresh? && id in s.sessions && s.sessions[id].token == op.token
    requires !s.sessions[id].revoked && op.now < s.sessions[id].expiresAt
    requires op.id !in s.usedIds && op.next !in s.usedTokens
    ensures var p := s.sessions[id];
      var refused := !(p.user in s.accounts && MayLogIn(s.accounts[p.user], op.requireVerified, op.checkedAt));
      && Step(s, op).sessions.Keys == s.sessions.Keys + {op.id} && Step(s, op).accounts == s.accounts
      && Step(s, op).sessions[op.id]
         == Session(p.user, op.next, p.family, Some(id), p.rotation + 1, p.expiresAt, refused)
      && (x in s.sessions ==>
          Step(s, op).sessions[x] == Revoking(s.sessions[x], x == id || (refused && s.sessions[x].user == p.user)))
  {
    JudgedExactly(s, op, id);
    ExchangedExactlyIf(s, op);
    RotationInStages(s, op);
  }

  /** When a presented token hands out new ones, by the row that bears it and its owner's account. */
  ghost predicate Honoured(s: State, id: SessionId, now: Time, requireVerified: bool, checkedAt: Time)
    requires id in s.sessions
  {
    var x := s.sessions[id];
    !x.revoked && now < x.expiresAt && x.user in s.accounts && MayLogIn(s.accounts[x.user], requireVerified, checkedAt)
  }

  lemma ExchangedExactlyIfHonoured(s: State, op: Op)
    requires Indexed(s) && op.Refresh? && Fresh(s, op)
    ensures forall id | id in s.sessions && s.sessions[id].token == op.token ::
      Exchanged(s, op) <==> Honoured(s, id, op.now, op.requireVerified, op.checkedAt)
    ensures (forall id | id in s.sessions :: s.sessions[id].token != op.token) ==> !Exchanged(s, op)
  {
    UnknownExactlyIf(s, op);
    forall id | id in s.sessions && s.sessions[id].token == op.token
      ensures Exchanged(s, op) <==> Honoured(s, id, op.now, op.requireVerified, op.checkedAt)
    {
      JudgedExactly(s, op, id);
      if Judge(s, op) == Rotated { ExchangedExactlyIf(s, op); }
    }
  }

  lemma UnknownTokenDoesNothing(s: State, op: Op)
    requires op.Refresh? && forall id | id in s.sessions :: s.sessions[id].token != op.token
    ensures Step(s, op) == s
  {
    UnknownExactlyIf(s, op);
  }

  /** The plain revocations and the change of an account. */
  lemma RevocationsDo(s: State, op: Op, x: SessionId)
    requires op.Revoke? || op.RevokeAll? || op.RevokeOthers?
    ensures Step(s, op).sessions.Keys == s.sessions.Keys && Step(s, op).accounts == s.accounts
    ensures x in s.sessions ==>
      Step(s, op).sessions[x] == Revoking(s.sessions[x],
        if op.Revoke? then x == op.id
        else if op.RevokeAll? then s.sessions[x].user == op.user
        else s.sessions[x].user == op.user && x != op.current && op.now < s.sessions[x].expiresAt)
  {
  }

  lemma AccountChangeDoes(s: State, op: Op, user: UserId)
    requires op.SetAccount?
    ensures Step(s, op).sessions == s.sessions
    ensures user != op.user ==>
      (user in Step(s, op).accounts <==> user in s.accounts)
      && (user in s.accounts ==> Step(s, op).accounts[user] == s.accounts[user])
    ensures op.user in Step(s, op).accounts <==> op.account.Some?
    ensures op.account.Some? ==> Step(s, op).accounts[op.user] == op.account.value
  {
  }

  /** Cleanup revokes what has expired of the one batch, and deletes of the other what is then
      revoked, has been expired for the retention, and is nobody's parent. */
  lemma CleanupDoes(s: State, op: Op, x: SessionId)
    requires op.Cleanup? && x in s.sessions
    ensures var expired := x in op.expire && s.sessions[x].expiresAt <= op.now;
      var deleted := x in op.delete && (s.sessions[x].revoked || expired)
        && s.sessions[x].expiresAt + op.retention <= op.now
        && forall c | c in s.sessions :: s.sessions[c].parent != Some(x);
      && (x in Step(s, op).sessions <==> !deleted)
      && (!deleted ==> Step(s, op).sessions[x] == Revoking(s.sessions[x], expired))
  {
    var revoked := RevokeSet(s.sessions, Overdue(s.sessions, op.now, op.expire));
    assert revoked.Keys == s.sessions.Keys && forall c | c in revoked :: revoked[c].parent == s.sessions[c].parent;
    assert HasChild(revoked, x) <==> exists c :: c in s.sessions && s.sessions[c].parent == Some(x);
  }

  // ---------- Undisturbed sessions ----------

  /** The calls that may end a session: presenting its token, reusing one of its family, the owner's
      log-outs and refusals, and cleanup once it has expired. */
  ghost predicate Disturbs(s: State, op: Op, id: SessionId)
    requires id in s.sessions
  {
    var x := s.sessions[id];
    || (op.Revoke? && op.id == id)
    || (op.RevokeAll? && op.user == x.user)
    || (op.RevokeOthers? && op.user == x.user && op.current != id && op.now < x.expiresAt)
    || (op.Cleanup? && x.expiresAt <= op.now)
    || (op.Refresh? && exists y :: y in s.sessions && s.sessions[y].token == op.token && Drags(s, op, y, id))
  }

  /** Presenting the token of session `y` ends session `id`. */
  ghost predicate Drags(s: State, op: Op, y: SessionId, id: SessionId)
    requires op.Refresh? && y in s.sessions && id in s.sessions
  {
    var p, x := s.sessions[y], s.sessions[id];
    || y == id
    || (p.revoked && p.family == x.family)
    || (!p.revoked && op.now < p.expiresAt && p.user == x.user
        && !(x.user in s.accounts && MayLogIn(s.accounts[x.user], op.requireVerified, op.checkedAt)))
  }

  ghost predicate Undisturbed(g: Run, h: Run, id: SessionId)
    requires Extends(h, g)
    decreases h
  {
    h != g ==>
      && Undisturbed(g, h.past, id)
      && id in After(h.past).sessions && !Disturbs(After(h.past), h.op, id)
      && (h.op.Cleanup? ==> h.op.retention >= 0)
  }

  lemma UndisturbedStep(s: State, op: Op, id: SessionId)
    requires Indexed(s) && id in s.sessions && !Disturbs(s, op, id) && (op.Cleanup? ==> op.retention >= 0)
    ensures id in Step(s, op).sessions && Step(s, op).sessions[id] == s.sessions[id]
  {
    if !Fresh(s, op) || op.SetAccount? {
    } else if op.Create? {
      assert id in s.usedIds;
    } else if op.Revoke? || op.RevokeAll? || op.RevokeOthers? {
      RevocationsDo(s, op, id);
    } else if op.Cleanup? {
      CleanupDoes(s, op, id);
    } else if forall y | y in s.sessions :: s.sessions[y].token != op.token {
      UnknownTokenDoesNothing(s, op);
    } else {
      var y :| y in s.sessions && s.sessions[y].token == op.token;
      UndisturbedByRefresh(s, op, y, id);
    }
  }

  lemma UndisturbedByRefresh(s: State, op: Op, y: SessionId, id: SessionId)
    requires Indexed(s) && op.Refresh? && Fresh(s, op) && id in s.sessions && !Disturbs(s, op, id)
    requires y in s.sessions && s.sessions[y].token == op.token
    ensures id in Step(s, op).sessions && Step(s, op).sessions[id] == s.sessions[id]
  {
    JudgedExactly(s, op, y);
    if s.sessions[y].revoked {
      ReuseDoes(s, op, y, id);
    } else if s.sessions[y].expiresAt <= op.now {
      ExpiryDoes(s, op, y, id);
    } else {
      RotationDoes(s, op, y, id);
    }
  }

  /** Whatever other users and other families do, a session that nothing disturbs stays as it is. */
  lemma {:induction false} UndisturbedStays(g: Run, h: Run, id: SessionId)
    requires FromEmpty(g) && Extends(h, g) && id in After(g).sessions && Undisturbed(g, h, id)
    ensures id in After(h).sessions && After(h).sessions[id] == After(g).sessions[id]
    ensures Indexed(After(h))
    decreases h
  {
    if h == g {
      AlwaysIndexed(g);
    } else {
      UndisturbedStays(g, h.past, id);
      UndisturbedStep(After(h.past), h.op, id);
      StepKeepsIndexed(After(h.past), h.op);
    }
  }

  lemma {:induction false} AlwaysIndexed(h: Run)
    requires FromEmpty(h)
    ensures Indexed(After(h))
  {
    if h.Then? {
      AlwaysIndexed(h.past);
      StepKeepsIndexed(After(h.past), h.op);
    }
  }

  /** So a live session nobody disturbs can be exchanged by an owner who may log in, until its
      deadline. */
  lemma UndisturbedIsExchanged(g: Run, h: Run, id: SessionId, op: Op)
    requires FromEmpty(g) && Extends(h, g) && id in After(g).sessions && Undisturbed(g, h, id)
    requires !After(g).sessions[id].revoked
    requires op.Refresh? && op.token == After(g).sessions[id].token && op.now < After(g).sessions[id].expiresAt
    requires op.id !in After(h).usedIds && op.next !in After(h).usedTokens
    requires var user := After(g).sessions[id].user;
      user in After(h).accounts && MayLogIn(After(h).accounts[user], op.requireVerified, op.checkedAt)
    ensures Exchanged(After(h), op)
  {
    UndisturbedStays(g, h, id);
    JudgedExactly(After(h), op, id);
    ExchangedExactlyIf(After(h), op);
  }

  /** And a session that has been revoked is never exchanged again. */
  lemma RevokedIsFinal(g: Run, id: SessionId, h: Run, op: Op)
    requires FromEmpty(g) && Extends(h, Then(g, Revoke(id))) && id in After(g).sessions
    requires op.Refresh? && op.token == After(g).sessions[id].token
    ensures !Exchanged(After(h), op) && Added(After(h), op).None?
  {
    var k := Then(g, Revoke(id));
    AlwaysIndexed(g);
    RevocationsDo(After(g), Revoke(id), id);
    forall x | HasToken(After(k).sessions, x, op.token) ensures After(k).sessions[x].revoked {
      RevocationsDo(After(g), Revoke(id), x);
    }
    DeadTokenStaysDead(k, h, op.token);
    DeadTokenIsNotExchanged(After(h), op);
  }
}
