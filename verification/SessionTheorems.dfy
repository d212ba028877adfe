/** The promises of refresh sessions, over whole runs: one chain per family, each token
    exchanged once, reuse fatal to the family, cleanup harmless, revocation final. */
module SessionTheorems {
  import opened Common
  import opened RefreshSessions
  import opened SessionSafety

  // ---------- Lineage ----------

  ghost predicate Stands(sessions: Sessions, family: FamilyId, k: nat, id: SessionId) {
    id in sessions && sessions[id].family == family && sessions[id].rotation == k
  }

  lemma {:induction false} AncestorAt(ledger: Sessions, id: SessionId, k: nat) returns (a: SessionId)
    requires Linked(ledger) && id in ledger && k <= ledger[id].rotation
    ensures Stands(ledger, ledger[id].family, k, a)
    decreases ledger[id].rotation
  {
    assert Succeeds(ledger, id);
    if ledger[id].rotation == k { a := id; } else { a := AncestorAt(ledger, ledger[id].parent.value, k); }
  }

  /** All the sessions a family ever had form one chain: exactly one at each count up to the
      last, the first with no parent and every other the child of the one before. */
  lemma FamilyIsOneChain(h: Run, id: SessionId, k: nat)
    requires FromEmpty(h) && id in Ledger(h) && k <= Ledger(h)[id].rotation
    ensures var ledger, family := Ledger(h), Ledger(h)[id].family;
      && (exists a: SessionId :: Stands(ledger, family, k, a))
      && (forall a: SessionId, b: SessionId | Stands(ledger, family, k, a) && Stands(ledger, family, k, b) :: a == b)
      && (forall a: SessionId | Stands(ledger, family, 0, a) :: ledger[a].parent == None)
      && (forall a: SessionId, b: SessionId | Stands(ledger, family, k, a) && Stands(ledger, family, k + 1, b) ::
            ledger[b].parent == Some(a))
      && (forall a: SessionId | Stands(ledger, family, k, a) ::
            ledger[a].user == ledger[id].user && ledger[a].expiresAt == ledger[id].expiresAt)
  {
    InvHolds(h);
    var a := AncestorAt(Ledger(h), id, k);
    var family := Ledger(h)[id].family;
    forall x: SessionId, y: SessionId | Stands(Ledger(h), family, k, x) && Stands(Ledger(h), family, k + 1, y)
      ensures Ledger(h)[y].parent == Some(x)
    {
      assert Succeeds(Ledger(h), y);
    }
    forall x: SessionId | Stands(Ledger(h), Ledger(h)[id].family, 0, x) ensures Ledger(h)[x].parent == None {
      assert Succeeds(Ledger(h), x);
    }
  }

  lemma {:induction false} StoredAncestorAt(s: State, ledger: Sessions, id: SessionId, k: nat) returns (a: SessionId)
    requires Recorded(s.sessions, ledger) && Linked(ledger) && ParentsStored(s.sessions)
    requires id in s.sessions && k <= s.sessions[id].rotation
    ensures Stands(s.sessions, s.sessions[id].family, k, a)
    decreases s.sessions[id].rotation
  {
    assert Succeeds(ledger, id);
    assert s.sessions[id].(revoked := false) == ledger[id];
    if s.sessions[id].rotation == k {
      a := id;
    } else {
      var p := s.sessions[id].parent.value;
      assert s.sessions[p].(revoked := false) == ledger[p];
      a := StoredAncestorAt(s, ledger, p, k);
    }
  }

  /** Even after cleanup, what is stored of a family is a beginning of its chain. */
  lemma StoredFamilyIsAPrefix(h: Run, id: SessionId, k: nat)
    requires FromEmpty(h) && id in After(h).sessions && k <= After(h).sessions[id].rotation
    ensures exists a: SessionId :: Stands(After(h).sessions, After(h).sessions[id].family, k, a)
  {
    InvHolds(h);
    var a := StoredAncestorAt(After(h), Ledger(h), id, k);
  }

  /** At most one session of a family is live, and it is the last one the family ever had. */
  lemma OnlyTheLastIsLive(h: Run, a: SessionId, b: SessionId)
    requires FromEmpty(h) && a in After(h).sessions && !After(h).sessions[a].revoked
    requires b in Ledger(h) && Ledger(h)[b].family == After(h).sessions[a].family
    ensures Ledger(h)[b].rotation <= After(h).sessions[a].rotation
    ensures b != a ==> b !in After(h).sessions || After(h).sessions[b].revoked
  {
    InvHolds(h);
    if b in After(h).sessions && !After(h).sessions[b].revoked {
      assert After(h).sessions[b].(revoked := false) == Ledger(h)[b];
      LiveIsAlone(After(h).sessions, Ledger(h), a, b);
    }
  }

  /** The instant fixed when the family was created. */
  ghost function Deadline(h: Run, family: FamilyId): Option<Time> {
    match h
    case Start(_) => None
    case Then(past, op) =>
      if op.Create? && op.family == family && Fresh(After(past), op) then Some(op.now + op.lifetime)
      else Deadline(past, family)
  }

  /** Rotation never extends a session's life. */
  lemma {:induction false} DeadlineIsInherited(h: Run, id: SessionId)
    requires FromEmpty(h) && id in Ledger(h)
    ensures Deadline(h, Ledger(h)[id].family) == Some(Ledger(h)[id].expiresAt)
  {
    InvHolds(h.past);
    var s, op := After(h.past), h.op;
    if Added(s, op).Some? && id == op.id {
      if op.Refresh? {
        var current := Current(s, op);
        assert s.sessions[current].(revoked := false) == Ledger(h.past)[current];
        DeadlineIsInherited(h.past, current);
      }
    } else {
      DeadlineIsInherited(h.past, id);
    }
  }

  // ---------- What one call can bring about ----------

  ghost predicate SameOrRevoked(x: Session, y: Session) {
    y == x || y == x.(revoked := true)
  }

  lemma AddingStep(s: State, op: Op)
    requires Added(s, op).Some?
    ensures forall id | id in Step(s, op).sessions && id != op.id ::
      id in s.sessions && SameOrRevoked(s.sessions[id], Step(s, op).sessions[id])
    ensures op.id in Step(s, op).sessions && SameOrRevoked(Added(s, op).value, Step(s, op).sessions[op.id])
    ensures op.id !in s.usedIds && Added(s, op).value.token !in s.usedTokens
    ensures Step(s, op).usedTokens >= s.usedTokens && Step(s, op).usedFamilies >= s.usedFamilies
  {
    if op.Refresh? { RotationInStages(s, op); }
  }

  /** A session that is not in the store before the call is the one the call adds. */
  lemma StepAddsAtMostOne(s: State, op: Op, id: SessionId)
    requires id in Step(s, op).sessions
    ensures (id in s.sessions && SameOrRevoked(s.sessions[id], Step(s, op).sessions[id]))
      || (Added(s, op).Some? && id == op.id && SameOrRevoked(Added(s, op).value, Step(s, op).sessions[id]))
    ensures Step(s, op).usedTokens >= s.usedTokens && Step(s, op).usedFamilies >= s.usedFamilies
  {
    if Added(s, op).Some? { AddingStep(s, op); } else { OtherCallsWeaken(s, op); }
  }

  lemma UsedOnlyGrows(s: State, op: Op)
    ensures Step(s, op).usedTokens >= s.usedTokens && Step(s, op).usedFamilies >= s.usedFamilies
  {
    if Added(s, op).Some? { AddingStep(s, op); } else { OtherCallsWeaken(s, op); }
  }

  // ---------- Tokens are used once ----------

  ghost predicate LiveToken(s: State, token: Token) {
    exists id :: HasToken(s.sessions, id, token) && !s.sessions[id].revoked
  }

  lemma DeadTokenStep(s: State, op: Op, token: Token)
    requires token in s.usedTokens && !LiveToken(s, token)
    ensures token in Step(s, op).usedTokens && !LiveToken(Step(s, op), token)
  {
    UsedOnlyGrows(s, op);
    forall id | HasToken(Step(s, op).sessions, id, token) ensures Step(s, op).sessions[id].revoked {
      StillHasToken(s, op, id, token);
      StepAddsAtMostOne(s, op, id);
      if Added(s, op).Some? { AddingStep(s, op); }
    }
  }

  lemma {:induction false} DeadTokenStaysDead(g: Run, h: Run, token: Token)
    requires Extends(h, g) && token in After(g).usedTokens && !LiveToken(After(g), token)
    ensures token in After(h).usedTokens && !LiveToken(After(h), token)
    decreases h
  {
    if h != g {
      DeadTokenStaysDead(g, h.past, token);
      DeadTokenStep(After(h.past), h.op, token);
    }
  }

  lemma DeadTokenIsNotExchanged(s: State, op: Op)
    requires op.Refresh? && !LiveToken(s, op.token)
    ensures !Exchanged(s, op) && Added(s, op).None?
  {
    if !LiveToken(s, op.token) && Judge(s, op) == Rotated {
      assert false;
    }
  }

  lemma RotationRevokesThePresented(s: State, op: Op)
    requires op.Refresh? && Fresh(s, op) && Judge(s, op) == Rotated && Current(s, op) in s.usedIds
    ensures var id, s' := Current(s, op), Step(s, op); id in s'.sessions && s'.sessions[id].revoked
  {
    RotationInStages(s, op);
  }

  lemma TokenNamesOne(s: State, ledger: Sessions, a: SessionId, b: SessionId, token: Token)
    requires Recorded(s.sessions, ledger) && Drawn(s, ledger)
    requires HasToken(s.sessions, a, token) && HasToken(s.sessions, b, token)
    ensures a == b && token in s.usedTokens && a in s.usedIds
  {
    assert s.sessions[a].(revoked := false) == ledger[a];
    assert s.sessions[b].(revoked := false) == ledger[b];
  }

  lemma PresentingRetires(s: State, ledger: Sessions, op: Op)
    requires Inv(s, ledger) && op.Refresh? && Fresh(s, op) && Judge(s, op) == Rotated
    ensures !LiveToken(Step(s, op), op.token) && op.token in s.usedTokens
  {
    var id := Current(s, op);
    TokenNamesOne(s, ledger, id, id, op.token);
    RotationRevokesThePresented(s, op);
    AddingStep(s, op);
    forall x | HasToken(Step(s, op).sessions, x, op.token) ensures Step(s, op).sessions[x].revoked {
      StillHasToken(s, op, x, op.token);
      TokenNamesOne(s, ledger, id, x, op.token);
    }
  }

  lemma StillHasToken(s: State, op: Op, x: SessionId, token: Token)
    requires HasToken(Step(s, op).sessions, x, token) && token in s.usedTokens
    ensures HasToken(s.sessions, x, token)
  {
    StepAddsAtMostOne(s, op, x);
    if Added(s, op).Some? { AddingStep(s, op); }
  }

  /** How often the token has been exchanged for new ones. */
  ghost function Exchanges(h: Run, token: Token): nat {
    match h
    case Start(_) => 0
    case Then(past, op) =>
      Exchanges(past, token) + if Exchanged(After(past), op) && op.token == token then 1 else 0
  }

  lemma {:induction false} ExchangedAtMostOnce(h: Run, token: Token)
    requires FromEmpty(h)
    ensures Exchanges(h, token) <= 1
    ensures Exchanges(h, token) == 1 ==> token in After(h).usedTokens && !LiveToken(After(h), token)
  {
    if h.Then? {
      ExchangedAtMostOnce(h.past, token);
      InvHolds(h.past);
      var s := After(h.past);
      if Exchanges(h.past, token) == 1 {
        DeadTokenStep(s, h.op, token);
        if h.op.Refresh? && h.op.token == token { DeadTokenIsNotExchanged(s, h.op); }
      } else if Exchanged(s, h.op) && h.op.token == token {
        PresentingRetires(s, Ledger(h.past), h.op);
        UsedOnlyGrows(s, h.op);
      }
    }
  }

  // ---------- Reuse ----------

  ghost predicate DeadFamily(s: State, family: FamilyId) {
    && family in s.usedFamilies
    && forall id | id in s.sessions && s.sessions[id].family == family :: s.sessions[id].revoked
  }

  lemma DeadFamilyStep(s: State, op: Op, family: FamilyId)
    requires DeadFamily(s, family)
    ensures DeadFamily(Step(s, op), family)
  {
    UsedOnlyGrows(s, op);
    forall id | id in Step(s, op).sessions && Step(s, op).sessions[id].family == family
      ensures Step(s, op).sessions[id].revoked
    {
      StepAddsAtMostOne(s, op, id);
    }
  }

  lemma {:induction false} DeadFamilyStaysDead(g: Run, h: Run, family: FamilyId)
    requires Extends(h, g) && DeadFamily(After(g), family)
    ensures DeadFamily(After(h), family)
    decreases h
  {
    if h != g {
      DeadFamilyStaysDead(g, h.past, family);
      DeadFamilyStep(After(h.past), h.op, family);
    }
  }

  /** Presenting any stored revoked token leaves its family without a live session, forever. */
  lemma ReuseKillsTheFamily(g: Run, h: Run, id: SessionId, op: Op)
    requires FromEmpty(g) && id in After(g).sessions && After(g).sessions[id].revoked
    requires op.Refresh? && op.token == After(g).sessions[id].token
    requires Extends(h, Then(g, op))
    ensures Judge(After(g), op) == Reused
    ensures DeadFamily(After(h), After(g).sessions[id].family)
  {
    var s, ledger := After(g), Ledger(g);
    InvHolds(g);
    assert HasToken(s.sessions, id, op.token);
    TokenNamesOne(s, ledger, id, Current(s, op), op.token);
    FamilyWasDrawn(s, ledger, id);
    ReuseRevokesFamily(s, op);
    DeadFamilyStaysDead(Then(g, op), h, s.sessions[id].family);
  }

  lemma FamilyWasDrawn(s: State, ledger: Sessions, id: SessionId)
    requires Recorded(s.sessions, ledger) && Drawn(s, ledger) && id in s.sessions
    ensures s.sessions[id].family in s.usedFamilies
  {
    assert s.sessions[id].(revoked := false) == ledger[id];
  }

  lemma ReuseRevokesFamily(s: State, op: Op)
    requires op.Refresh? && Judge(s, op) == Reused && s.sessions[Current(s, op)].family in s.usedFamilies
    ensures DeadFamily(Step(s, op), s.sessions[Current(s, op)].family)
  {
  }

  // ---------- Cleanup ----------

  lemma CleanupSparesUnexpired(s: State, op: Op, id: SessionId)
    requires id in s.sessions && id !in Step(s, op).sessions
    ensures op.Cleanup? && s.sessions[id].expiresAt <= op.now - op.retention
  {
    if Added(s, op).Some? && op.Refresh? { RotationInStages(s, op); }
  }

  lemma AddedIsStored(s: State, op: Op)
    requires Added(s, op).Some?
    ensures op.id in Step(s, op).sessions
  {
    AddingStep(s, op);
  }

  /** Whatever batches cleanup deletes, a family whose deadline has not passed still has every
      session it ever had. */
  lemma {:induction false} UnexpiredAreKept(h: Run, id: SessionId)
    requires FromEmpty(h) && Timed(h) && id in Ledger(h)
    requires Clock(h).Some? ==> Clock(h).value < Ledger(h)[id].expiresAt
    ensures id in After(h).sessions && After(h).sessions[id].(revoked := false) == Ledger(h)[id]
  {
    InvHolds(h);
    var s, op := After(h.past), h.op;
    if Added(s, op).Some? && id == op.id {
      AddedIsStored(s, op);
    } else {
      UnexpiredAreKept(h.past, id);
      if id !in After(h).sessions { CleanupSparesUnexpired(s, op, id); }
    }
  }

  /** So until the deadline, presenting any token the family was ever given either exchanges
      it, if it belongs to the last session and that is live, or is detected as reuse. */
  lemma ReuseIsAlwaysDetected(h: Run, id: SessionId, op: Op)
    requires FromEmpty(h) && Timed(Then(h, op)) && id in Ledger(h)
    requires op.Refresh? && op.token == Ledger(h)[id].token && op.now < Ledger(h)[id].expiresAt
    ensures Judge(After(h), op) in {Rotated, Reused}
    ensures Judge(After(h), op) == Rotated <==> !After(h).sessions[Current(After(h), op)].revoked
    ensures Judge(After(h), op) == Rotated ==>
      forall b | b in Ledger(h) && Ledger(h)[b].family == Ledger(h)[id].family ::
        Ledger(h)[b].rotation <= Ledger(h)[id].rotation
    ensures Judge(After(h), op) == Reused ==> DeadFamily(After(Then(h, op)), Ledger(h)[id].family)
  {
    InvHolds(h);
    assert Timed(h) && (Clock(h).Some? ==> Clock(h).value <= op.now);
    UnexpiredAreKept(h, id);
    PresentedIsJudged(After(h), Ledger(h), id, op);
    if Judge(After(h), op) == Reused { ReuseKillsTheFamily(h, Then(h, op), id, op); }
  }

  /** What becomes of a stored session's token before the deadline. */
  lemma PresentedIsJudged(s: State, ledger: Sessions, id: SessionId, op: Op)
    requires Recorded(s.sessions, ledger) && Drawn(s, ledger) && LiveIsLast(s.sessions, ledger)
    requires id in s.sessions && op.Refresh? && op.token == s.sessions[id].token && op.now < s.sessions[id].expiresAt
    ensures Judge(s, op) == (if s.sessions[id].revoked then Reused else Rotated) && Current(s, op) == id
    ensures Judge(s, op) == Rotated ==>
      forall b | b in ledger && ledger[b].family == ledger[id].family :: ledger[b].rotation <= ledger[id].rotation
  {
    assert HasToken(s.sessions, id, op.token);
    TokenNamesOne(s, ledger, id, Current(s, op), op.token);
    assert s.sessions[id].(revoked := false) == ledger[id];
  }

  // ---------- Revoking everything ----------

  /** The call revokes all of the user's sessions: logging out everywhere, a password reset, or
      a refresh by a user who is no longer eligible. */
  ghost predicate CutsOff(s: State, op: Op, user: UserId) {
    || op == RevokeAll(user)
    || (op.Refresh? && Fresh(s, op) && Judge(s, op) == Rotated
        && s.sessions[Current(s, op)].user == user && !Exchanged(s, op))
  }

  lemma CutOffLeavesNoneLive(s: State, op: Op, user: UserId, id: SessionId)
    requires CutsOff(s, op, user)
    requires id in Step(s, op).sessions && Step(s, op).sessions[id].user == user
    ensures Step(s, op).sessions[id].revoked
  {
    if op.Refresh? { RotationInStages(s, op); }
  }

  /** No token issued to the user before the cut ever yields tokens again, in any later run. */
  lemma CutOffIsFinal(g: Run, cut: Op, h: Run, user: UserId, id: SessionId, op: Op)
    requires FromEmpty(g) && CutsOff(After(g), cut, user) && Extends(h, Then(g, cut))
    requires id in Ledger(Then(g, cut)) && Ledger(Then(g, cut))[id].user == user
    requires op.Refresh? && op.token == Ledger(Then(g, cut))[id].token
    ensures !Exchanged(After(h), op) && Added(After(h), op).None?
  {
    var k := Then(g, cut);
    var s, ledger := After(k), Ledger(k);
    InvHolds(k);
    if LiveToken(s, op.token) {
      var x :| HasToken(s.sessions, x, op.token) && !s.sessions[x].revoked;
      assert s.sessions[x].(revoked := false) == ledger[x];
      assert x == id;
      CutOffLeavesNoneLive(After(g), cut, user, x);
    }
    DeadTokenStaysDead(k, h, op.token);
    DeadTokenIsNotExchanged(After(h), op);
  }

  // ---------- Revoking everything else ----------

  /** Whatever session bears the token is revoked or has expired by the given time. */
  ghost predicate Lapsed(s: State, token: Token, t: Time) {
    && token in s.usedTokens
    && forall id | HasToken(s.sessions, id, token) :: s.sessions[id].revoked || s.sessions[id].expiresAt <= t
  }

  lemma LapsedStep(s: State, op: Op, token: Token, t: Time)
    requires Lapsed(s, token, t)
    ensures Lapsed(Step(s, op), token, t)
  {
    UsedOnlyGrows(s, op);
    forall id | HasToken(Step(s, op).sessions, id, token)
      ensures Step(s, op).sessions[id].revoked || Step(s, op).sessions[id].expiresAt <= t
    {
      StillHasToken(s, op, id, token);
      StepAddsAtMostOne(s, op, id);
      if Added(s, op).Some? { AddingStep(s, op); }
    }
  }

  lemma {:induction false} LapsedStays(g: Run, h: Run, token: Token, t: Time)
    requires Extends(h, g) && Lapsed(After(g), token, t)
    ensures Lapsed(After(h), token, t)
    decreases h
  {
    if h != g {
      LapsedStays(g, h.past, token, t);
      LapsedStep(After(h.past), h.op, token, t);
    }
  }

  lemma LapsedIsNotExchanged(s: State, op: Op, t: Time)
    requires op.Refresh? && Lapsed(s, op.token, t) && t <= op.now
    ensures !Exchanged(s, op) && Added(s, op).None?
  {
  }

  lemma OthersLapse(s: State, ledger: Sessions, user: UserId, current: SessionId, now: Time, id: SessionId)
    requires Recorded(s.sessions, ledger) && Drawn(s, ledger)
    requires id in ledger && ledger[id].user == user && id != current
    ensures Lapsed(Step(s, RevokeOthers(user, current, now)), ledger[id].token, now)
  {
    var s' := Step(s, RevokeOthers(user, current, now));
    forall x | HasToken(s'.sessions, x, ledger[id].token)
      ensures s'.sessions[x].revoked || s'.sessions[x].expiresAt <= now
    {
      assert s.sessions[x].(revoked := false) == ledger[x];
      assert x == id;
    }
  }

  lemma {:induction false} ClockReaches(g: Run, h: Run)
    requires Extends(h, g) && Timed(h) && Clock(g).Some?
    ensures Clock(h).Some? && Clock(g).value <= Clock(h).value
    decreases h
  {
    if h != g { ClockReaches(g, h.past); }
  }

  /** After revoking the others, only the current session's token and those that come of it are
      ever exchanged: with a clock that does not go back, no other token issued to the user before
      yields tokens again, in any later run. */
  lemma OthersAreCutOff(g: Run, user: UserId, current: SessionId, now: Time, h: Run, id: SessionId, op: Op)
    requires FromEmpty(g) && Extends(h, Then(g, RevokeOthers(user, current, now)))
    requires id in Ledger(g) && Ledger(g)[id].user == user && id != current
    requires Timed(Then(h, op)) && op.Refresh? && op.token == Ledger(g)[id].token
    ensures !Exchanged(After(h), op) && Added(After(h), op).None?
  {
    var k := Then(g, RevokeOthers(user, current, now));
    InvHolds(g);
    OthersLapse(After(g), Ledger(g), user, current, now, id);
    LapsedStays(k, h, op.token, now);
    ClockReaches(k, h);
    LapsedIsNotExchanged(After(h), op, now);
  }
}
