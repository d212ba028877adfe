/** Revoking all sessions of a user is one statement, which acts on the rows that were committed
    when it began; a rotation or a login that commits while it waits adds a row it never sees. */
module SessionOverlaps {
  import opened Common
  import opened RefreshSessions
  import opened SessionSafety
  import opened SessionTheorems

  /** The statement began at `was` and takes effect at `s`. */
  function RevokedLate(was: State, s: State, user: UserId): State {
    s.(sessions := RevokeSet(s.sessions, OfUser(was.sessions, user)))
  }

  ghost predicate HasLive(s: State, user: UserId) {
    exists id :: id in s.sessions && s.sessions[id].user == user && !s.sessions[id].revoked
  }

  /** The sessions that calls since `g` added for the user, by login or rotation. */
  ghost function AddedSince(g: Run, h: Run, user: UserId): set<SessionId>
    requires Extends(h, g)
    decreases h
  {
    if h == g then {}
    else
      var added := Added(After(h.past), h.op);
      AddedSince(g, h.past, user) + if added.Some? && added.value.user == user then {h.op.id} else {}
  }

  lemma {:induction false} StoredOrAdded(g: Run, h: Run, id: SessionId)
    requires Extends(h, g) && id in After(h).sessions
    ensures id in AddedSince(g, h, After(h).sessions[id].user)
      || (id in After(g).sessions && After(g).sessions[id].user == After(h).sessions[id].user)
    decreases h
  {
    if h != g {
      StepAddsAtMostOne(After(h.past), h.op, id);
      if id in After(h.past).sessions { StoredOrAdded(g, h.past, id); }
    }
  }

  lemma {:induction false} AddedWasNotStored(g: Run, h: Run, user: UserId, id: SessionId)
    requires FromEmpty(g) && Extends(h, g) && id in AddedSince(g, h, user)
    ensures id !in After(g).sessions && FromEmpty(h)
    decreases h
  {
    ExtendsKeepsOrigin(g, h);
    if id in AddedSince(g, h.past, user) {
      AddedWasNotStored(g, h.past, user, id);
    } else {
      AddingStep(After(h.past), h.op);
      ExtendsKeepsOrigin(g, h.past);
      IdsStayUsed(g, h.past);
      InvHolds(g);
    }
  }

  lemma {:induction false} ExtendsKeepsOrigin(g: Run, h: Run)
    requires FromEmpty(g) && Extends(h, g)
    ensures FromEmpty(h)
    decreases h
  {
    if h != g { ExtendsKeepsOrigin(g, h.past); }
  }

  lemma {:induction false} IdsStayUsed(g: Run, h: Run)
    requires Extends(h, g)
    ensures After(g).usedIds <= After(h).usedIds
    decreases h
  {
    if h != g {
      IdsStayUsed(g, h.past);
      StepUsesMore(After(h.past), h.op);
    }
  }

  lemma StepUsesMore(s: State, op: Op)
    ensures s.usedIds <= Step(s, op).usedIds
  {
    if Added(s, op).None? { OtherCallsWeaken(s, op); } else if op.Refresh? { RotationInStages(s, op); }
  }

  /** The user is left without a live session exactly if everything that calls in between added
      for this user has been revoked or removed again. */
  lemma LateRevocationCutsOffExactlyIf(g: Run, h: Run, user: UserId)
    requires FromEmpty(g) && Extends(h, g)
    ensures !HasLive(RevokedLate(After(g), After(h), user), user) <==>
      forall id | id in AddedSince(g, h, user) && id in After(h).sessions && After(h).sessions[id].user == user ::
        After(h).sessions[id].revoked
  {
    var s' := RevokedLate(After(g), After(h), user);
    forall id | id in After(h).sessions && After(h).sessions[id].user == user
      ensures s'.sessions[id].revoked <==> After(h).sessions[id].revoked || id !in AddedSince(g, h, user)
    {
      StoredOrAdded(g, h, id);
      if id in AddedSince(g, h, user) { AddedWasNotStored(g, h, user, id); }
    }
  }

  /** A rotation that commits while the statement waits: its child stays live, and the token just
      handed out can be exchanged again, although all sessions were revoked after it. */
  lemma RotationOutlivesTheRevocation(g: Run, op: Op, user: UserId, again: Op)
    requires FromEmpty(g) && Exchanged(After(g), op) && After(g).sessions[Current(After(g), op)].user == user
    requires again.Refresh? && again.token == op.next
    requires again.now < After(g).sessions[Current(After(g), op)].expiresAt
    ensures var s' := RevokedLate(After(g), After(Then(g, op)), user);
      HasLive(s', user) && Judge(s', again) == Rotated && Current(s', again) == op.id
  {
    var h := Then(g, op);
    InvHolds(g);
    InvHolds(h);
    AddingStep(After(g), op);
    RotationInStages(After(g), op);
    var s, s' := After(h), RevokedLate(After(g), After(h), user);
    assert op.id !in After(g).sessions;
    assert s.sessions[op.id] == Added(After(g), op).value && s'.sessions[op.id] == s.sessions[op.id];
    RevokingWeakens(s.sessions, OfUser(After(g).sessions, user));
    WeakeningKeepsInv(s, s', Ledger(h));
    PresentedIsJudged(s', Ledger(h), op.id, again);
  }
}
