/** What holds of refresh sessions in every run. */
module SessionSafety {
  import opened Common
  import opened RefreshSessions

  type Sessions = map<SessionId, Session>

  ghost predicate FromEmpty(h: Run) {
    StartsFrom(h, EMPTY)
  }

  // ---------- The invariant, in parts ----------

  /** Every stored session is in the ledger, unchanged but for its revocation. */
  ghost predicate Recorded(stored: Sessions, ledger: Sessions) {
    forall id | id in stored :: id in ledger && stored[id].(revoked := false) == ledger[id]
  }

  /** Whatever the ledger mentions was drawn from the generators, and tokens are distinct. */
  ghost predicate Drawn(s: State, ledger: Sessions) {
    && (forall id | id in ledger ::
          id in s.usedIds && ledger[id].token in s.usedTokens && ledger[id].family in s.usedFamilies)
    && (forall a, b | a in ledger && b in ledger && ledger[a].token == ledger[b].token :: a == b)
  }

  /** A session is a root with count 0, or its parent's successor in the same family. */
  ghost predicate Succeeds(ledger: Sessions, id: SessionId)
    requires id in ledger
  {
    var x := ledger[id];
    match x.parent
    case None => x.rotation == 0
    case Some(p) => p in ledger && x.rotation == ledger[p].rotation + 1 && x.family == ledger[p].family
  }

  ghost predicate Linked(ledger: Sessions) {
    forall id | id in ledger :: Succeeds(ledger, id)
  }

  /** A family has one owner and one deadline, and no two sessions at the same count. */
  ghost predicate Uniform(ledger: Sessions) {
    forall a, b | a in ledger && b in ledger && ledger[a].family == ledger[b].family ::
      && ledger[a].user == ledger[b].user
      && ledger[a].expiresAt == ledger[b].expiresAt
      && (ledger[a].rotation == ledger[b].rotation ==> a == b)
  }

  /** Only the last session of a family is ever live. */
  ghost predicate LiveIsLast(stored: Sessions, ledger: Sessions) {
    forall a, b | a in stored && !stored[a].revoked && b in ledger && ledger[b].family == stored[a].family ::
      ledger[b].rotation <= stored[a].rotation
  }

  /** The parent of a stored session is stored. */
  ghost predicate ParentsStored(stored: Sessions) {
    forall id | id in stored && stored[id].parent.Some? :: stored[id].parent.value in stored
  }

  ghost predicate Inv(s: State, ledger: Sessions) {
    && Recorded(s.sessions, ledger)
    && Drawn(s, ledger)
    && Linked(ledger)
    && Uniform(ledger)
    && LiveIsLast(s.sessions, ledger)
    && ParentsStored(s.sessions)
  }

  /** `now` is `was` with some sessions revoked and some, childless, removed. */
  ghost predicate Weakened(was: Sessions, now: Sessions) {
    && (forall id | id in now :: id in was && (now[id] == was[id] || now[id] == was[id].(revoked := true)))
    && (forall id | id in now && now[id].parent.Some? && now[id].parent.value in was :: now[id].parent.value in now)
  }

  lemma WeakeningKeepsRecorded(was: Sessions, now: Sessions, ledger: Sessions)
    requires Weakened(was, now) && Recorded(was, ledger)
    ensures Recorded(now, ledger)
  {
  }

  lemma WeakeningKeepsLast(was: Sessions, now: Sessions, ledger: Sessions)
    requires Weakened(was, now) && LiveIsLast(was, ledger)
    ensures LiveIsLast(now, ledger)
  {
    forall a, b | a in now && !now[a].revoked && b in ledger && ledger[b].family == now[a].family
      ensures ledger[b].rotation <= now[a].rotation
    {
      assert now[a] == was[a];
    }
  }

  lemma WeakeningKeepsParents(was: Sessions, now: Sessions)
    requires Weakened(was, now) && ParentsStored(was)
    ensures ParentsStored(now)
  {
    forall id | id in now && now[id].parent.Some? ensures now[id].parent.value in now {
      assert was[id].parent == now[id].parent;
    }
  }

  lemma WeakeningKeepsInv(s: State, s': State, ledger: Sessions)
    requires Inv(s, ledger) && Weakened(s.sessions, s'.sessions)
    requires s'.usedIds == s.usedIds && s'.usedTokens == s.usedTokens && s'.usedFamilies == s.usedFamilies
    ensures Inv(s', ledger)
  {
    WeakeningKeepsRecorded(s.sessions, s'.sessions, ledger);
    WeakeningKeepsLast(s.sessions, s'.sessions, ledger);
    WeakeningKeepsParents(s.sessions, s'.sessions);
  }

  lemma RevokingWeakens(was: Sessions, ids: set<SessionId>)
    ensures Weakened(was, RevokeSet(was, ids))
  {
  }

  lemma CleaningWeakens(was: Sessions, op: Op)
    requires op.Cleanup?
    ensures Weakened(was, CleanUp(was, op))
  {
    var revoked := RevokeSet(was, Overdue(was, op.now, op.expire));
    var gone := Removable(revoked, op.now - op.retention, op.delete);
    forall id | id in CleanUp(was, op) && was[id].parent.Some? && was[id].parent.value in was
      ensures was[id].parent.value in CleanUp(was, op)
    {
      assert id in revoked && revoked[id].parent == was[id].parent;
      assert HasChild(revoked, was[id].parent.value);
    }
  }

  /** What is needed of a session to join the ledger: new identifiers, and either a new family
      or the place right after the last session of an old one. */
  ghost predicate Joins(s: State, ledger: Sessions, id: SessionId, x: Session) {
    && id !in s.usedIds && x.token !in s.usedTokens && !x.revoked
    && match x.parent
       case None => x.rotation == 0 && x.family !in s.usedFamilies
       case Some(p) =>
         && p in s.sessions && p in ledger && s.sessions[p].revoked
         && ledger[p].user == x.user && ledger[p].family == x.family && ledger[p].expiresAt == x.expiresAt
         && x.rotation == ledger[p].rotation + 1
         && forall b | b in ledger && ledger[b].family == x.family :: ledger[b].rotation < x.rotation
  }

  lemma JoiningKeepsLedger(s: State, ledger: Sessions, id: SessionId, x: Session)
    requires Drawn(s, ledger) && Linked(ledger) && Uniform(ledger) && Joins(s, ledger, id, x)
    ensures Linked(ledger[id := x]) && Uniform(ledger[id := x])
  {
    var ledger' := ledger[id := x];
    assert id !in ledger;
    forall y | y in ledger' ensures Succeeds(ledger', y) {
      if y != id { assert Succeeds(ledger, y); }
    }
    forall a, b | a in ledger' && b in ledger' && ledger'[a].family == ledger'[b].family
      ensures ledger'[a].user == ledger'[b].user && ledger'[a].expiresAt == ledger'[b].expiresAt
      ensures ledger'[a].rotation == ledger'[b].rotation ==> a == b
    {
      if x.parent.Some? {
        assert a != id ==> ledger'[a] == ledger[a];
        assert b != id ==> ledger'[b] == ledger[b];
      }
    }
  }

  /** No live session of a family is beside the one that joins it. */
  lemma JoiningKeepsLast(s: State, ledger: Sessions, id: SessionId, x: Session)
    requires Recorded(s.sessions, ledger) && Drawn(s, ledger) && Joins(s, ledger, id, x)
    requires LiveIsLast(s.sessions, ledger)
    requires forall a | a in s.sessions && s.sessions[a].family == x.family :: s.sessions[a].revoked
    ensures LiveIsLast(s.sessions[id := x], ledger[id := x])
  {
  }

  lemma JoiningKeepsInv(s: State, s': State, ledger: Sessions, id: SessionId, x: Session)
    requires Inv(s, ledger) && Joins(s, ledger, id, x)
    requires forall a | a in s.sessions && s.sessions[a].family == x.family :: s.sessions[a].revoked
    requires s'.sessions == s.sessions[id := x]
    requires s'.usedIds == s.usedIds + {id} && s'.usedTokens == s.usedTokens + {x.token}
    requires s'.usedFamilies == if x.parent.None? then s.usedFamilies + {x.family} else s.usedFamilies
    ensures Inv(s', ledger[id := x])
  {
    JoiningKeepsDrawn(s, s', ledger, id, x);
    JoiningKeepsLedger(s, ledger, id, x);
    JoiningKeepsLast(s, ledger, id, x);
    JoiningKeepsParents(s, ledger, id, x);
  }

  lemma JoiningKeepsDrawn(s: State, s': State, ledger: Sessions, id: SessionId, x: Session)
    requires Recorded(s.sessions, ledger) && Drawn(s, ledger) && Joins(s, ledger, id, x)
    requires s'.sessions == s.sessions[id := x]
    requires s'.usedIds == s.usedIds + {id} && s'.usedTokens == s.usedTokens + {x.token}
    requires s'.usedFamilies == if x.parent.None? then s.usedFamilies + {x.family} else s.usedFamilies
    ensures Recorded(s'.sessions, ledger[id := x])
    ensures Drawn(s', ledger[id := x])
  {
    assert id !in ledger;
  }

  lemma JoiningKeepsParents(s: State, ledger: Sessions, id: SessionId, x: Session)
    requires ParentsStored(s.sessions) && Joins(s, ledger, id, x)
    ensures ParentsStored(s.sessions[id := x])
  {
    var stored := s.sessions[id := x];
    forall y | y in stored && stored[y].parent.Some? ensures stored[y].parent.value in stored {
      if y != id { assert s.sessions[y].parent.value in s.sessions; }
    }
  }

  /** Only the last session of a family can still be live, so at most one is. */
  lemma LiveIsAlone(stored: Sessions, ledger: Sessions, a: SessionId, b: SessionId)
    requires Recorded(stored, ledger) && Uniform(ledger) && LiveIsLast(stored, ledger)
    requires a in stored && b in stored && !stored[a].revoked && !stored[b].revoked
    requires stored[a].family == stored[b].family
    ensures a == b
  {
  }

  /** The store once the presented session is revoked, before its successor is added. */
  ghost function Retired(s: State, op: Op): State
    requires op.Refresh? && Judge(s, op) == Rotated
  {
    s.(sessions := RevokeSet(s.sessions, {Current(s, op)}))
  }

  lemma SuccessorJoins(s: State, op: Op, ledger: Sessions)
    requires Inv(s, ledger) && op.Refresh? && Fresh(s, op) && Judge(s, op) == Rotated
    ensures Joins(Retired(s, op), ledger, op.id, Added(s, op).value)
    ensures var t, x := Retired(s, op), Added(s, op).value;
      && x.family in t.usedFamilies
      && (forall a | a in t.sessions && t.sessions[a].family == x.family :: t.sessions[a].revoked)
  {
    var id := Current(s, op);
    var t := Retired(s, op);
    var x := Child(s.sessions[id], id, op.next);
    assert s.sessions[id].(revoked := false) == ledger[id];
    assert !s.sessions[id].revoked;
    forall a | a in t.sessions && t.sessions[a].family == x.family ensures t.sessions[a].revoked {
      if !t.sessions[a].revoked { LiveIsAlone(s.sessions, ledger, a, id); }
    }
  }

  /** A rotation in stages: retire the presented session, add its successor, and if the owner
      turns out not to be eligible, revoke everything the owner has. */
  lemma RotationInStages(s: State, op: Op)
    requires op.Refresh? && Fresh(s, op) && Judge(s, op) == Rotated
    ensures var t, x, s' := Retired(s, op), Added(s, op).value, Step(s, op);
      && s'.usedIds == t.usedIds + {op.id} && s'.usedTokens == t.usedTokens + {x.token}
      && s'.usedFamilies == t.usedFamilies
      && s'.sessions == if Exchanged(s, op) then t.sessions[op.id := x]
                        else RevokeSet(t.sessions[op.id := x], OfUser(t.sessions[op.id := x], x.user))
  {
  }

  /** The store with the successor in it, before anyone asks whether the owner may log in. */
  ghost function Succeeded(s: State, op: Op): State
    requires op.Refresh? && Fresh(s, op) && Judge(s, op) == Rotated
  {
    var t, x := Retired(s, op), Added(s, op).value;
    t.(sessions := t.sessions[op.id := x], usedIds := t.usedIds + {op.id}, usedTokens := t.usedTokens + {x.token})
  }

  lemma RevokingKeepsInv(u: State, s': State, ledger: Sessions, ids: set<SessionId>)
    requires Inv(u, ledger) && s' == u.(sessions := RevokeSet(u.sessions, ids))
    ensures Inv(s', ledger)
  {
    RevokingWeakens(u.sessions, ids);
    WeakeningKeepsInv(u, s', ledger);
  }

  lemma SuccessorKeepsInv(s: State, op: Op, ledger: Sessions)
    requires Inv(s, ledger) && op.Refresh? && Fresh(s, op) && Judge(s, op) == Rotated
    ensures Inv(Succeeded(s, op), ledger[op.id := Added(s, op).value])
  {
    var t, x := Retired(s, op), Added(s, op).value;
    RevokingKeepsInv(s, t, ledger, {Current(s, op)});
    SuccessorJoins(s, op, ledger);
    JoiningKeepsInv(t, Succeeded(s, op), ledger, op.id, x);
  }

  lemma RotationEnds(s: State, op: Op)
    requires op.Refresh? && Fresh(s, op) && Judge(s, op) == Rotated
    ensures var u := Succeeded(s, op);
      Step(s, op) == if Exchanged(s, op) then u
                     else u.(sessions := RevokeSet(u.sessions, OfUser(u.sessions, Added(s, op).value.user)))
  {
    RotationInStages(s, op);
  }

  lemma RotateKeepsInv(s: State, op: Op, ledger: Sessions)
    requires Inv(s, ledger) && op.Refresh? && Fresh(s, op) && Judge(s, op) == Rotated
    ensures Inv(Step(s, op), ledger[op.id := Added(s, op).value])
  {
    var u, x := Succeeded(s, op), Added(s, op).value;
    SuccessorKeepsInv(s, op, ledger);
    RotationEnds(s, op);
    if !Exchanged(s, op) { RevokingKeepsInv(u, Step(s, op), ledger[op.id := x], OfUser(u.sessions, x.user)); }
  }

  /** A call that adds no session only revokes, or removes childless sessions. */
  lemma OtherCallsWeaken(s: State, op: Op)
    requires Added(s, op).None?
    ensures Weakened(s.sessions, Step(s, op).sessions)
    ensures var s' := Step(s, op);
      s'.usedIds == s.usedIds && s'.usedTokens == s.usedTokens && s'.usedFamilies == s.usedFamilies
  {
    if !Fresh(s, op) {
    } else if op.Refresh? && Judge(s, op) == Reused {
      RevokingWeakens(s.sessions, OfFamily(s.sessions, s.sessions[Current(s, op)].family));
    } else if op.Refresh? && Judge(s, op) == Expired {
      RevokingWeakens(s.sessions, {Current(s, op)});
    } else if op.Cleanup? {
      CleaningWeakens(s.sessions, op);
    }
  }

  lemma CreateKeepsInv(s: State, op: Op, ledger: Sessions)
    requires Inv(s, ledger) && op.Create? && Fresh(s, op)
    ensures Inv(Step(s, op), ledger[op.id := Added(s, op).value])
  {
    JoiningKeepsInv(s, Step(s, op), ledger, op.id, Added(s, op).value);
  }

  lemma {:induction false} InvHolds(h: Run)
    requires FromEmpty(h)
    ensures Inv(After(h), Ledger(h))
  {
    if h.Then? {
      var s, ledger := After(h.past), Ledger(h.past);
      InvHolds(h.past);
      if Added(s, h.op).None? {
        OtherCallsWeaken(s, h.op);
        WeakeningKeepsInv(s, Step(s, h.op), ledger);
      } else if h.op.Create? {
        CreateKeepsInv(s, h.op, ledger);
      } else {
        RotateKeepsInv(s, h.op, ledger);
      }
    }
  }
}
