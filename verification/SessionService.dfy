/** The session services as an object over the stored rows: each method works step by step, and
    is one Step of the model. */
module SessionService {
  import opened Common
  import opened RefreshSessions
  import opened SessionEffects
  import opened SessionSafety
  import opened SessionTheorems

  function LiveAmong(sessions: Sessions, ids: set<SessionId>): set<SessionId> {
    set id | id in ids && id in sessions && !sessions[id].revoked
  }

  function CountGone(was: Sessions, now: Sessions): nat {
    |was.Keys - now.Keys|
  }

  lemma TakingAway(sessions: Sessions, gone: set<SessionId>)
    requires gone <= sessions.Keys
    ensures CountGone(sessions, sessions - gone) == |gone|
  {
    assert sessions.Keys - (sessions - gone).Keys == gone;
  }

  lemma OnlyStoredAreRemovable(sessions: Sessions, ids: set<SessionId>, expiredBefore: Time, batch: set<SessionId>)
    ensures RevokeSet(sessions, ids).Keys == sessions.Keys
    ensures Removable(RevokeSet(sessions, ids), expiredBefore, batch) <= sessions.Keys
  {
  }

  /** How many sessions a cleanup revokes, and how many it deletes. */
  method CountSweep(sessions: Sessions, now: Time, retention: Time, expire: set<SessionId>, delete: set<SessionId>)
    returns (expired: nat, deleted: nat)
    ensures expired == |LiveAmong(sessions, Overdue(sessions, now, expire))|
    ensures deleted == CountGone(sessions, CleanUp(sessions, Op.Cleanup(now, retention, expire, delete)))
  {
    var overdue := Overdue(sessions, now, expire);
    expired := |LiveAmong(sessions, overdue)|;
    var revoked := RevokeSet(sessions, overdue);
    var gone := Removable(revoked, now - retention, delete);
    deleted := |gone|;
    assert revoked.Keys == sessions.Keys && gone <= revoked.Keys by {
      OnlyStoredAreRemovable(sessions, overdue, now - retention, delete);
    }
    assert CountGone(revoked, revoked - gone) == |gone| by { TakingAway(revoked, gone); }
    assert revoked - gone == CleanUp(sessions, Op.Cleanup(now, retention, expire, delete));
  }

  datatype Answer = Done | NotFound | Conflict

  class Service {
    var sessions: map<SessionId, Session>
    var accounts: map<UserId, Account>
    ghost var usedIds: set<SessionId>
    ghost var usedTokens: set<Token>
    ghost var usedFamilies: set<FamilyId>

    ghost function Store(): State
      reads this
    {
      State(sessions, accounts, usedIds, usedTokens, usedFamilies)
    }

    ghost predicate Valid()
      reads this
    {
      Indexed(Store())
    }

    /** What every call owes: one step of the model. */
    twostate predicate Performed(op: Op)
      reads this
    {
      Valid() && Store() == Step(old(Store()), op)
    }

    constructor ()
      ensures Valid() && Store() == EMPTY
    {
      sessions, accounts, usedIds, usedTokens, usedFamilies := map[], map[], {}, {}, {};
    }

    /** Identifiers and token come from generators that never repeat one. */
    method Create(user: UserId, id: SessionId, token: Token, family: FamilyId, now: Time, lifetime: Time)
      requires Valid() && Fresh(Store(), Op.Create(user, id, token, family, now, lifetime))
      modifies this
      ensures Performed(Op.Create(user, id, token, family, now, lifetime))
    {
      StepKeepsIndexed(Store(), Op.Create(user, id, token, family, now, lifetime));
      var expiresAt := now + lifetime;
      sessions := sessions[id := Session(user, token, family, None, 0, expiresAt, false)];
      usedIds, usedTokens, usedFamilies := usedIds + {id}, usedTokens + {token}, usedFamilies + {family};
    }

    /** The exchange itself, before anyone asks whether the owner may still log in. */
    method Rotate(token: Token, id: SessionId, next: Token, now: Time, ghost op: Op) returns (child: Option<SessionId>)
      requires Valid() && op.Refresh? && op.token == token && op.id == id && op.next == next && op.now == now
      requires Fresh(Store(), op)
      modifies this
      ensures accounts == old(accounts) && usedFamilies == old(usedFamilies)
      ensures child == if Judge(old(Store()), op) == Rotated then Some(id) else None
      ensures child.None? ==>
        && sessions == RefreshSessionRows(old(Store()), op)
        && usedIds == old(usedIds) && usedTokens == old(usedTokens)
      ensures child.Some? ==>
        && sessions == Retired(old(Store()), op).sessions[id := Added(old(Store()), op).value]
        && usedIds == old(usedIds) + {id} && usedTokens == old(usedTokens) + {next}
    {
      ghost var s := Store();
      var matches := set x | x in sessions && sessions[x].token == token;
      if matches == {} {
        assert FindToken(s.sessions, token) == None by {
          forall x ensures !HasToken(s.sessions, x, token) { assert x !in matches; }
        }
        return None;
      }
      var currentId :| currentId in matches;
      var current := sessions[currentId];
      IndexFinds(s, currentId, token);
      if current.revoked {
        sessions := RevokeSet(sessions, OfFamily(sessions, current.family));
        return None;
      }
      if current.expiresAt <= now {
        sessions := RevokeSet(sessions, {currentId});
        return None;
      }
      sessions := RevokeSet(sessions, {currentId});
      sessions := sessions[id := Child(current, currentId, next)];
      usedIds, usedTokens := usedIds + {id}, usedTokens + {next};
      child := Some(id);
    }

    method Refresh(token: Token, id: SessionId, next: Token, now: Time, requireVerified: bool, checkedAt: Time)
      returns (child: Option<SessionId>)
      requires Valid() && Fresh(Store(), Op.Refresh(token, id, next, now, requireVerified, checkedAt))
      modifies this
      ensures Performed(Op.Refresh(token, id, next, now, requireVerified, checkedAt))
      ensures child.Some? <==> Exchanged(old(Store()), Op.Refresh(token, id, next, now, requireVerified, checkedAt))
      ensures child.Some? ==> child.value == id
      ensures forall x | x in old(sessions) && old(sessions)[x].token == token ::
        child.Some? <==> Honoured(old(Store()), x, now, requireVerified, checkedAt)
      ensures (forall x | x in old(sessions) :: old(sessions)[x].token != token) ==> child.None?
    {
      ghost var op, s := Op.Refresh(token, id, next, now, requireVerified, checkedAt), Store();
      StepKeepsIndexed(s, op);
      ExchangedExactlyIfHonoured(s, op);
      child := Rotate(token, id, next, now, op);
      if child.Some? {
        RotationInStages(s, op);
        var user := sessions[id].user;
        if !UserMayLogIn(user, requireVerified, checkedAt) {
          sessions := RevokeSet(sessions, OfUser(sessions, user));
          child := None;
        }
      }
    }

    predicate UserMayLogIn(user: UserId, requireVerified: bool, now: Time)
      reads this
    {
      user in accounts && Eligible(accounts[user], requireVerified, now)
    }

    method Revoke(id: SessionId) returns (changed: bool)
      requires Valid()
      modifies this
      ensures Performed(Op.Revoke(id))
      ensures changed == (id in old(sessions) && !old(sessions)[id].revoked)
    {
      StepKeepsIndexed(Store(), Op.Revoke(id));
      changed := id in sessions && !sessions[id].revoked;
      sessions := RevokeSet(sessions, {id});
    }

    /** A user revoking a session of their own other than the one they are using. */
    method RevokeOwned(user: UserId, id: SessionId, current: SessionId) returns (answer: Answer)
      requires Valid()
      modifies this
      ensures answer == NotFound <==> id !in old(OfUser(sessions, user))
      ensures answer == Conflict <==> id in old(OfUser(sessions, user)) && (id == current || old(sessions)[id].revoked)
      ensures if answer == Done then Performed(Op.Revoke(id)) else Valid() && Store() == old(Store())
    {
      if id !in sessions || sessions[id].user != user { return NotFound; }
      if id == current || sessions[id].revoked { return Conflict; }
      var changed := Revoke(id);
      answer := Done;
    }

    /** Also the last step of a password reset. */
    method RevokeAll(user: UserId) returns (count: nat)
      requires Valid()
      modifies this
      ensures Performed(Op.RevokeAll(user))
      ensures count == |LiveAmong(old(sessions), old(OfUser(sessions, user)))|
    {
      StepKeepsIndexed(Store(), Op.RevokeAll(user));
      count := |LiveAmong(sessions, OfUser(sessions, user))|;
      sessions := RevokeSet(sessions, OfUser(sessions, user));
    }

    /** Also the last step of a password change. */
    method RevokeOthers(user: UserId, current: SessionId, now: Time) returns (count: nat)
      requires Valid()
      modifies this
      ensures Performed(Op.RevokeOthers(user, current, now))
      ensures count == |LiveAmong(old(sessions), old(OthersOf(sessions, user, current, now)))|
    {
      StepKeepsIndexed(Store(), Op.RevokeOthers(user, current, now));
      count := |LiveAmong(sessions, OthersOf(sessions, user, current, now))|;
      sessions := RevokeSet(sessions, OthersOf(sessions, user, current, now));
    }

    method Sweep(now: Time, retention: Time, expire: set<SessionId>, delete: set<SessionId>)
      requires Valid()
      modifies this
      ensures Performed(Op.Cleanup(now, retention, expire, delete))
    {
      StepKeepsIndexed(Store(), Op.Cleanup(now, retention, expire, delete));
      sessions := RevokeSet(sessions, Overdue(sessions, now, expire));
      var expiredBefore := now - retention;
      sessions := sessions - Removable(sessions, expiredBefore, delete);
    }

    /** Revokes what has expired of one batch and deletes what may go of another; says how many of
        each. */
    method Cleanup(now: Time, retention: Time, expire: set<SessionId>, delete: set<SessionId>)
      returns (expired: nat, deleted: nat)
      requires Valid()
      modifies this
      ensures Performed(Op.Cleanup(now, retention, expire, delete))
      ensures expired == |LiveAmong(old(sessions), old(Overdue(sessions, now, expire)))|
      ensures deleted == CountGone(old(sessions), old(CleanUp(sessions, Op.Cleanup(now, retention, expire, delete))))
    {
      expired, deleted := CountSweep(sessions, now, retention, expire, delete);
      Sweep(now, retention, expire, delete);
    }
  }
}
