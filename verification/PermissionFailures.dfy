/** When the permission cache is wrong, and for how long: invalidations that never reach it, and
    lookups that overlap changes. For each of them, exactly when it does harm. */
module PermissionFailures {
  import opened Common
  import opened Permissions

  // ---------- Which calls change what a user may do ----------

  predicate Carries(g: Grants, user: UserId, role: Role, permission: Permission) {
    (user, role) in g.userRoles && (role, permission) in g.rolePermissions
  }

  /** A role of the user other than this one carries the permission. */
  ghost predicate CarriedElsewhere(g: Grants, user: UserId, role: Role, permission: Permission) {
    exists other: Role :: other != role && Carries(g, user, other, permission)
  }

  lemma PermissionsAreCarried(g: Grants, user: UserId, permission: Permission)
    ensures permission in PermissionsOf(g, user) <==> exists role: Role :: Carries(g, user, role, permission)
  {
    if permission in PermissionsOf(g, user) {
      var pair :| pair in g.rolePermissions && (user, pair.0) in g.userRoles && pair.1 == permission;
      assert Carries(g, user, pair.0, permission);
    }
    if role: Role :| Carries(g, user, role, permission) {
      assert (role, permission) in g.rolePermissions;
    }
  }

  predicate FlipsRole(s: State, op: Op, user: UserId, role: Role) {
    && Accepted(s, op)
    && ((op.AssignRole? && op.user == user && op.role == role)
        || (op.RevokeRole? && op.user == user && op.role == role && (user, role) in s.grants.userRoles))
  }

  /** The user gains or loses the permission by the call: through the role it names, and through
      no other role. */
  ghost predicate FlipsPermission(s: State, op: Op, user: UserId, permission: Permission) {
    var g := s.grants;
    && Accepted(s, op)
    && ((op.AssignRole? && op.user == user && (op.role, permission) in g.rolePermissions)
        || (op.RevokeRole? && op.user == user && Carries(g, user, op.role, permission))
        || (op.AssignPermission? && op.permission == permission && (user, op.role) in g.userRoles)
        || (op.RevokePermission? && op.permission == permission && Carries(g, user, op.role, permission)))
    && !CarriedElsewhere(g, user, op.role, permission)
  }

  lemma RoleFlipsExactlyIf(s: State, op: Op, user: UserId, role: Role)
    ensures FlipsRole(s, op, user, role) <==>
      (role in RolesOf(Step(s, op).grants, user)) != (role in RolesOf(s.grants, user))
  {
    HasRole(s.grants, user, role);
    HasRole(Step(s, op).grants, user, role);
  }

  lemma HasRole(g: Grants, user: UserId, role: Role)
    ensures role in RolesOf(g, user) <==> (user, role) in g.userRoles
  {
  }

  /** The call changes nothing about what other roles carry. */
  lemma ElsewhereStays(s: State, op: Op, user: UserId, permission: Permission)
    requires op.AssignRole? || op.RevokeRole? || op.AssignPermission? || op.RevokePermission?
    ensures CarriedElsewhere(Step(s, op).grants, user, op.role, permission) <==>
      CarriedElsewhere(s.grants, user, op.role, permission)
  {
    forall other: Role | other != op.role
      ensures Carries(Step(s, op).grants, user, other, permission) <==> Carries(s.grants, user, other, permission)
    {
    }
  }

  lemma CarriedHereOrElsewhere(g: Grants, user: UserId, role: Role, permission: Permission)
    ensures permission in PermissionsOf(g, user) <==>
      Carries(g, user, role, permission) || CarriedElsewhere(g, user, role, permission)
  {
    PermissionsAreCarried(g, user, permission);
  }

  lemma PermissionFlipsExactlyIf(s: State, op: Op, user: UserId, permission: Permission)
    ensures FlipsPermission(s, op, user, permission) <==>
      (permission in PermissionsOf(Step(s, op).grants, user)) != (permission in PermissionsOf(s.grants, user))
  {
    if op.AssignRole? || op.RevokeRole? || op.AssignPermission? || op.RevokePermission? {
      ElsewhereStays(s, op, user, permission);
      CarriedHereOrElsewhere(s.grants, user, op.role, permission);
      CarriedHereOrElsewhere(Step(s, op).grants, user, op.role, permission);
    } else {
      assert PermissionsOf(Step(s, op).grants, user) == PermissionsOf(s.grants, user);
    }
  }

  /** The calls that change a user's snapshot: a role gained or lost, and a permission of a held
      role that no other held role carries. */
  ghost predicate Affects(s: State, op: Op, user: UserId) {
    && Accepted(s, op)
    && ((op.AssignRole? && op.user == user)
        || (op.RevokeRole? && op.user == user && (user, op.role) in s.grants.userRoles)
        || (op.AssignPermission? && (user, op.role) in s.grants.userRoles
            && !CarriedElsewhere(s.grants, user, op.role, op.permission))
        || (op.RevokePermission? && Carries(s.grants, user, op.role, op.permission)
            && !CarriedElsewhere(s.grants, user, op.role, op.permission)))
  }

  lemma AffectsExactlyIf(s: State, op: Op, user: UserId)
    ensures Affects(s, op, user) <==> SnapshotOf(Step(s, op).grants, user) != SnapshotOf(s.grants, user)
  {
    var before, after := s.grants, Step(s, op).grants;
    if Affects(s, op, user) {
      RoleFlipsExactlyIf(s, op, user, op.role);
      if op.AssignPermission? || op.RevokePermission? { PermissionFlipsExactlyIf(s, op, user, op.permission); }
    } else {
      forall role: Role ensures role in RolesOf(after, user) <==> role in RolesOf(before, user) {
        RoleFlipsExactlyIf(s, op, user, role);
      }
      forall permission: Permission
        ensures permission in PermissionsOf(after, user) <==> permission in PermissionsOf(before, user)
      {
        PermissionFlipsExactlyIf(s, op, user, permission);
      }
    }
  }

  // ---------- Invalidations that are lost ----------

  predicate Cached(s: State, user: UserId) {
    KeyOf(s.cache, user, 0) in s.cache.entries
  }

  /** What a lookup can find for the user, if anything, is what the database says. */
  predicate CoherentFor(s: State, user: UserId) {
    Cached(s, user) ==> s.cache.entries[KeyOf(s.cache, user, 0)] == SnapshotOf(s.grants, user)
  }

  lemma CoherentUserByUser(s: State)
    ensures Coherent(s) <==> forall user: UserId :: CoherentFor(s, user)
  {
    if forall user: UserId :: CoherentFor(s, user) {
      forall k | k in s.cache.entries && k == KeyOf(s.cache, k.user, 0)
        ensures s.cache.entries[k] == SnapshotOf(s.grants, k.user)
      {
        assert CoherentFor(s, k.user);
      }
    }
    if Coherent(s) {
      forall user: UserId ensures CoherentFor(s, user) {
        var k := KeyOf(s.cache, user, 0);
        assert k == KeyOf(s.cache, k.user, 0);
      }
    }
  }

  predicate Invalidates(op: Op) {
    op.RegisterPermission? || op.AssignRole? || op.RevokeRole? || op.AssignPermission? || op.RevokePermission?
  }

  /** No grant call fails when its invalidation is lost. The cache then stays coherent exactly if
      the call affects nobody who has a snapshot cached. */
  lemma LostInvalidationIsSafeExactlyIf(s: State, op: Op)
    requires Good(s) && Invalidates(op) && Accepted(s, op) && !op.reached
    ensures Coherent(Step(s, op)) <==> forall user: UserId :: Cached(s, user) ==> !Affects(s, op, user)
  {
    var s' := Step(s, op);
    CoherentUserByUser(s);
    CoherentUserByUser(s');
    forall user: UserId ensures CoherentFor(s', user) <==> (Cached(s, user) ==> !Affects(s, op, user)) {
      AffectsExactlyIf(s, op, user);
      assert CoherentFor(s, user);
    }
  }

  /** Granting a role: nothing may be cached for the user. */
  lemma LostInvalidationIsSafeExactlyIfNotCached(s: State, op: Op)
    requires Good(s) && op.AssignRole? && Accepted(s, op) && !op.reached
    ensures Coherent(Step(s, op)) <==> !Cached(s, op.user)
  {
    LostInvalidationIsSafeExactlyIf(s, op);
    assert Affects(s, op, op.user);
  }

  /** Taking a role away: the user must not have had it, or nothing may be cached. */
  lemma LostRevocationIsSafeExactlyIf(s: State, op: Op)
    requires Good(s) && op.RevokeRole? && Accepted(s, op) && !op.reached
    ensures Coherent(Step(s, op)) <==> (op.user, op.role) !in s.grants.userRoles || !Cached(s, op.user)
  {
    LostInvalidationIsSafeExactlyIf(s, op);
    assert Affects(s, op, op.user) <==> (op.user, op.role) in s.grants.userRoles;
  }

  /** Granting a role a permission: every cached holder of the role must have it already. */
  lemma LostPermissionIsSafeExactlyIf(s: State, op: Op)
    requires Good(s) && op.AssignPermission? && Accepted(s, op) && !op.reached
    ensures Coherent(Step(s, op)) <==>
      forall user: UserId | (user, op.role) in s.grants.userRoles && Cached(s, user) ::
        op.permission in PermissionsOf(s.grants, user)
  {
    LostInvalidationIsSafeExactlyIf(s, op);
    forall user: UserId
      ensures Affects(s, op, user) <==>
        (user, op.role) in s.grants.userRoles && op.permission !in PermissionsOf(s.grants, user)
    {
      CarriedHereOrElsewhere(s.grants, user, op.role, op.permission);
    }
  }

  /** Taking a permission from a role: the role must not have had it, or every cached holder of
      the role must have it through another role. */
  lemma LostPermissionRevocationIsSafeExactlyIf(s: State, op: Op)
    requires Good(s) && op.RevokePermission? && Accepted(s, op) && !op.reached
    ensures Coherent(Step(s, op)) <==>
      || (op.role, op.permission) !in s.grants.rolePermissions
      || forall user: UserId | (user, op.role) in s.grants.userRoles && Cached(s, user) ::
           CarriedElsewhere(s.grants, user, op.role, op.permission)
  {
    LostInvalidationIsSafeExactlyIf(s, op);
    forall user: UserId
      ensures Affects(s, op, user) <==>
        && (user, op.role) in s.grants.userRoles && (op.role, op.permission) in s.grants.rolePermissions
        && !CarriedElsewhere(s.grants, user, op.role, op.permission)
    {
    }
  }

  /** A new permission is nobody's yet. */
  lemma LostRegistrationIsSafe(s: State, op: Op)
    requires Good(s) && op.RegisterPermission? && Accepted(s, op) && !op.reached
    ensures Coherent(Step(s, op))
  {
    LostInvalidationIsSafeExactlyIf(s, op);
  }

  ghost function Known(role: Role): State {
    Step(EMPTY, AddRole(role))
  }

  /** A run in which an invalidation is lost and the resolver then misses a granted role. */
  lemma StaleAnswer(user: UserId, role: Role) returns (h: Run, op: Op)
    ensures StartsFrom(h, EMPTY) && op.Resolve? && op.user == user
    ensures (user, role) in After(h).grants.userRoles && role !in Answer(After(h), op).roles
  {
    op := Resolve(user, true, true, 0);
    var h0 := Start(EMPTY);
    var h1 := Then(h0, AddRole(role));
    var h2 := Then(h1, op);
    h := Then(h2, AssignRole(user, role, false));
    assert StartsFrom(h1, EMPTY) && StartsFrom(h2, EMPTY);
    var known := Known(role);
    assert After(h0) == EMPTY && After(h1) == known;
    assert known.cache == EMPTY.cache && known.grants.userRoles == {} && role in known.grants.roles;
    var k := CacheKey(0, user, 0);
    assert After(h2) == Step(known, op);
    assert After(h2).cache.entries[k] == SnapshotOf(known.grants, user);
    assert RolesOf(known.grants, user) == {};
    assert KeyOf(After(h).cache, user, 0) == k;
  }

  /** A run in which a role is taken away, the invalidation is lost, and the resolver still
      answers with the role. */
  lemma RevokedRoleIsServed(user: UserId, role: Role) returns (h: Run, op: Op)
    ensures StartsFrom(h, EMPTY) && op.Resolve? && op.user == user
    ensures (user, role) !in After(h).grants.userRoles && role in Answer(After(h), op).roles
  {
    op := Resolve(user, true, true, 0);
    var h1 := Then(Start(EMPTY), AddRole(role));
    var h2 := Then(h1, AssignRole(user, role, true));
    var h3 := Then(h2, op);
    h := Then(h3, RevokeRole(user, role, false));
    assert StartsFrom(h1, EMPTY) && StartsFrom(h2, EMPTY) && StartsFrom(h3, EMPTY);
    var known := Known(role);
    assert After(h1) == known && role in known.grants.roles && known.grants.userRoles == {};
    var granted := Step(known, AssignRole(user, role, true));
    assert After(h2) == granted && granted.grants.userRoles == {(user, role)};
    assert granted.cache.generation == None && granted.cache.versions == map[user := 1];
    assert granted.cache.entries == map[];
    var k := CacheKey(0, user, 1);
    assert After(h3) == Step(granted, op);
    assert After(h3).cache.entries[k] == SnapshotOf(granted.grants, user);
    HasRole(granted.grants, user, role);
    assert KeyOf(After(h).cache, user, 0) == k;
  }

  // ---------- One user, and recovery ----------

  lemma StepOnlyAdvances(s: State, op: Op)
    requires NoneAhead(s.cache)
    ensures NoneAhead(Step(s, op).cache)
  {
    if op.Resolve? {
      assert Step(s, op).cache == ResolveCache(s, op);
    }
  }

  lemma {:induction false} KeysOnlyAdvance(h: Run)
    requires StartsFrom(h, EMPTY)
    ensures NoneAhead(After(h).cache)
  {
    if h.Then? {
      KeysOnlyAdvance(h.past);
      StepOnlyAdvances(After(h.past), h.op);
    }
  }

  /** The call removes what is cached for the user, or moves the user's key away from it. */
  predicate Removes(s: State, op: Op, user: UserId) {
    && Accepted(s, op)
    && ((op.Evict? && KeyOf(s.cache, user, 0) in op.keys)
        || ((op.AssignRole? || op.RevokeRole?) && op.user == user && op.reached)
        || ((op.RegisterPermission? || op.AssignPermission? || op.RevokePermission?) && op.reached))
  }

  /** The call is a lookup that stores what the database says about the user now. */
  predicate Stores(s: State, op: Op, user: UserId) {
    op.Resolve? && op.user == user && !Hit(s.cache, op) && op.writable
  }

  predicate Renews(s: State, op: Op, user: UserId) {
    Removes(s, op, user) || Stores(s, op, user)
  }

  /** However wrong the cache is, such a call puts it right for the user. */
  lemma RenewalRestores(h: Run, op: Op, user: UserId)
    requires StartsFrom(h, EMPTY) && Renews(After(h), op, user)
    ensures CoherentFor(After(Then(h, op)), user)
  {
    KeysOnlyAdvance(h);
  }

  lemma UnaffectedStaysCoherent(s: State, op: Op, user: UserId)
    requires NoneAhead(s.cache) && CoherentFor(s, user) && !Affects(s, op, user)
    ensures CoherentFor(Step(s, op), user)
  {
    AffectsExactlyIf(s, op, user);
  }

  /** Since the last renewal, nothing has changed what the user may do. What happens to other
      users, and to their invalidations, does not matter. */
  ghost predicate Informed(h: Run, user: UserId) {
    h.Then? ==> Renews(After(h.past), h.op, user) || (Informed(h.past, user) && !Affects(After(h.past), h.op, user))
  }

  lemma {:induction false} InformedMeansCoherent(h: Run, user: UserId)
    requires StartsFrom(h, EMPTY) && Informed(h, user)
    ensures CoherentFor(After(h), user)
  {
    if h.Then? {
      if Renews(After(h.past), h.op, user) {
        RenewalRestores(h.past, h.op, user);
      } else {
        InformedMeansCoherent(h.past, user);
        KeysOnlyAdvance(h.past);
        UnaffectedStaysCoherent(After(h.past), h.op, user);
      }
    }
  }

  /** The answers about a user are right in any run in which the invalidations that concern this
      user arrived, or the user's entry was renewed since. */
  lemma AnswersFollowTheUser(h: Run, op: Op)
    requires StartsFrom(h, EMPTY) && op.Resolve? && Informed(h, op.user)
    ensures Answer(After(h), op) == SnapshotOf(After(h).grants, op.user)
  {
    InformedMeansCoherent(h, op.user);
    KeysOnlyAdvance(h);
  }

  // ---------- Lookups that overlap other calls ----------

  /** The last part of a lookup by itself: a snapshot read earlier is stored under the key that is
      current by now. */
  function StoreLate(s: State, user: UserId, snapshot: Snapshot, seed: nat): State {
    var c := Started(s.cache, seed);
    s.(cache := c.(entries := c.entries[KeyOf(c, user, seed) := snapshot]))
  }

  /** Only the stored snapshot can be wrong. */
  lemma StoringIsSafeExactlyIfCurrent(s: State, user: UserId, snapshot: Snapshot, seed: nat)
    requires Good(s)
    ensures Coherent(StoreLate(s, user, snapshot, seed)) <==> snapshot == SnapshotOf(s.grants, user)
  {
    var s' := StoreLate(s, user, snapshot, seed);
    CoherentUserByUser(s');
    assert CoherentFor(s', user) <==> snapshot == SnapshotOf(s.grants, user);
    CoherentUserByUser(s);
    forall other: UserId | other != user ensures CoherentFor(s', other) {
      assert CoherentFor(s, other);
    }
  }

  /** How often the calls after `g` gave the user the role or took it away. */
  ghost function RoleFlips(g: Run, h: Run, user: UserId, role: Role): nat
    requires Extends(h, g)
    decreases h
  {
    if h == g then 0
    else RoleFlips(g, h.past, user, role) + if FlipsRole(After(h.past), h.op, user, role) then 1 else 0
  }

  ghost function PermissionFlips(g: Run, h: Run, user: UserId, permission: Permission): nat
    requires Extends(h, g)
    decreases h
  {
    if h == g then 0
    else
      PermissionFlips(g, h.past, user, permission)
      + if FlipsPermission(After(h.past), h.op, user, permission) then 1 else 0
  }

  lemma {:induction false} RoleParity(g: Run, h: Run, user: UserId, role: Role)
    requires Extends(h, g)
    ensures (role in RolesOf(After(h).grants, user) <==> role in RolesOf(After(g).grants, user))
      <==> RoleFlips(g, h, user, role) % 2 == 0
    decreases h
  {
    if h != g {
      RoleParity(g, h.past, user, role);
      RoleFlipsExactlyIf(After(h.past), h.op, user, role);
    }
  }

  lemma {:induction false} PermissionParity(g: Run, h: Run, user: UserId, permission: Permission)
    requires Extends(h, g)
    ensures (permission in PermissionsOf(After(h).grants, user) <==> permission in PermissionsOf(After(g).grants, user))
      <==> PermissionFlips(g, h, user, permission) % 2 == 0
    decreases h
  {
    if h != g {
      PermissionParity(g, h.past, user, permission);
      PermissionFlipsExactlyIf(After(h.past), h.op, user, permission);
    }
  }

  /** Every role and every permission the user gained or lost meanwhile was lost or gained back. */
  ghost predicate Undone(g: Run, h: Run, user: UserId)
    requires Extends(h, g)
  {
    && (forall role: Role :: RoleFlips(g, h, user, role) % 2 == 0)
    && (forall permission: Permission :: PermissionFlips(g, h, user, permission) % 2 == 0)
  }

  lemma UndoneExactlyIf(g: Run, h: Run, user: UserId)
    requires Extends(h, g)
    ensures Undone(g, h, user) <==> SnapshotOf(After(g).grants, user) == SnapshotOf(After(h).grants, user)
  {
    forall role: Role
      ensures RoleFlips(g, h, user, role) % 2 == 0 <==>
        (role in RolesOf(After(h).grants, user) <==> role in RolesOf(After(g).grants, user))
    {
      RoleParity(g, h, user, role);
    }
    forall permission: Permission
      ensures PermissionFlips(g, h, user, permission) % 2 == 0 <==>
        (permission in PermissionsOf(After(h).grants, user) <==> permission in PermissionsOf(After(g).grants, user))
    {
      PermissionParity(g, h, user, permission);
    }
  }

  /** A lookup that reads the database at `g` and stores at `h` keeps the cache coherent exactly if
      the calls in between took each role and each permission of the user up or down an even
      number of times. Delivering every invalidation is not enough. */
  lemma OverlappedLookupIsSafeExactlyIf(g: Run, h: Run, user: UserId, seed: nat)
    requires StartsFrom(h, EMPTY) && Invalidated(h) && Extends(h, g)
    ensures Coherent(StoreLate(After(h), user, SnapshotOf(After(g).grants, user), seed)) <==> Undone(g, h, user)
  {
    AlwaysGood(h);
    StoringIsSafeExactlyIfCurrent(After(h), user, SnapshotOf(After(g).grants, user), seed);
    UndoneExactlyIf(g, h, user);
  }

  ghost predicate LeavesAlone(g: Run, h: Run, user: UserId)
    requires Extends(h, g)
    decreases h
  {
    h != g ==> LeavesAlone(g, h.past, user) && !Affects(After(h.past), h.op, user)
  }

  lemma {:induction false} SnapshotOutlives(g: Run, h: Run, user: UserId)
    requires Extends(h, g) && LeavesAlone(g, h, user)
    ensures SnapshotOf(After(h).grants, user) == SnapshotOf(After(g).grants, user)
    decreases h
  {
    if h != g {
      SnapshotOutlives(g, h.past, user);
      AffectsExactlyIf(After(h.past), h.op, user);
    }
  }

  /** So it is safe if none of the calls in between affects the user. */
  lemma OverlappedLookupIsSafe(g: Run, h: Run, user: UserId, seed: nat)
    requires StartsFrom(h, EMPTY) && Invalidated(h) && Extends(h, g) && LeavesAlone(g, h, user)
    ensures Coherent(StoreLate(After(h), user, SnapshotOf(After(g).grants, user), seed))
  {
    SnapshotOutlives(g, h, user);
    UndoneExactlyIf(g, h, user);
    OverlappedLookupIsSafeExactlyIf(g, h, user, seed);
  }

  /** If exactly one of them does, whichever kind it is, the old snapshot lands under the new key
      and is served from there, although every invalidation reached the cache. */
  lemma OverlappedLookupGoesStale(g: Run, op: Op, h: Run, user: UserId, seed: nat)
    requires StartsFrom(h, EMPTY) && Invalidated(h) && Extends(h, g) && Extends(h, Then(g, op))
    requires Affects(After(g), op, user) && LeavesAlone(Then(g, op), h, user)
    ensures !Coherent(StoreLate(After(h), user, SnapshotOf(After(g).grants, user), seed))
  {
    AffectsExactlyIf(After(g), op, user);
    SnapshotOutlives(Then(g, op), h, user);
    UndoneExactlyIf(g, h, user);
    OverlappedLookupIsSafeExactlyIf(g, h, user, seed);
  }

  // ---------- Grants that commit after their invalidation ----------

  /** A request that has read before it grants is inside a transaction by then: its invalidation
      goes out when the grant is written, and the grant becomes visible when the request commits. */
  function InvalidateFirst(s: State, op: Op): State {
    State(s.grants, Recache(s, op))
  }

  function CommitLater(s: State, op: Op): State {
    State(Regrant(s, op), s.cache)
  }

  /** The commit alone is like a call whose invalidation is lost. */
  lemma CommittingIsSafeExactlyIf(s: State, op: Op)
    requires Good(s) && Invalidates(op) && Accepted(s, op)
    ensures Coherent(CommitLater(s, op)) <==> forall user: UserId :: Cached(s, user) ==> !Affects(s, op, user)
  {
    var lost := op.(reached := false);
    assert CommitLater(s, op) == Step(s, lost);
    LostInvalidationIsSafeExactlyIf(s, lost);
    assert forall user: UserId :: Affects(s, lost, user) <==> Affects(s, op, user);
  }

  /** Something is cached for the user because of a lookup in this stretch of calls. */
  ghost predicate StoredIn(k: Run, user: UserId) {
    k.Then? && (Stores(After(k.past), k.op, user) || (StoredIn(k.past, user) && !Removes(After(k.past), k.op, user)))
  }

  lemma StepCaches(s: State, op: Op, user: UserId)
    requires NoneAhead(s.cache)
    ensures Cached(Step(s, op), user) <==> Stores(s, op, user) || (Cached(s, user) && !Removes(s, op, user))
  {
  }

  lemma {:induction false} CachedExactlyIfStored(k: Run, origin: State, user: UserId)
    requires StartsFrom(k, origin) && NoneAhead(origin.cache) && !Cached(origin, user)
    ensures NoneAhead(After(k).cache)
    ensures Cached(After(k), user) <==> StoredIn(k, user)
  {
    if k.Then? {
      CachedExactlyIfStored(k.past, origin, user);
      StepOnlyAdvances(After(k.past), k.op);
      StepCaches(After(k.past), k.op, user);
    }
  }

  lemma {:induction false} GoodStays(k: Run, origin: State)
    requires StartsFrom(k, origin) && Good(origin) && Invalidated(k)
    ensures Good(After(k))
  {
    if k.Then? {
      GoodStays(k.past, origin);
      StepKeepsGood(After(k.past), k.op);
    }
  }

  lemma InvalidatingKeepsGood(s: State, op: Op)
    requires Good(s) && Invalidates(op) && Accepted(s, op) && op.reached
    ensures Good(InvalidateFirst(s, op))
    ensures forall user: UserId | Removes(s, op, user) :: !Cached(InvalidateFirst(s, op), user)
  {
    var s' := InvalidateFirst(s, op);
    CoherentUserByUser(s);
    CoherentUserByUser(s');
    forall user: UserId ensures CoherentFor(s', user) && (Removes(s, op, user) ==> !Cached(s', user)) {
      assert CoherentFor(s, user);
    }
  }

  /** If other calls come between the invalidation of a grant and its commit, the cache is coherent
      afterwards exactly if no lookup among them has left a snapshot of a user the grant affects. */
  lemma LookupBetweenIsHarmlessExactlyIf(g: Run, op: Op, k: Run)
    requires StartsFrom(g, EMPTY) && Invalidated(g)
    requires Invalidates(op) && Accepted(After(g), op) && op.reached
    requires StartsFrom(k, InvalidateFirst(After(g), op)) && Invalidated(k) && Accepted(After(k), op)
    ensures Coherent(CommitLater(After(k), op)) <==>
      forall user: UserId :: Affects(After(k), op, user) ==> !StoredIn(k, user)
  {
    AlwaysGood(g);
    InvalidatingKeepsGood(After(g), op);
    GoodStays(k, InvalidateFirst(After(g), op));
    CommittingIsSafeExactlyIf(After(k), op);
    forall user: UserId | Affects(After(k), op, user) ensures Cached(After(k), user) <==> StoredIn(k, user) {
      assert Removes(After(g), op, user);
      CachedExactlyIfStored(k, InvalidateFirst(After(g), op), user);
    }
  }

  /** So one lookup of a user whose role is being taken away is enough: the role is served after
      the revocation has been committed and its invalidation delivered. */
  lemma RevocationBehindALookup(g: Run, user: UserId, role: Role, seed: nat)
    requires StartsFrom(g, EMPTY) && Invalidated(g)
    requires (user, role) in After(g).grants.userRoles && Accepted(After(g), RevokeRole(user, role, true))
    ensures var op, lookup := RevokeRole(user, role, true), Resolve(user, true, true, seed);
      var s := CommitLater(Step(InvalidateFirst(After(g), op), lookup), op);
      (user, role) !in s.grants.userRoles && role in Answer(s, lookup).roles
  {
    var op, lookup := RevokeRole(user, role, true), Resolve(user, true, true, seed);
    var s1 := InvalidateFirst(After(g), op);
    AlwaysGood(g);
    InvalidatingKeepsGood(After(g), op);
    assert Removes(After(g), op, user) && !Cached(s1, user);
    HasRole(s1.grants, user, role);
    var s2 := Step(s1, lookup);
    assert s2.cache.entries[KeyOf(s2.cache, user, seed)] == SnapshotOf(s1.grants, user);
  }
}
