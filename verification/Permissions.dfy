/** Role and permission grants, and the versioned cache of what each user may do. A cached
    snapshot lives under a key that names a generation and the user's version; invalidating means
    moving to a new key. */
module Permissions {
  import opened Common

  type UserId = nat
  type Role = string
  type Permission = string

  datatype Snapshot = Snapshot(roles: set<Role>, permissions: set<Permission>)

  datatype Grants = Grants(
    roles: set<Role>,
    permissions: set<Permission>,
    userRoles: set<(UserId, Role)>,
    rolePermissions: set<(Role, Permission)>)

  datatype CacheKey = CacheKey(generation: nat, user: UserId, version: nat)

  datatype Cache = Cache(generation: Option<nat>, versions: map<UserId, nat>, entries: map<CacheKey, Snapshot>)

  datatype State = State(grants: Grants, cache: Cache)

  const EMPTY := State(Grants({}, {}, {}, {}), Cache(None, map[], map[]))

  /** `reached` says whether the cache server answered; the service carries on if it did not.
      `seed` is the clock reading that starts the first generation. */
  datatype Op =
    | AddRole(role: Role)
    | RegisterPermission(permission: Permission, reached: bool, seed: nat)
    | AssignRole(user: UserId, role: Role, reached: bool)
    | RevokeRole(user: UserId, role: Role, reached: bool)
    | AssignPermission(role: Role, permission: Permission, reached: bool, seed: nat)
    | RevokePermission(role: Role, permission: Permission, reached: bool, seed: nat)
    | Resolve(user: UserId, readable: bool, writable: bool, seed: nat)
    | Evict(keys: set<CacheKey>)

  type Run = History<State, Op>

  // ---------- What the database says ----------

  function RolesOf(g: Grants, user: UserId): set<Role> {
    set pair | pair in g.userRoles && pair.0 == user :: pair.1
  }

  function PermissionsOf(g: Grants, user: UserId): set<Permission> {
    set pair | pair in g.rolePermissions && (user, pair.0) in g.userRoles :: pair.1
  }

  function SnapshotOf(g: Grants, user: UserId): Snapshot {
    Snapshot(RolesOf(g, user), PermissionsOf(g, user))
  }

  // ---------- The cache ----------

  function VersionOf(c: Cache, user: UserId): nat {
    if user in c.versions then c.versions[user] else 0
  }

  function Generation(c: Cache, seed: nat): nat {
    if c.generation.Some? then c.generation.value else seed
  }

  /** Reading a key starts the first generation if there is none yet. */
  function Started(c: Cache, seed: nat): Cache {
    c.(generation := Some(Generation(c, seed)))
  }

  function KeyOf(c: Cache, user: UserId, seed: nat): CacheKey {
    CacheKey(Generation(c, seed), user, VersionOf(c, user))
  }

  function InvalidateUser(c: Cache, user: UserId): Cache {
    c.(versions := c.versions[user := VersionOf(c, user) + 1])
  }

  function InvalidateAll(c: Cache, seed: nat): Cache {
    c.(generation := Some(if c.generation.None? then seed else c.generation.value + 1))
  }

  // ---------- One call ----------

  predicate Accepted(s: State, op: Op) {
    match op
    case AddRole(_) => true
    case RegisterPermission(permission, _, _) => permission !in s.grants.permissions
    case AssignRole(user, role, _) => role in s.grants.roles && (user, role) !in s.grants.userRoles
    case RevokeRole(user, role, _) => role in s.grants.roles
    case AssignPermission(role, permission, _, _) =>
      role in s.grants.roles && permission in s.grants.permissions && (role, permission) !in s.grants.rolePermissions
    case RevokePermission(role, permission, _, _) => role in s.grants.roles && permission in s.grants.permissions
    case Resolve(_, _, _, _) => true
    case Evict(_) => true
  }

  function Hit(c: Cache, op: Op): bool
    requires op.Resolve?
  {
    op.readable && KeyOf(c, op.user, op.seed) in c.entries
  }

  /** What the resolver answers. */
  function Answer(s: State, op: Op): Snapshot
    requires op.Resolve?
  {
    if Hit(s.cache, op) then s.cache.entries[KeyOf(s.cache, op.user, op.seed)] else SnapshotOf(s.grants, op.user)
  }

  function ResolveCache(s: State, op: Op): Cache
    requires op.Resolve?
  {
    var c := if op.readable then Started(s.cache, op.seed) else s.cache;
    if Hit(s.cache, op) || !op.writable then c
    else
      var c' := Started(c, op.seed);
      c'.(entries := c'.entries[KeyOf(c', op.user, op.seed) := SnapshotOf(s.grants, op.user)])
  }

  function Regrant(s: State, op: Op): Grants {
    var g := s.grants;
    match op
    case AddRole(role) => g.(roles := g.roles + {role})
    case RegisterPermission(permission, _, _) => g.(permissions := g.permissions + {permission})
    case AssignRole(user, role, _) => g.(userRoles := g.userRoles + {(user, role)})
    case RevokeRole(user, role, _) => g.(userRoles := g.userRoles - {(user, role)})
    case AssignPermission(role, permission, _, _) => g.(rolePermissions := g.rolePermissions + {(role, permission)})
    case RevokePermission(role, permission, _, _) => g.(rolePermissions := g.rolePermissions - {(role, permission)})
    case Resolve(_, _, _, _) => g
    case Evict(_) => g
  }

  function Recache(s: State, op: Op): Cache {
    var c := s.cache;
    match op
    case AddRole(_) => c
    case RegisterPermission(_, reached, seed) => if reached then InvalidateAll(c, seed) else c
    case AssignRole(user, _, reached) => if reached then InvalidateUser(c, user) else c
    case RevokeRole(user, _, reached) => if reached then InvalidateUser(c, user) else c
    case AssignPermission(_, _, reached, seed) => if reached then InvalidateAll(c, seed) else c
    case RevokePermission(_, _, reached, seed) => if reached then InvalidateAll(c, seed) else c
    case Resolve(_, _, _, _) => ResolveCache(s, op)
    case Evict(keys) => c.(entries := c.entries - keys)
  }

  function Step(s: State, op: Op): State {
    if !Accepted(s, op) then s else State(Regrant(s, op), Recache(s, op))
  }

  function After(h: Run): State {
    match h
    case Start(s) => s
    case Then(past, op) => Step(After(past), op)
  }

  /** When a grant call is accepted. */
  lemma AcceptedExactlyIf(s: State, op: Op)
    ensures Accepted(s, op) <==>
      && (op.RegisterPermission? ==> op.permission !in s.grants.permissions)
      && (op.AssignRole? ==> op.role in s.grants.roles && (op.user, op.role) !in s.grants.userRoles)
      && (op.RevokeRole? ==> op.role in s.grants.roles)
      && (op.AssignPermission? ==>
          && op.role in s.grants.roles && op.permission in s.grants.permissions
          && (op.role, op.permission) !in s.grants.rolePermissions)
      && (op.RevokePermission? ==> op.role in s.grants.roles && op.permission in s.grants.permissions)
  {
  }

  /** What an accepted call leaves of the grants: the one it names given or taken, the rest as it
      was. */
  lemma GrantsDo(s: State, op: Op, user: UserId, role: Role, permission: Permission)
    requires Accepted(s, op)
    ensures var g, g' := s.grants, Step(s, op).grants;
      && (role in g'.roles <==> role in g.roles || (op.AddRole? && op.role == role))
      && (permission in g'.permissions <==>
          permission in g.permissions || (op.RegisterPermission? && op.permission == permission))
      && ((user, role) in g'.userRoles <==>
          if op.AssignRole? && op.user == user && op.role == role then true
          else if op.RevokeRole? && op.user == user && op.role == role then false
          else (user, role) in g.userRoles)
      && ((role, permission) in g'.rolePermissions <==>
          if op.AssignPermission? && op.role == role && op.permission == permission then true
          else if op.RevokePermission? && op.role == role && op.permission == permission then false
          else (role, permission) in g.rolePermissions)
  {
  }

  /** What a user may do: the roles given to the user, and whatever one of them has been given. */
  lemma SnapshotIs(g: Grants, user: UserId, role: Role, permission: Permission)
    ensures role in SnapshotOf(g, user).roles <==> (user, role) in g.userRoles
    ensures permission in SnapshotOf(g, user).permissions <==>
      exists r: Role :: (user, r) in g.userRoles && (r, permission) in g.rolePermissions
  {
    if permission in SnapshotOf(g, user).permissions {
      var pair :| pair in g.rolePermissions && (user, pair.0) in g.userRoles && pair.1 == permission;
      assert (user, pair.0) in g.userRoles && (pair.0, permission) in g.rolePermissions;
    }
    if r: Role :| (user, r) in g.userRoles && (r, permission) in g.rolePermissions {
      assert (r, permission) in g.rolePermissions;
    }
  }

  /** An invalidation that arrives moves one user's key, or everybody's, and touches no entry; one
      that does not arrive changes nothing. */
  lemma InvalidationsDo(s: State, op: Op, user: UserId)
    requires Accepted(s, op) && !op.Resolve? && !op.Evict?
    ensures var c, c' := s.cache, Step(s, op).cache;
      && c'.entries == c.entries
      && ((op.AddRole? || !op.reached) ==> c' == c)
      && (!op.AddRole? && op.reached ==>
          if op.AssignRole? || op.RevokeRole? then
            && c'.generation == c.generation
            && VersionOf(c', user) == VersionOf(c, user) + if user == op.user then 1 else 0
          else
            && VersionOf(c', user) == VersionOf(c, user)
            && c'.generation == Some(if c.generation.Some? then c.generation.value + 1 else op.seed))
  {
  }

  // ---------- Coherence ----------

  /** Changing one user's roles alters no other user's snapshot. */
  lemma UserGrantsAreLocal(g: Grants, user: UserId, role: Role, other: UserId)
    requires other != user
    ensures SnapshotOf(g.(userRoles := g.userRoles + {(user, role)}), other) == SnapshotOf(g, other)
    ensures SnapshotOf(g.(userRoles := g.userRoles - {(user, role)}), other) == SnapshotOf(g, other)
  {
    var more, fewer := g.(userRoles := g.userRoles + {(user, role)}), g.(userRoles := g.userRoles - {(user, role)});
    assert RolesOf(more, other) == RolesOf(g, other) && RolesOf(fewer, other) == RolesOf(g, other);
    assert PermissionsOf(more, other) == PermissionsOf(g, other);
    assert PermissionsOf(fewer, other) == PermissionsOf(g, other);
  }

  /** No entry lies under a key that has not been reached yet. */
  predicate NoneAhead(c: Cache) {
    forall k | k in c.entries ::
      c.generation.Some? && k.generation <= c.generation.value && k.version <= VersionOf(c, k.user)
  }

  /** Every snapshot that a lookup can find is what the database says. */
  predicate Coherent(s: State) {
    forall k | k in s.cache.entries && k == KeyOf(s.cache, k.user, 0) ::
      s.cache.entries[k] == SnapshotOf(s.grants, k.user)
  }

  predicate Good(s: State) {
    NoneAhead(s.cache) && Coherent(s)
  }

  /** Every invalidation in the run reached the cache; lookups and stores may have failed. */
  ghost predicate Invalidated(h: Run) {
    h.Then? ==> Invalidated(h.past) && (h.op.AddRole? || h.op.Resolve? || h.op.Evict? || h.op.reached)
  }

  lemma MovedKeysAreEmpty(s: State, op: Op, k: CacheKey)
    requires Good(s) && Accepted(s, op)
    requires op.RegisterPermission? || op.AssignPermission? || op.RevokePermission?
    requires op.reached && k in s.cache.entries
    ensures k != KeyOf(Recache(s, op), k.user, 0)
  {
  }

  lemma ResolveKeepsGood(s: State, op: Op)
    requires Good(s) && op.Resolve?
    ensures Good(Step(s, op))
  {
    var s' := Step(s, op);
    assert s'.grants == s.grants && s'.cache.versions == s.cache.versions;
    forall k | k in s'.cache.entries && k == KeyOf(s'.cache, k.user, 0)
      ensures s'.cache.entries[k] == SnapshotOf(s.grants, k.user)
    {
      if k in s.cache.entries && s'.cache.entries[k] == s.cache.entries[k] {
        assert k == KeyOf(s.cache, k.user, 0);
      }
    }
  }

  lemma UserChangeKeepsGood(s: State, op: Op)
    requires Good(s) && Accepted(s, op) && (op.AssignRole? || op.RevokeRole?) && op.reached
    ensures Good(Step(s, op))
  {
    var s' := Step(s, op);
    forall k | k in s'.cache.entries && k == KeyOf(s'.cache, k.user, 0)
      ensures s'.cache.entries[k] == SnapshotOf(s'.grants, k.user)
    {
      assert k.user != op.user;
      UserGrantsAreLocal(s.grants, op.user, op.role, k.user);
      assert k == KeyOf(s.cache, k.user, 0);
    }
  }

  lemma StepKeepsGood(s: State, op: Op)
    requires Good(s) && (op.AddRole? || op.Resolve? || op.Evict? || op.reached)
    ensures Good(Step(s, op))
  {
    if !Accepted(s, op) {
    } else if op.Resolve? {
      ResolveKeepsGood(s, op);
    } else if op.AssignRole? || op.RevokeRole? {
      UserChangeKeepsGood(s, op);
    } else if op.RegisterPermission? || op.AssignPermission? || op.RevokePermission? {
      forall k | k in s.cache.entries ensures k != KeyOf(Recache(s, op), k.user, 0) { MovedKeysAreEmpty(s, op, k); }
    } else if op.AddRole? {
      assert forall user :: SnapshotOf(Regrant(s, op), user) == SnapshotOf(s.grants, user);
    }
  }

  lemma {:induction false} AlwaysGood(h: Run)
    requires StartsFrom(h, EMPTY) && Invalidated(h)
    ensures Good(After(h))
  {
    if h.Then? {
      AlwaysGood(h.past);
      StepKeepsGood(After(h.past), h.op);
    }
  }

  /** The resolver always answers with the user's roles and the union of their permissions as the
      database has them now, whatever was cached, evicted or could not be read or stored. */
  lemma AnswersAreAuthoritative(h: Run, op: Op)
    requires StartsFrom(h, EMPTY) && Invalidated(h) && op.Resolve?
    ensures Answer(After(h), op) == SnapshotOf(After(h).grants, op.user)
  {
    AlwaysGood(h);
    if Hit(After(h).cache, op) {
      var k := KeyOf(After(h).cache, op.user, op.seed);
      assert k == KeyOf(After(h).cache, k.user, 0);
    }
  }

  // ---------- The service ----------

  class Service {
    var grants: Grants
    var cache: Cache

    constructor ()
      ensures Store() == EMPTY
    {
      grants, cache := Grants({}, {}, {}, {}), Cache(None, map[], map[]);
    }

    function Store(): State
      reads this
    {
      State(grants, cache)
    }

    method Resolve(user: UserId, readable: bool, writable: bool, seed: nat) returns (snapshot: Snapshot)
      modifies this`cache
      ensures snapshot == Answer(old(Store()), Op.Resolve(user, readable, writable, seed))
      ensures Store() == Step(old(Store()), Op.Resolve(user, readable, writable, seed))
    {
      if readable {
        cache := Started(cache, seed);
        var key := KeyOf(cache, user, seed);
        if key in cache.entries { return cache.entries[key]; }
      }
      snapshot := SnapshotOf(grants, user);
      if writable {
        cache := Started(cache, seed);
        cache := cache.(entries := cache.entries[KeyOf(cache, user, seed) := snapshot]);
      }
    }

    method AssignRole(user: UserId, role: Role, reached: bool) returns (done: bool)
      modifies this
      ensures done == Accepted(old(Store()), Op.AssignRole(user, role, reached))
      ensures Store() == Step(old(Store()), Op.AssignRole(user, role, reached))
    {
      if role !in grants.roles || (user, role) in grants.userRoles { return false; }
      grants := grants.(userRoles := grants.userRoles + {(user, role)});
      if reached { cache := InvalidateUser(cache, user); }
      done := true;
    }

    method RevokeRole(user: UserId, role: Role, reached: bool) returns (found: bool, removed: bool)
      modifies this
      ensures found == Accepted(old(Store()), Op.RevokeRole(user, role, reached))
      ensures removed == (found && (user, role) in old(grants).userRoles)
      ensures Store() == Step(old(Store()), Op.RevokeRole(user, role, reached))
    {
      if role !in grants.roles { return false, false; }
      removed := (user, role) in grants.userRoles;
      grants := grants.(userRoles := grants.userRoles - {(user, role)});
      if reached { cache := InvalidateUser(cache, user); }
      found := true;
    }

    method AssignPermission(role: Role, permission: Permission, reached: bool, seed: nat) returns (done: bool)
      modifies this
      ensures done == Accepted(old(Store()), Op.AssignPermission(role, permission, reached, seed))
      ensures Store() == Step(old(Store()), Op.AssignPermission(role, permission, reached, seed))
    {
      if role !in grants.roles || permission !in grants.permissions { return false; }
      if (role, permission) in grants.rolePermissions { return false; }
      grants := grants.(rolePermissions := grants.rolePermissions + {(role, permission)});
      if reached { cache := InvalidateAll(cache, seed); }
      done := true;
    }

    method RevokePermission(role: Role, permission: Permission, reached: bool, seed: nat)
      returns (found: bool, removed: bool)
      modifies this
      ensures found == Accepted(old(Store()), Op.RevokePermission(role, permission, reached, seed))
      ensures removed == (found && (role, permission) in old(grants).rolePermissions)
      ensures Store() == Step(old(Store()), Op.RevokePermission(role, permission, reached, seed))
    {
      if role !in grants.roles || permission !in grants.permissions { return false, false; }
      removed := (role, permission) in grants.rolePermissions;
      grants := grants.(rolePermissions := grants.rolePermissions - {(role, permission)});
      if reached { cache := InvalidateAll(cache, seed); }
      found := true;
    }
  }
}
