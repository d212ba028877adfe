/** The category tree of a store: the walk that validates a new parent, and why no serial run of
    creations and updates can close a cycle or leave the store. */
module Categories {
  import opened Common

  type CategoryId = nat
  type StoreId = nat

  datatype Category = Category(store: StoreId, parent: Option<CategoryId>, archived: bool, version: nat)

  type Tree = map<CategoryId, Category>

  function ParentOf(cats: Tree, id: CategoryId): Option<CategoryId> {
    if id in cats then cats[id].parent else None
  }

  predicate InStore(cats: Tree, id: CategoryId, store: StoreId) {
    id in cats && cats[id].store == store && !cats[id].archived
  }

  // ---------- Paths ----------

  /** Each member is the parent of the one before it. */
  predicate Linked(cats: Tree, path: seq<CategoryId>) {
    forall i | 0 <= i < |path| - 1 :: ParentOf(cats, path[i]) == Some(path[i + 1])
  }

  /** The chain of parents from `start` up to a root. */
  predicate Ascends(cats: Tree, start: CategoryId, path: seq<CategoryId>) {
    && |path| > 0 && path[0] == start && Linked(cats, path)
    && ParentOf(cats, path[|path| - 1]) == None
  }

  /** Parents are functional, so a chain that starts like an ascending path stays on it. */
  lemma {:induction false} StaysOnPath(cats: Tree, start: CategoryId, path: seq<CategoryId>, trail: seq<CategoryId>,
                                       k: nat)
    requires Ascends(cats, start, path) && Linked(cats, trail) && k < |trail| && trail[0] == start
    ensures k < |path| && trail[k] == path[k]
  {
    if k > 0 {
      var i: nat := k - 1;
      StaysOnPath(cats, start, path, trail, i);
      assert ParentOf(cats, trail[i]) == Some(trail[i + 1]);
      if i < |path| - 1 { assert ParentOf(cats, path[i]) == Some(path[i + 1]); }
    }
  }

  /** A path that reaches a root meets nothing twice. */
  lemma NoRepeats(cats: Tree, start: CategoryId, path: seq<CategoryId>, i: nat, j: nat)
    requires Ascends(cats, start, path) && i < j < |path|
    ensures path[i] != path[j]
  {
    if path[i] == path[j] {
      var k := |path| - 1 - j;
      var last := i + k;
      assert ParentOf(cats, path[last]) == Some(path[last + 1]);
      Shift(cats, path, i, j, k);
      assert false;
    }
  }

  lemma {:induction false} Shift(cats: Tree, path: seq<CategoryId>, i: nat, j: nat, k: nat)
    requires Linked(cats, path) && i < j && j + k < |path| && path[i] == path[j]
    ensures path[i + k] == path[j + k]
  {
    if k > 0 {
      Shift(cats, path, i, j, k - 1);
      var a, b := i + k - 1, j + k - 1;
      assert ParentOf(cats, path[a]) == Some(path[a + 1]) && ParentOf(cats, path[b]) == Some(path[b + 1]);
    }
  }

  lemma PathIsUnique(cats: Tree, start: CategoryId, a: seq<CategoryId>, b: seq<CategoryId>)
    requires Ascends(cats, start, a) && Ascends(cats, start, b)
    ensures a == b
  {
    forall k | 0 <= k < |a| ensures k < |b| && a[k] == b[k] { StaysOnPath(cats, start, b, a, k); }
    StaysOnPath(cats, start, a, b, |b| - 1);
    assert |a| == |b|;
  }

  // ---------- Validating a parent ----------

  /** From the proposed parent the chain of parents reaches a root without meeting the category. */
  ghost predicate ClearOf(cats: Tree, category: Option<CategoryId>, parent: CategoryId) {
    exists path :: Ascends(cats, parent, path) && (category.Some? ==> category.value !in path)
  }

  ghost predicate Acceptable(cats: Tree, category: Option<CategoryId>, parent: Option<CategoryId>, store: StoreId) {
    parent.Some? ==> InStore(cats, parent.value, store) && ClearOf(cats, category, parent.value)
  }

  /** How far the walk has come: the categories met so far, and the next one up. */
  ghost predicate OnTheWay(cats: Tree, category: Option<CategoryId>, start: CategoryId,
                           trail: seq<CategoryId>, seen: set<CategoryId>, current: Option<CategoryId>) {
    && Linked(cats, trail)
    && (forall x :: x in seen <==> x in trail)
    && (category.Some? ==> category.value !in seen)
    && (trail == [] ==> current == Some(start))
    && (trail != [] ==> trail[0] == start && ParentOf(cats, trail[|trail| - 1]) == current)
  }

  lemma OneUp(cats: Tree, category: Option<CategoryId>, start: CategoryId,
              trail: seq<CategoryId>, seen: set<CategoryId>, here: CategoryId)
    requires OnTheWay(cats, category, start, trail, seen, Some(here))
    ensures here in seen ==> forall path :: !Ascends(cats, start, path)
    ensures category == Some(here) ==> !ClearOf(cats, category, start)
    ensures here !in seen && category != Some(here) ==>
      OnTheWay(cats, category, start, trail + [here], seen + {here}, ParentOf(cats, here))
  {
    LinkedOneMore(cats, trail, here);
    assert (trail + [here])[0] == start;
    if here in seen { CycleNeverAscends(cats, start, trail, here); }
    if category == Some(here) { MetOnTheWay(cats, start, trail + [here]); }
  }

  lemma Arrived(cats: Tree, category: Option<CategoryId>, start: CategoryId, trail: seq<CategoryId>,
                seen: set<CategoryId>)
    requires OnTheWay(cats, category, start, trail, seen, None)
    ensures ClearOf(cats, category, start)
  {
    assert Ascends(cats, start, trail);
  }

  /** The walk up the parents. It ends on every graph, cyclic ones included. */
  method Climb(cats: Tree, category: Option<CategoryId>, start: CategoryId) returns (clear: bool)
    ensures clear <==> ClearOf(cats, category, start)
  {
    var seen: set<CategoryId> := {};
    var current := Some(start);
    ghost var trail: seq<CategoryId> := [];
    while current.Some?
      invariant OnTheWay(cats, category, start, trail, seen, current)
      decreases |cats.Keys - seen|, if current.None? then 0 else 1
    {
      var here := current.value;
      OneUp(cats, category, start, trail, seen, here);
      if here in seen || Some(here) == category { return false; }
      FewerLeft(cats.Keys, seen, here);
      seen := seen + {here};
      current := ParentOf(cats, here);
      trail := trail + [here];
    }
    Arrived(cats, category, start, trail, seen);
    clear := true;
  }

  /** Accepts exactly the acceptable parents. */
  method ValidateParent(cats: Tree, category: Option<CategoryId>, parent: Option<CategoryId>, store: StoreId)
    returns (valid: bool)
    ensures valid <==> Acceptable(cats, category, parent, store)
  {
    if parent.None? { return true; }
    if category == parent || !InStore(cats, parent.value, store) {
      StartIsOnPath(cats, parent.value);
      return false;
    }
    valid := Climb(cats, category, parent.value);
  }

  lemma LinkedOneMore(cats: Tree, trail: seq<CategoryId>, here: CategoryId)
    requires Linked(cats, trail) && (trail != [] ==> ParentOf(cats, trail[|trail| - 1]) == Some(here))
    ensures Linked(cats, trail + [here])
    ensures forall x :: x in trail + [here] <==> x in trail || x == here
  {
    var longer := trail + [here];
    forall i | 0 <= i < |longer| - 1 ensures ParentOf(cats, longer[i]) == Some(longer[i + 1]) {
      if i < |trail| - 1 { assert ParentOf(cats, trail[i]) == Some(trail[i + 1]); }
    }
  }

  lemma FewerLeft(all: set<CategoryId>, seen: set<CategoryId>, here: CategoryId)
    requires here !in seen
    ensures here in all ==> |all - (seen + {here})| < |all - seen|
    ensures here !in all ==> all - (seen + {here}) == all - seen
  {
    if here in all {
      assert all - (seen + {here}) == (all - seen) - {here};
    }
  }

  lemma StartIsOnPath(cats: Tree, start: CategoryId)
    ensures !ClearOf(cats, Some(start), start)
  {
    forall path | Ascends(cats, start, path) ensures start in path { assert path[0] == start; }
  }

  lemma CycleNeverAscends(cats: Tree, start: CategoryId, trail: seq<CategoryId>, here: CategoryId)
    requires Linked(cats, trail + [here]) && (trail + [here])[0] == start && here in trail
    ensures forall path :: !Ascends(cats, start, path)
  {
    forall path ensures !Ascends(cats, start, path) {
      if Ascends(cats, start, path) {
        var longer := trail + [here];
        var i :| 0 <= i < |trail| && trail[i] == here;
        StaysOnPath(cats, start, path, longer, i);
        StaysOnPath(cats, start, path, longer, |trail|);
        NoRepeats(cats, start, path, i, |trail|);
        assert false;
      }
    }
  }

  lemma MetOnTheWay(cats: Tree, start: CategoryId, trail: seq<CategoryId>)
    requires Linked(cats, trail) && |trail| > 0 && trail[0] == start
    ensures !ClearOf(cats, Some(trail[|trail| - 1]), start)
  {
    forall path | Ascends(cats, start, path) ensures trail[|trail| - 1] in path {
      StaysOnPath(cats, start, path, trail, |trail| - 1);
    }
  }

  // ---------- The forest ----------

  ghost predicate Grounded(cats: Tree, id: CategoryId) {
    exists path :: Ascends(cats, id, path)
  }

  /** Every chain of parents ends at a root: there is no cycle. */
  ghost predicate Forest(cats: Tree) {
    forall id | id in cats :: Grounded(cats, id)
  }

  /** A parent exists and belongs to the same store, archived or not. */
  ghost predicate WithinStores(cats: Tree) {
    forall id | id in cats && cats[id].parent.Some? ::
      cats[id].parent.value in cats && cats[cats[id].parent.value].store == cats[id].store
  }

  function Reparent(cats: Tree, id: CategoryId, parent: Option<CategoryId>): Tree
    requires id in cats
  {
    cats[id := cats[id].(parent := parent, version := cats[id].version + 1)]
  }

  lemma AscendsElsewhere(cats: Tree, id: CategoryId, parent: Option<CategoryId>, start: CategoryId,
                         path: seq<CategoryId>)
    requires id in cats && id !in path
    ensures Ascends(cats, start, path) <==> Ascends(Reparent(cats, id, parent), start, path)
  {
    var cats' := Reparent(cats, id, parent);
    assert forall i | 0 <= i < |path| :: path[i] in path && ParentOf(cats, path[i]) == ParentOf(cats', path[i]);
  }

  /** The new way up from a category below the moved one: as before to the moved one, then over
      its new parent. */
  lemma WayOver(cats: Tree, id: CategoryId, parent: Option<CategoryId>, start: CategoryId, path: seq<CategoryId>,
                above: seq<CategoryId>, k: nat)
    requires id in cats && Ascends(cats, start, path) && k < |path| && path[k] == id
    requires parent.Some? ==> Ascends(cats, parent.value, above) && id !in above
    requires parent.None? ==> above == []
    ensures Ascends(Reparent(cats, id, parent), start, path[..k + 1] + above)
  {
    var cats' := Reparent(cats, id, parent);
    var way := path[..k + 1] + above;
    forall i | 0 <= i < k ensures path[i] != id { NoRepeats(cats, start, path, i, k); }
    if parent.Some? { AscendsElsewhere(cats, id, parent, parent.value, above); }
    forall i | 0 <= i < |way| - 1 ensures ParentOf(cats', way[i]) == Some(way[i + 1]) {
      if i > k { assert way[i] == above[i - k - 1] && way[i + 1] == above[i - k]; }
    }
  }

  lemma NewPath(cats: Tree, id: CategoryId, parent: Option<CategoryId>, start: CategoryId, path: seq<CategoryId>,
                above: seq<CategoryId>)
    requires id in cats && Ascends(cats, start, path)
    requires parent.Some? ==> Ascends(cats, parent.value, above) && id !in above
    requires parent.None? ==> above == []
    ensures Grounded(Reparent(cats, id, parent), start)
  {
    if id !in path {
      AscendsElsewhere(cats, id, parent, start, path);
    } else {
      var k :| 0 <= k < |path| && path[k] == id;
      WayOver(cats, id, parent, start, path, above, k);
    }
  }

  /** Moving a category keeps the forest exactly if, in the tree it is moved in, the new parent's
      way up does not pass through it. A move validated against an older tree has no such
      guarantee. */
  lemma MoveKeepsForestExactlyIf(cats: Tree, id: CategoryId, parent: CategoryId)
    requires Forest(cats) && id in cats && parent in cats
    ensures Forest(Reparent(cats, id, Some(parent))) <==> ClearOf(cats, Some(id), parent)
  {
    var cats' := Reparent(cats, id, Some(parent));
    if ClearOf(cats, Some(id), parent) {
      var above :| Ascends(cats, parent, above) && id !in above;
      forall x | x in cats' ensures Grounded(cats', x) {
        assert Grounded(cats, x);
        var path :| Ascends(cats, x, path);
        NewPath(cats, id, Some(parent), x, path, above);
      }
    }
    if Forest(cats') {
      assert Grounded(cats', id);
      var path :| Ascends(cats', id, path);
      var above := path[1..];
      assert ParentOf(cats', path[0]) == Some(parent);
      assert path[1] == parent;
      forall i | 0 <= i < |above| - 1 ensures ParentOf(cats', above[i]) == Some(above[i + 1]) {
        assert above[i] == path[i + 1] && above[i + 1] == path[i + 2];
      }
      assert Ascends(cats', parent, above);
      forall i | 0 <= i < |above| ensures above[i] != id { NoRepeats(cats', id, path, 0, i + 1); }
      AscendsElsewhere(cats, id, Some(parent), parent, above);
      assert Ascends(cats, parent, above) && id !in above;
    }
  }

  /** The category is met on the way up from `start`. */
  ghost predicate OnTheChain(cats: Tree, id: CategoryId, start: CategoryId) {
    exists path :: Ascends(cats, start, path) && id in path
  }

  /** After moving `a` under `p`, the way up from `q` meets `b` exactly if it now leads over `a`
      and on to a `b` above `p`. */
  lemma ClearAfterAMove(cats: Tree, a: CategoryId, p: CategoryId, b: CategoryId, q: CategoryId,
                        overP: seq<CategoryId>, overQ: seq<CategoryId>)
    requires a in cats
    requires Ascends(cats, p, overP) && a !in overP
    requires Ascends(cats, q, overQ) && b !in overQ
    ensures ClearOf(Reparent(cats, a, Some(p)), Some(b), q) <==> !(b in overP && a in overQ)
  {
    var once := Reparent(cats, a, Some(p));
    if a !in overQ {
      AscendsElsewhere(cats, a, Some(p), q, overQ);
      assert Ascends(once, q, overQ) && b !in overQ;
    } else {
      var k :| 0 <= k < |overQ| && overQ[k] == a;
      var way := overQ[..k + 1] + overP;
      WayOver(cats, a, Some(p), q, overQ, overP, k);
      assert b in way <==> b in overP;
      forall path | Ascends(once, q, path) ensures path == way { PathIsUnique(once, q, path, way); }
    }
  }

  /** Two moves of different categories, each acceptable in the tree both were validated against,
      close a cycle when both are written exactly if each category is above the other's new
      parent. Neither write fails for its version. */
  lemma InterleavedMovesCloseExactlyIf(cats: Tree, a: CategoryId, p: CategoryId, b: CategoryId, q: CategoryId)
    requires Forest(cats) && a in cats && b in cats && a != b
    requires Acceptable(cats, Some(a), Some(p), cats[a].store) && Acceptable(cats, Some(b), Some(q), cats[b].store)
    ensures var once := Reparent(cats, a, Some(p));
      && once[b] == cats[b]
      && (!Forest(Reparent(once, b, Some(q))) <==> OnTheChain(cats, b, p) && OnTheChain(cats, a, q))
  {
    var once := Reparent(cats, a, Some(p));
    var overP :| Ascends(cats, p, overP) && a !in overP;
    var overQ :| Ascends(cats, q, overQ) && b !in overQ;
    MoveKeepsForestExactlyIf(cats, a, p);
    MoveKeepsForestExactlyIf(once, b, q);
    ClearAfterAMove(cats, a, p, b, q, overP, overQ);
    forall path | Ascends(cats, p, path) ensures path == overP { PathIsUnique(cats, p, path, overP); }
    forall path | Ascends(cats, q, path) ensures path == overQ { PathIsUnique(cats, q, path, overQ); }
  }

  lemma UnparentingKeepsForest(cats: Tree, id: CategoryId)
    requires Forest(cats) && id in cats
    ensures Forest(Reparent(cats, id, None))
  {
    var cats' := Reparent(cats, id, None);
    forall x | x in cats' ensures Grounded(cats', x) {
      assert Grounded(cats, x);
      var path :| Ascends(cats, x, path);
      NewPath(cats, id, None, x, path, []);
    }
  }

  // ---------- Runs ----------

  datatype Op =
    | Create(id: CategoryId, store: StoreId, parent: Option<CategoryId>, otherwiseValid: bool)
    | Update(id: CategoryId, newParent: Option<Option<CategoryId>>, version: nat, otherwiseValid: bool)
    | Archive(id: CategoryId, version: nat)

  type Run = History<Tree, Op>

  predicate Current(cats: Tree, id: CategoryId, version: nat) {
    id in cats && !cats[id].archived && cats[id].version == version
  }

  ghost predicate Accepted(cats: Tree, op: Op) {
    match op
    case Create(id, store, parent, otherwiseValid) =>
      otherwiseValid && id !in cats && Acceptable(cats, None, parent, store)
    case Update(id, parent, version, otherwiseValid) =>
      && otherwiseValid && Current(cats, id, version)
      && (parent.Some? ==> Acceptable(cats, Some(id), parent.value, cats[id].store))
    case Archive(id, version) => Current(cats, id, version)
  }

  /** One call from validation to writing. `newParent` is None when the update does not mention it. */
  ghost function Step(cats: Tree, op: Op): Tree {
    if !Accepted(cats, op) then cats
    else
      match op
      case Create(id, store, parent, _) => cats[id := Category(store, parent, false, 1)]
      case Update(id, parent, _, _) => Reparent(cats, id, if parent.Some? then parent.value else cats[id].parent)
      case Archive(id, _) => cats[id := cats[id].(archived := true, version := cats[id].version + 1)]
  }

  ghost function After(h: Run): Tree {
    match h
    case Start(cats) => cats
    case Then(past, op) => Step(After(past), op)
  }

  lemma SameParentsSamePaths(cats: Tree, cats': Tree, start: CategoryId, path: seq<CategoryId>)
    requires Ascends(cats, start, path)
    requires forall i | 0 <= i < |path| :: ParentOf(cats', path[i]) == ParentOf(cats, path[i])
    ensures Ascends(cats', start, path)
  {
  }

  lemma SameParentsSameForest(cats: Tree, cats': Tree)
    requires Forest(cats) && cats'.Keys == cats.Keys
    requires forall id | id in cats :: cats'[id].parent == cats[id].parent
    ensures Forest(cats')
  {
    forall x | x in cats' ensures Grounded(cats', x) {
      assert Grounded(cats, x);
      var path :| Ascends(cats, x, path);
      SameParentsSamePaths(cats, cats', x, path);
    }
  }

  lemma {:induction false} PathStaysInTree(cats: Tree, start: CategoryId, path: seq<CategoryId>, k: nat)
    requires WithinStores(cats) && start in cats && Ascends(cats, start, path) && k < |path|
    ensures path[k] in cats
  {
    if k > 0 { PathStaysInTree(cats, start, path, k - 1); }
  }

  lemma AddingKeepsForest(cats: Tree, id: CategoryId, x: Category)
    requires Forest(cats) && WithinStores(cats) && id !in cats
    requires x.parent.Some? ==> x.parent.value in cats
    ensures Forest(cats[id := x])
  {
    var cats' := cats[id := x];
    forall y | y in cats ensures Grounded(cats', y) {
      assert Grounded(cats, y);
      var path :| Ascends(cats, y, path);
      forall k | 0 <= k < |path| ensures path[k] in cats { PathStaysInTree(cats, y, path, k); }
      SameParentsSamePaths(cats, cats', y, path);
    }
    if x.parent.Some? {
      var above :| Ascends(cats', x.parent.value, above);
      var path := [id] + above;
      forall i | 0 <= i < |path| - 1 ensures ParentOf(cats', path[i]) == Some(path[i + 1]) {
        if i > 0 { assert path[i] == above[i - 1] && path[i + 1] == above[i]; }
      }
      assert Ascends(cats', id, path);
    } else {
      assert Ascends(cats', id, [id]);
    }
  }

  lemma StepKeepsForest(cats: Tree, op: Op)
    requires Forest(cats) && WithinStores(cats)
    ensures Forest(Step(cats, op)) && WithinStores(Step(cats, op))
  {
    if Accepted(cats, op) {
      match op
      case Create(id, store, parent, _) => AddingKeepsForest(cats, id, Category(store, parent, false, 1));
      case Update(id, parent, _, _) =>
        if parent.None? {
          SameParentsSameForest(cats, Step(cats, op));
        } else if parent.value.None? {
          UnparentingKeepsForest(cats, id);
        } else {
          MoveKeepsForestExactlyIf(cats, id, parent.value.value);
        }
      case Archive(id, _) => SameParentsSameForest(cats, Step(cats, op));
    }
  }

  /** Any serial run of creations, updates and archivings keeps the parent relation acyclic and
      every parent in its child's store. */
  lemma {:induction false} SerialRunsKeepTheForest(h: Run)
    requires StartsFrom(h, map[])
    ensures Forest(After(h)) && WithinStores(After(h))
  {
    if h.Then? {
      SerialRunsKeepTheForest(h.past);
      StepKeepsForest(After(h.past), h.op);
    }
  }

  /** Two moves validated against the same tree and then both written can close a cycle: only
      the moved row carries a version. */
  lemma InterleavedMovesCanClose(store: StoreId)
    ensures var cats: Tree := map[1 := Category(store, None, false, 1), 2 := Category(store, None, false, 1)];
      && Forest(cats)
      && Acceptable(cats, Some(1), Some(2), store) && Acceptable(cats, Some(2), Some(1), store)
      && Current(Reparent(cats, 1, Some(2)), 2, 1)
      && !Forest(Reparent(Reparent(cats, 1, Some(2)), 2, Some(1)))
  {
    var cats: Tree := map[1 := Category(store, None, false, 1), 2 := Category(store, None, false, 1)];
    assert Ascends(cats, 1, [1]) && Ascends(cats, 2, [2]);
    assert Forest(cats);
    var moved := Reparent(cats, 1, Some(2));
    MoveKeepsForestExactlyIf(cats, 1, 2);
    MetOnTheWay(moved, 1, [1, 2]);
    MoveKeepsForestExactlyIf(moved, 2, 1);
  }

  // ---------- What the calls leave ----------

  /** A parent is acceptable exactly if it is a category of the store, not archived, from which the
      parents lead up to a root, and not through the category itself. */
  lemma AcceptableExactlyIf(cats: Tree, category: Option<CategoryId>, parent: CategoryId, store: StoreId)
    ensures Acceptable(cats, category, Some(parent), store) <==>
      && parent in cats && cats[parent].store == store && !cats[parent].archived
      && Grounded(cats, parent) && (category.Some? ==> !OnTheChain(cats, category.value, parent))
    ensures Acceptable(cats, category, None, store)
  {
    if Grounded(cats, parent) {
      var path :| Ascends(cats, parent, path);
      forall other | Ascends(cats, parent, other) ensures other == path { PathIsUnique(cats, parent, other, path); }
    }
  }

  lemma CreateDoes(cats: Tree, op: Op)
    requires op.Create?
    ensures Step(cats, op) ==
      if op.otherwiseValid && op.id !in cats && Acceptable(cats, None, op.parent, op.store)
      then cats[op.id := Category(op.store, op.parent, false, 1)] else cats
  {
  }

  /** An update moves the category under the parent it mentions; if it mentions none, the parent
      stays. Its version goes up either way. */
  lemma UpdateDoes(cats: Tree, op: Op)
    requires op.Update?
    ensures
      if op.otherwiseValid && op.id in cats && !cats[op.id].archived && cats[op.id].version == op.version
        && (op.newParent.Some? ==> Acceptable(cats, Some(op.id), op.newParent.value, cats[op.id].store))
      then
        var c := cats[op.id];
        var parent := match op.newParent case None => c.parent case Some(p) => p;
        Step(cats, op) == cats[op.id := Category(c.store, parent, false, c.version + 1)]
      else Step(cats, op) == cats
  {
  }

  lemma ArchiveDoes(cats: Tree, op: Op)
    requires op.Archive?
    ensures
      if op.id in cats && !cats[op.id].archived && cats[op.id].version == op.version then
        var c := cats[op.id];
        Step(cats, op) == cats[op.id := Category(c.store, c.parent, true, c.version + 1)]
      else Step(cats, op) == cats
  {
  }

  /** No update since `g` mentions a parent for the category. */
  ghost predicate NotMoved(g: Run, h: Run, id: CategoryId)
    requires Extends(h, g)
    decreases h
  {
    h != g ==> NotMoved(g, h.past, id) && !(h.op.Update? && h.op.id == id && h.op.newParent.Some?)
  }

  /** In any run, a category stays under its parent until an update mentions another. */
  lemma {:induction false} ParentStays(g: Run, h: Run, id: CategoryId)
    requires Extends(h, g) && NotMoved(g, h, id) && id in After(g)
    ensures id in After(h) && After(h)[id].parent == After(g)[id].parent && After(h)[id].store == After(g)[id].store
    decreases h
  {
    if h != g { ParentStays(g, h.past, id); }
  }

  // ---------- The service ----------

  class Service {
    var cats: Tree

    constructor ()
      ensures cats == map[]
    {
      cats := map[];
    }

    method Create(id: CategoryId, store: StoreId, parent: Option<CategoryId>, otherwiseValid: bool)
      returns (created: bool)
      modifies this
      ensures created == Accepted(old(cats), Op.Create(id, store, parent, otherwiseValid))
      ensures cats == Step(old(cats), Op.Create(id, store, parent, otherwiseValid))
    {
      var valid := ValidateParent(cats, None, parent, store);
      created := valid && otherwiseValid && id !in cats;
      if created { cats := cats[id := Category(store, parent, false, 1)]; }
    }

    method Update(id: CategoryId, parent: Option<Option<CategoryId>>, version: nat, otherwiseValid: bool)
      returns (updated: bool)
      modifies this
      ensures updated == Accepted(old(cats), Op.Update(id, parent, version, otherwiseValid))
      ensures cats == Step(old(cats), Op.Update(id, parent, version, otherwiseValid))
    {
      if id !in cats || cats[id].archived { return false; }
      if parent.Some? {
        var valid := ValidateParent(cats, Some(id), parent.value, cats[id].store);
        if !valid { return false; }
      }
      if !otherwiseValid || cats[id].version != version { return false; }
      var category := cats[id];
      if parent.Some? { category := category.(parent := parent.value); }
      category := category.(version := category.version + 1);
      cats := cats[id := category];
      updated := true;
    }

    method Archive(id: CategoryId, version: nat) returns (archived: bool)
      modifies this
      ensures archived == Accepted(old(cats), Op.Archive(id, version))
      ensures cats == Step(old(cats), Op.Archive(id, version))
    {
      archived := Current(cats, id, version);
      if archived {
        var category := cats[id].(archived := true);
        category := category.(version := category.version + 1);
        cats := cats[id := category];
      }
    }
  }
}
