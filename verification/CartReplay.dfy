/** The events written about a cart describe it: folding them in order rebuilds its status and
    its live items, and their versions leave no gap. */
module CartReplay {
  import opened Common
  import opened Cart
  import opened CartInterleaving

  datatype View = Absent | View(status: CartStatus, items: set<ItemId>)

  /** What a reader of the events makes of one more of them. */
  function See(v: View, e: Event): View {
    if e.Created? then View(Active, {})
    else if v.Absent? then Absent
    else if e.Deleted? then View(Abandoned, {})
    else if e.CheckedOutEvent? then v.(status := CheckedOut)
    else if e.ExpiredEvent? then v.(status := Expired)
    else if e.ItemAdded? then v.(items := v.items + {e.item})
    else if e.ItemRemoved? then v.(items := v.items - {e.item})
    else v
  }

  function Replay(events: seq<Event>): View {
    if events == [] then Absent else See(Replay(events[..|events| - 1]), events[|events| - 1])
  }

  lemma ReplayOne(events: seq<Event>, e: Event)
    ensures Replay(events + [e]) == See(Replay(events), e)
  {
    assert (events + [e])[..|events|] == events;
  }

  lemma ReplayCall(events: seq<Event>, r: Request, version: nat)
    ensures Replay(events + EventsOf(r, version)) ==
      if |EventsOf(r, version)| == 2 then See(See(Replay(events), EventsOf(r, version)[0]), EventsOf(r, version)[1])
      else See(Replay(events), EventsOf(r, version)[0])
  {
    var written := EventsOf(r, version);
    ReplayOne(events, written[0]);
    if |written| == 2 {
      ReplayOne(events + [written[0]], written[1]);
      assert events + written == events + [written[0]] + [written[1]];
    } else {
      assert events + written == events + [written[0]];
    }
  }

  function Shown(s: State): View {
    View(s.cart.status, Live(s.items))
  }

  /** The events of a call tell exactly what it did to the status and the live items. */
  lemma EventsTellTheChange(s: State, readVersion: nat, r: Request, now: Time, events: seq<Event>)
    requires Write(s, readVersion, r, now).Ok? && Replay(events) == Shown(s)
    ensures Replay(events + EventsOf(r, s.cart.version + 1)) == Shown(Write(s, readVersion, r, now).value)
  {
    ReplayCall(events, r, s.cart.version + 1);
    var s' := Write(s, readVersion, r, now).value;
    match r
    case AddItem(_, id, _, _, _, _, _) => assert Live(s'.items) == Live(s.items) + {id};
    case UpdateItem(_, id, _, _, _) => assert Live(s'.items) == Live(s.items);
    case RemoveItem(_, id, _) => assert Live(s'.items) == Live(s.items) - {id};
    case Delete(_, _) => assert Live(s'.items) == {};
    case CheckOut(_, _) =>
    case Expire(_, _) =>
  }

  ghost predicate Mentions(events: seq<Event>, version: nat) {
    exists e | e in events :: e.version == version
  }

  ghost predicate InOrder(events: seq<Event>) {
    forall i, j | 0 <= i < j < |events| :: events[i].version <= events[j].version
  }

  /** The events are in version order and cover 1 to `version` without a gap. */
  ghost predicate Covers(events: seq<Event>, version: nat) {
    && InOrder(events)
    && (forall e | e in events :: 1 <= e.version <= version)
    && (forall v: nat | 1 <= v <= version :: Mentions(events, v))
  }

  lemma CallCoversTheNextVersion(events: seq<Event>, r: Request, version: nat)
    requires Covers(events, version)
    ensures Covers(events + EventsOf(r, version + 1), version + 1)
  {
    var written := EventsOf(r, version + 1);
    var all := events + written;
    forall e | e in all ensures 1 <= e.version <= version + 1 {
      assert e in events || e in written;
    }
    forall i, j | 0 <= i < j < |all| ensures all[i].version <= all[j].version {
      assert i < |events| ==> all[i] in events;
    }
    forall v: nat | 1 <= v <= version + 1 ensures Mentions(all, v) {
      if v <= version {
        assert Mentions(events, v);
        var e :| e in events && e.version == v;
        assert e in all;
      } else {
        assert written[0] in all && written[0].version == v;
      }
    }
  }

  lemma CreationIsCovered()
    ensures Replay([Created(1)]) == View(Active, {}) && Covers([Created(1)], 1)
  {
    ReplayOne([], Created(1));
    assert [] + [Created(1)] == [Created(1)];
    assert Created(1) in [Created(1)];
  }

  /** In every interleaving of any number of clients, the outbox rebuilds the cart's status and
      its live items. */
  lemma {:induction false} OutboxRebuildsTheCart(h: Schedule, user: UserId, store: StoreId, expiresAt: Time)
    requires StartsFrom(h, Quiet(New(user, store, expiresAt), [Created(1)]))
    ensures Replay(After(h).outbox) == Shown(After(h).db)
  {
    if h.Start? {
      CreationIsCovered();
      assert Live(New(user, store, expiresAt).items) == {};
    } else {
      var w := After(h.past);
      OutboxRebuildsTheCart(h.past, user, store, expiresAt);
      if Commits(w, h.op) {
        var call := w.calls[h.op.client];
        WriteAdvances(w.db, call.cart.version, call.request, call.now);
        EventsTellTheChange(w.db, call.cart.version, call.request, call.now, w.outbox);
      }
    }
  }

  /** It covers the cart's versions from 1 to the current one, in order and without a gap. */
  lemma {:induction false} OutboxCoversEveryVersion(h: Schedule, user: UserId, store: StoreId, expiresAt: Time)
    requires StartsFrom(h, Quiet(New(user, store, expiresAt), [Created(1)]))
    ensures Covers(After(h).outbox, After(h).db.cart.version)
  {
    if h.Start? {
      CreationIsCovered();
    } else {
      var w := After(h.past);
      OutboxCoversEveryVersion(h.past, user, store, expiresAt);
      if Commits(w, h.op) {
        var call := w.calls[h.op.client];
        WriteAdvances(w.db, call.cart.version, call.request, call.now);
        CallCoversTheNextVersion(w.outbox, call.request, w.db.cart.version);
      }
    }
  }
}
