/** When a cart call succeeds, why it is refused, and what it leaves, told by the fields of the
    rows; and that what a committed call has stored stays until the next call on it. */
module CartEffects {
  import opened Common
  import opened Cart
  import opened CartInterleaving

  /** The customer's own undeleted, active cart. */
  ghost predicate IsOpen(cart: CartRow, user: UserId) {
    cart.user == user && cart.deletedAt == None && cart.status == Active
  }

  ghost predicate IsLive(items: map<ItemId, Item>, id: ItemId) {
    id in items && items[id].deletedAt == None
  }

  ghost predicate HoldsVariant(items: map<ItemId, Item>, variant: VariantId) {
    exists id :: IsLive(items, id) && items[id].variant == variant
  }

  /** There is an offer, and enough of it in stock. */
  ghost predicate Offered(quantity: int, offer: Option<Offer>) {
    offer.Some? && quantity <= offer.value.available
  }

  /** A call run by itself succeeds exactly under these conditions. */
  lemma SucceedsExactlyIf(s: State, r: Request, now: Time)
    ensures Execute(s, r, now).Ok? <==>
      && IsOpen(s.cart, r.user) && (if r.Expire? then s.cart.expiresAt <= now else now < s.cart.expiresAt)
      && (r.AddItem? ==>
          && 0 < r.quantity && Offered(r.quantity, r.offer)
          && !HoldsVariant(s.items, r.variant) && r.id !in s.items && r.expectedVersion == s.cart.version)
      && (r.UpdateItem? ==>
          && IsLive(s.items, r.id) && r.expectedVersion == s.items[r.id].version
          && 0 < r.quantity && Offered(r.quantity, r.offer))
      && (r.RemoveItem? ==> IsLive(s.items, r.id) && r.expectedVersion == s.items[r.id].version)
      && (r.Delete? || r.CheckOut? || r.Expire? ==> r.expectedVersion == s.cart.version)
      && (r.CheckOut? ==> exists id :: IsLive(s.items, id))
  {
    LiveMeansLive(s.items);
  }

  lemma LiveMeansLive(items: map<ItemId, Item>)
    ensures forall id :: id in Live(items) <==> IsLive(items, id)
    ensures Live(items) == {} <==> forall id :: !IsLive(items, id)
    ensures forall variant :: HasVariant(items, variant) <==> HoldsVariant(items, variant)
  {
    if forall id :: !IsLive(items, id) {
      forall id ensures id !in Live(items) { assert !IsLive(items, id); }
    }
    forall variant ensures HasVariant(items, variant) <==> HoldsVariant(items, variant) {
      if HasVariant(items, variant) {
        var id :| id in items && items[id].deletedAt.None? && items[id].variant == variant;
        assert IsLive(items, id);
      }
    }
  }

  /** Why a call is refused: the cart or item is not there for this customer, or nothing is
      offered; the quantity is no quantity; anything else is a conflict. Earlier checks win. */
  lemma RefusedExactlyFor(s: State, r: Request, now: Time)
    requires Execute(s, r, now).Err?
    ensures var visible := s.cart.user == r.user && s.cart.deletedAt == None;
      var open := visible && s.cart.status == Active && (r.Expire? <==> s.cart.expiresAt <= now);
      && (Execute(s, r, now).error == NotFound <==>
          || !visible
          || (open && ((r.UpdateItem? || r.RemoveItem?) && !IsLive(s.items, r.id)))
          || (open && r.AddItem? && 0 < r.quantity && !HoldsVariant(s.items, r.variant) && r.offer == None)
          || (open && r.UpdateItem? && 0 < r.quantity && r.offer == None))
      && (Execute(s, r, now).error == Invalid <==>
          || (open && r.AddItem? && r.quantity <= 0)
          || (open && r.UpdateItem? && IsLive(s.items, r.id) && r.quantity <= 0))
  {
    LiveMeansLive(s.items);
  }

  // ---------- What a call leaves ----------

  /** The row with its version taken up by one. */
  ghost predicate Bumped(was: CartRow, now: CartRow, status: CartStatus, checkedOutAt: Option<Time>,
                         deletedAt: Option<Time>) {
    now == CartRow(was.user, was.store, status, was.expiresAt, checkedOutAt, deletedAt, was.version + 1)
  }

  /** The item with the new quantity, priced and stocked as offered, and the rest of it as it was. */
  ghost predicate Repriced(was: Item, now: Item, quantity: int, offer: Offer) {
    && now.quantity == quantity && now.unitPrice == offer.price && now.available == offer.available
    && now.product == was.product && now.variant == was.variant && now.addedAt == was.addedAt
    && now.deletedAt == was.deletedAt && now.version == was.version + 1
  }

  ghost predicate Removed(was: Item, now: Item, at: Time) {
    && now.deletedAt == Some(at) && now.version == was.version + 1
    && now.product == was.product && now.variant == was.variant && now.quantity == was.quantity
    && now.unitPrice == was.unitPrice && now.available == was.available && now.addedAt == was.addedAt
  }

  /** Every item but this one is as it was, and none has come or gone. */
  ghost predicate OthersStay(was: map<ItemId, Item>, now: map<ItemId, Item>, id: ItemId) {
    now.Keys == was.Keys + {id} && forall x | x in was && x != id :: now[x] == was[x]
  }

  /** What the request asked for, and nothing else, has happened to the rows. */
  ghost predicate Does(s: State, s': State, r: Request, now: Time) {
    && (r.AddItem? ==>
        && Bumped(s.cart, s'.cart, s.cart.status, s.cart.checkedOutAt, s.cart.deletedAt)
        && OthersStay(s.items, s'.items, r.id) && r.offer.Some? && r.quantity >= 0
        && s'.items[r.id] == Item(r.offer.value.product, r.variant, r.quantity, r.offer.value.price,
                                  r.offer.value.available, r.addedAt, None, 1))
    && (r.UpdateItem? ==>
        && Bumped(s.cart, s'.cart, s.cart.status, s.cart.checkedOutAt, s.cart.deletedAt)
        && r.id in s.items && OthersStay(s.items, s'.items, r.id) && r.offer.Some?
        && Repriced(s.items[r.id], s'.items[r.id], r.quantity, r.offer.value))
    && (r.RemoveItem? ==>
        && Bumped(s.cart, s'.cart, s.cart.status, s.cart.checkedOutAt, s.cart.deletedAt)
        && r.id in s.items && OthersStay(s.items, s'.items, r.id)
        && Removed(s.items[r.id], s'.items[r.id], now))
    && (r.Delete? ==>
        && Bumped(s.cart, s'.cart, Abandoned, s.cart.checkedOutAt, Some(now))
        && s'.items.Keys == s.items.Keys
        && forall x | x in s.items ::
             if IsLive(s.items, x) then Removed(s.items[x], s'.items[x], now) else s'.items[x] == s.items[x])
    && (r.CheckOut? ==>
        && Bumped(s.cart, s'.cart, CheckedOut, Some(now), s.cart.deletedAt)
        && s'.items == s.items)
    && (r.Expire? ==>
        && Bumped(s.cart, s'.cart, Expired, None, s.cart.deletedAt)
        && s'.items == s.items)
  }

  lemma WriteDoes(s: State, readVersion: nat, r: Request, now: Time)
    requires Write(s, readVersion, r, now).Ok?
    ensures Does(s, Write(s, readVersion, r, now).value, r, now)
  {
  }

  lemma ExecuteDoes(s: State, r: Request, now: Time)
    ensures Execute(s, r, now).Ok? ==> Does(s, Execute(s, r, now).value, r, now)
  {
    if Execute(s, r, now).Ok? { WriteDoes(s, s.cart.version, r, now); }
  }

  /** The events of each call, in order. */
  lemma EventsAre(r: Request, version: nat)
    ensures EventsOf(r, version) ==
      if r.AddItem? then [ItemAdded(r.id, version), Updated(version)]
      else if r.UpdateItem? then [ItemUpdated(r.id, version), Updated(version)]
      else if r.RemoveItem? then [ItemRemoved(r.id, version), Updated(version)]
      else if r.Delete? then [Deleted(version)]
      else if r.CheckOut? then [CheckedOutEvent(version)]
      else [ExpiredEvent(version)]
  {
  }

  // ---------- No stored item is lost ----------

  /** The call is about this item, or deletes the cart with all its items. */
  ghost predicate Concerns(r: Request, id: ItemId) {
    ((r.UpdateItem? || r.RemoveItem?) && r.id == id) || r.Delete?
  }

  /** No call that has committed since `g` concerns the item. */
  ghost predicate LeftAlone(g: Schedule, h: Schedule, id: ItemId)
    requires Extends(h, g)
    decreases h
  {
    h != g ==>
      && LeftAlone(g, h.past, id)
      && (Commits(After(h.past), h.op) ==> !Concerns(After(h.past).calls[h.op.client].request, id))
  }

  /** In every interleaving, an item stays as it is until a call that concerns it commits. */
  lemma {:induction false} ItemsStay(g: Schedule, h: Schedule, id: ItemId)
    requires Extends(h, g) && LeftAlone(g, h, id) && id in After(g).db.items
    ensures id in After(h).db.items && After(h).db.items[id] == After(g).db.items[id]
    decreases h
  {
    if h != g {
      var w := After(h.past);
      ItemsStay(g, h.past, id);
      if Commits(w, h.op) {
        var call := w.calls[h.op.client];
        WriteDoes(w.db, call.cart.version, call.request, call.now);
        AddsOnlyNew(w.db, call.cart.version, call.request, call.now);
      }
    }
  }

  lemma AddsOnlyNew(s: State, readVersion: nat, r: Request, now: Time)
    requires Write(s, readVersion, r, now).Ok?
    ensures r.AddItem? ==> r.id !in s.items
  {
  }

  /** After an update or an addition has committed, the item carries what was asked for until the
      next committed call that concerns it, whatever other clients do. */
  lemma CommittedQuantityStays(g: Schedule, client: ClientId, h: Schedule)
    requires Commits(After(g), Commit(client)) && Extends(h, Then(g, Commit(client)))
    requires var r := After(g).calls[client].request;
      (r.UpdateItem? || r.AddItem?) && LeftAlone(Then(g, Commit(client)), h, r.id)
    ensures var r := After(g).calls[client].request; var items := After(h).db.items;
      && r.id in items && r.offer.Some?
      && items[r.id].quantity == r.quantity
      && items[r.id].unitPrice == r.offer.value.price && items[r.id].available == r.offer.value.available
      && items[r.id].variant == (if r.AddItem? then r.variant
                                 else if r.id in After(g).db.items then After(g).db.items[r.id].variant else 0)
  {
    var w, call := After(g), After(g).calls[client];
    WriteDoes(w.db, call.cart.version, call.request, call.now);
    assert After(Then(g, Commit(client))).db == Write(w.db, call.cart.version, call.request, call.now).value;
    ItemsStay(Then(g, Commit(client)), h, call.request.id);
  }
}
