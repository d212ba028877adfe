/** The cart service as an object over one cart's rows and its outbox: each call checks what it
    reads, writes step by step, and puts everything back when a later step refuses. */
module CartService {
  import opened Common
  import opened Cart
  import opened CartEffects

  class Service {
    var cart: CartRow
    var items: map<ItemId, Item>
    var outbox: seq<Event>

    ghost function Store(): State
      reads this
    {
      State(cart, items)
    }

    /** One call run by itself: the rows and the outbox afterwards, as the model says. */
    twostate predicate Performed(r: Request, now: Time)
      reads this
    {
      match Execute(old(Store()), r, now)
      case Ok(s) => Store() == s && outbox == old(outbox) + EventsOf(r, s.cart.version)
      case Err(_) => Store() == old(Store()) && outbox == old(outbox)
    }

    constructor Create(user: UserId, store: StoreId, expiresAt: Time)
      ensures Store() == New(user, store, expiresAt) && outbox == [Created(1)]
    {
      cart := CartRow(user, store, Active, expiresAt, None, None, 1);
      items := map[];
      outbox := [Created(1)];
    }

    predicate Touchable(user: UserId, expectedVersion: nat)
      reads this`cart
    {
      Visible(cart, user) && cart.version == expectedVersion && cart.status == Active
    }

    /** The cart repository's version-checked update of the cart row. */
    method Touch(user: UserId, expectedVersion: nat) returns (touched: bool)
      modifies this`cart
      ensures touched == old(Touchable(user, expectedVersion))
      ensures cart == if touched then old(cart).(version := old(cart).version + 1) else old(cart)
    {
      touched := Touchable(user, expectedVersion);
      if touched { cart := cart.(version := cart.version + 1); }
    }

    method Transition(user: UserId, expectedVersion: nat, status: CartStatus, now: Time) returns (moved: bool)
      modifies this`cart
      ensures moved == old(Touchable(user, expectedVersion))
      ensures cart == if moved then old(cart).(status := status, version := old(cart).version + 1,
                                               checkedOutAt := if status == CheckedOut then Some(now) else None)
                      else old(cart)
    {
      moved := Touchable(user, expectedVersion);
      if moved {
        cart := cart.(status := status, checkedOutAt := if status == CheckedOut then Some(now) else None);
        cart := cart.(version := cart.version + 1);
      }
    }

    method AddItem(user: UserId, id: ItemId, variant: VariantId, quantity: int, expectedVersion: nat,
                   offer: Option<Offer>, addedAt: Time, now: Time)
      returns (result: Result<ItemId>)
      modifies this
      ensures Performed(Request.AddItem(user, id, variant, quantity, expectedVersion, offer, addedAt), now)
      ensures result.Ok? ==>
        Does(old(Store()), Store(), Request.AddItem(user, id, variant, quantity, expectedVersion, offer, addedAt), now)
      ensures SameOutcome(result,
                          Execute(old(Store()),
                                  Request.AddItem(user, id, variant, quantity, expectedVersion, offer, addedAt), now))
      ensures result.Ok? ==> result.value == id
    {
      ExecuteDoes(Store(), Request.AddItem(user, id, variant, quantity, expectedVersion, offer, addedAt), now);
      if !Visible(cart, user) { return Err(NotFound); }
      if Mutable(cart, now).Err? { return Err(Conflict); }
      if quantity <= 0 { return Err(Invalid); }
      if HasVariant(items, variant) { return Err(Conflict); }
      if Priced(quantity, offer).Err? { return Err(Priced(quantity, offer).error); }
      if id in items { return Err(Conflict); }
      var rollback := items;
      var bought := offer.value;
      var item := Item(bought.product, variant, quantity, bought.price, bought.available, addedAt, None, 1);
      items := items[id := item];
      var touched := Touch(user, expectedVersion);
      if !touched {
        items := rollback;
        return Err(Conflict);
      }
      outbox := outbox + [ItemAdded(id, cart.version), Updated(cart.version)];
      result := Ok(id);
    }

    method UpdateItem(user: UserId, id: ItemId, quantity: int, expectedVersion: nat, offer: Option<Offer>, now: Time)
      returns (result: Result<ItemId>)
      modifies this
      ensures Performed(Request.UpdateItem(user, id, quantity, expectedVersion, offer), now)
      ensures result.Ok? ==>
        Does(old(Store()), Store(), Request.UpdateItem(user, id, quantity, expectedVersion, offer), now)
      ensures SameOutcome(result,
                          Execute(old(Store()), Request.UpdateItem(user, id, quantity, expectedVersion, offer), now))
      ensures result.Ok? ==> result.value == id
    {
      ExecuteDoes(Store(), Request.UpdateItem(user, id, quantity, expectedVersion, offer), now);
      if !Visible(cart, user) { return Err(NotFound); }
      if Mutable(cart, now).Err? { return Err(Conflict); }
      if id !in Live(items) { return Err(NotFound); }
      if quantity <= 0 { return Err(Invalid); }
      if Priced(quantity, offer).Err? { return Err(Priced(quantity, offer).error); }
      var item := items[id];
      if item.version != expectedVersion { return Err(Conflict); }
      item := item.(quantity := quantity, unitPrice := offer.value.price, available := offer.value.available);
      item := item.(version := item.version + 1);
      items := items[id := item];
      var touched := Touch(user, cart.version);
      outbox := outbox + [ItemUpdated(id, cart.version), Updated(cart.version)];
      result := Ok(id);
    }

    method RemoveItem(user: UserId, id: ItemId, expectedVersion: nat, now: Time) returns (result: Result<()>)
      modifies this
      ensures Performed(Request.RemoveItem(user, id, expectedVersion), now)
      ensures result.Ok? ==> Does(old(Store()), Store(), Request.RemoveItem(user, id, expectedVersion), now)
      ensures SameOutcome(result, Execute(old(Store()), Request.RemoveItem(user, id, expectedVersion), now))
    {
      ExecuteDoes(Store(), Request.RemoveItem(user, id, expectedVersion), now);
      if !Visible(cart, user) { return Err(NotFound); }
      if Mutable(cart, now).Err? { return Err(Conflict); }
      if id !in Live(items) { return Err(NotFound); }
      var item := items[id];
      if item.version != expectedVersion { return Err(Conflict); }
      item := item.(deletedAt := Some(now));
      item := item.(version := item.version + 1);
      items := items[id := item];
      var touched := Touch(user, cart.version);
      outbox := outbox + [ItemRemoved(id, cart.version), Updated(cart.version)];
      result := Ok(());
    }

    method Delete(user: UserId, expectedVersion: nat, now: Time) returns (result: Result<()>)
      modifies this
      ensures Performed(Request.Delete(user, expectedVersion), now)
      ensures result.Ok? ==> Does(old(Store()), Store(), Request.Delete(user, expectedVersion), now)
      ensures SameOutcome(result, Execute(old(Store()), Request.Delete(user, expectedVersion), now))
    {
      ExecuteDoes(Store(), Request.Delete(user, expectedVersion), now);
      if !Visible(cart, user) { return Err(NotFound); }
      if Mutable(cart, now).Err? { return Err(Conflict); }
      if !Touchable(user, expectedVersion) { return Err(Conflict); }
      cart := cart.(status := Abandoned, deletedAt := Some(now));
      cart := cart.(version := cart.version + 1);
      items := Archived(items, now);
      outbox := outbox + [Deleted(cart.version)];
      result := Ok(());
    }

    method CheckOut(user: UserId, expectedVersion: nat, now: Time) returns (result: Result<()>)
      modifies this
      ensures Performed(Request.CheckOut(user, expectedVersion), now)
      ensures result.Ok? ==> Does(old(Store()), Store(), Request.CheckOut(user, expectedVersion), now)
      ensures SameOutcome(result, Execute(old(Store()), Request.CheckOut(user, expectedVersion), now))
    {
      ExecuteDoes(Store(), Request.CheckOut(user, expectedVersion), now);
      if !Visible(cart, user) { return Err(NotFound); }
      if Mutable(cart, now).Err? { return Err(Conflict); }
      if Live(items) == {} { return Err(Conflict); }
      var moved := Transition(user, expectedVersion, CheckedOut, now);
      if !moved { return Err(Conflict); }
      outbox := outbox + [CheckedOutEvent(cart.version)];
      result := Ok(());
    }

    method Expire(user: UserId, expectedVersion: nat, now: Time) returns (result: Result<()>)
      modifies this
      ensures Performed(Request.Expire(user, expectedVersion), now)
      ensures result.Ok? ==> Does(old(Store()), Store(), Request.Expire(user, expectedVersion), now)
      ensures SameOutcome(result, Execute(old(Store()), Request.Expire(user, expectedVersion), now))
    {
      ExecuteDoes(Store(), Request.Expire(user, expectedVersion), now);
      if !Visible(cart, user) { return Err(NotFound); }
      if cart.status != Active || cart.expiresAt > now { return Err(Conflict); }
      var moved := Transition(user, expectedVersion, Expired, now);
      if !moved { return Err(Conflict); }
      outbox := outbox + [ExpiredEvent(cart.version)];
      result := Ok(());
    }
  }
}
