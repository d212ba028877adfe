/** One shopping cart with its items and the events written about it: what each service call
    checks, what it writes, and under which versions the writes succeed. */
module Cart {
  import opened Common

  type UserId = nat
  type StoreId = nat
  type ItemId = nat
  type VariantId = nat
  type ProductId = nat
  /** Ten-thousandths of a currency unit, as in NUMERIC(19, 4). */
  type Amount = nat

  datatype CartStatus = Active | CheckedOut | Abandoned | Expired

  datatype CartRow = CartRow(
    user: UserId,
    store: StoreId,
    status: CartStatus,
    expiresAt: Time,
    checkedOutAt: Option<Time>,
    deletedAt: Option<Time>,
    version: nat)

  datatype Item = Item(
    product: ProductId,
    variant: VariantId,
    quantity: nat,
    unitPrice: Amount,
    available: int,
    addedAt: Time,
    deletedAt: Option<Time>,
    version: nat)

  datatype State = State(cart: CartRow, items: map<ItemId, Item>)

  /** What pricing and inventory answer about a variant when asked: its product, the resolved
      price and the quantity in stock. There is no offer if either of them refuses. */
  datatype Offer = Offer(product: ProductId, price: Amount, available: int)

  /** `addedAt` is the database's clock when it inserts the item. */
  datatype Request =
    | AddItem(user: UserId, id: ItemId, variant: VariantId, quantity: int, expectedVersion: nat, offer: Option<Offer>,
              addedAt: Time)
    | UpdateItem(user: UserId, id: ItemId, quantity: int, expectedVersion: nat, offer: Option<Offer>)
    | RemoveItem(user: UserId, id: ItemId, expectedVersion: nat)
    | Delete(user: UserId, expectedVersion: nat)
    | CheckOut(user: UserId, expectedVersion: nat)
    | Expire(user: UserId, expectedVersion: nat)

  datatype Error = NotFound | Conflict | Invalid

  datatype Result<+T> = Ok(value: T) | Err(error: Error)

  /** Both succeed, or both refuse for the same reason. */
  predicate SameOutcome<T, U>(a: Result<T>, b: Result<U>) {
    a.Ok? == b.Ok? && (a.Err? ==> a.error == b.error)
  }

  datatype Event =
    | Created(version: nat)
    | Updated(version: nat)
    | Deleted(version: nat)
    | CheckedOutEvent(version: nat)
    | ExpiredEvent(version: nat)
    | ItemAdded(item: ItemId, version: nat)
    | ItemUpdated(item: ItemId, version: nat)
    | ItemRemoved(item: ItemId, version: nat)

  function New(user: UserId, store: StoreId, expiresAt: Time): State {
    State(CartRow(user, store, Active, expiresAt, None, None, 1), map[])
  }

  function Live(items: map<ItemId, Item>): set<ItemId> {
    set id | id in items && items[id].deletedAt.None?
  }

  predicate HasVariant(items: map<ItemId, Item>, variant: VariantId) {
    exists id | id in items :: items[id].deletedAt.None? && items[id].variant == variant
  }

  // ---------- What a call checks on what it has read ----------

  predicate Visible(cart: CartRow, user: UserId) {
    cart.user == user && cart.deletedAt.None?
  }

  function Mutable(cart: CartRow, now: Time): Result<()> {
    if cart.status != Active || cart.expiresAt <= now then Err(Conflict) else Ok(())
  }

  function Priced(quantity: int, offer: Option<Offer>): Result<()> {
    if offer.None? then Err(NotFound)
    else if offer.value.available < quantity then Err(Conflict)
    else Ok(())
  }

  /** The checks that need the cart row only. */
  function CheckCart(cart: CartRow, r: Request, now: Time): Result<()> {
    if !Visible(cart, r.user) then Err(NotFound)
    else if r.Expire? then (if cart.status != Active || cart.expiresAt > now then Err(Conflict) else Ok(()))
    else Mutable(cart, now)
  }

  /** The checks on the items as they were read, in the order the service makes them. */
  function CheckItems(items: map<ItemId, Item>, r: Request): Result<()> {
    match r
    case AddItem(_, id, variant, quantity, _, offer, _) =>
      if quantity <= 0 then Err(Invalid)
      else if HasVariant(items, variant) then Err(Conflict)
      else Priced(quantity, offer)
    case UpdateItem(_, id, quantity, _, offer) =>
      if id !in Live(items) then Err(NotFound)
      else if quantity <= 0 then Err(Invalid)
      else Priced(quantity, offer)
    case RemoveItem(_, id, _) =>
      if id !in Live(items) then Err(NotFound) else Ok(())
    case Delete(_, _) => Ok(())
    case CheckOut(_, _) => if Live(items) == {} then Err(Conflict) else Ok(())
    case Expire(_, _) => Ok(())
  }

  // ---------- What a call writes ----------

  /** The version under which a call writes the cart row: the one its client named, if such calls
      name one, and otherwise the one it read. */
  function NamedVersion(readVersion: nat, r: Request): nat {
    if r.UpdateItem? || r.RemoveItem? then readVersion else r.expectedVersion
  }

  predicate VersionAgrees(cart: CartRow, readVersion: nat, r: Request) {
    cart.version == NamedVersion(readVersion, r) && Visible(cart, r.user) && cart.status == Active
  }

  function Archived(items: map<ItemId, Item>, now: Time): map<ItemId, Item> {
    map id | id in items ::
      if items[id].deletedAt.Some? then items[id]
      else items[id].(deletedAt := Some(now), version := items[id].version + 1)
  }

  /** No two live items of one variant, and no item twice: unique indexes refuse either. */
  function WriteItems(items: map<ItemId, Item>, r: Request, now: Time): Result<map<ItemId, Item>> {
    match r
    case AddItem(_, id, variant, quantity, _, offer, addedAt) =>
      if id in items || HasVariant(items, variant) || quantity < 0 || offer.None? then Err(Conflict)
      else
        var bought := offer.value;
        Ok(items[id := Item(bought.product, variant, quantity, bought.price, bought.available, addedAt, None, 1)])
    case UpdateItem(_, id, quantity, expectedVersion, offer) =>
      if id !in Live(items) || items[id].version != expectedVersion || quantity < 0 || offer.None? then Err(Conflict)
      else Ok(items[id := items[id].(quantity := quantity, unitPrice := offer.value.price,
                                     available := offer.value.available, version := items[id].version + 1)])
    case RemoveItem(_, id, expectedVersion) =>
      if id !in Live(items) || items[id].version != expectedVersion then Err(Conflict)
      else Ok(items[id := items[id].(deletedAt := Some(now), version := items[id].version + 1)])
    case Delete(_, _) => Ok(Archived(items, now))
    case CheckOut(_, _) => Ok(items)
    case Expire(_, _) => Ok(items)
  }

  function WriteCart(cart: CartRow, r: Request, now: Time): CartRow {
    var next := cart.(version := cart.version + 1);
    match r
    case Delete(_, _) => next.(status := Abandoned, deletedAt := Some(now))
    case CheckOut(_, _) => next.(status := CheckedOut, checkedOutAt := Some(now))
    case Expire(_, _) => next.(status := Expired, checkedOutAt := None)
    case _ => next
  }

  /** The write of a call that read the cart at `readVersion`, against the rows as they are now. */
  function Write(s: State, readVersion: nat, r: Request, now: Time): Result<State> {
    var items := WriteItems(s.items, r, now);
    if items.Err? then Err(items.error)
    else if !VersionAgrees(s.cart, readVersion, r) then Err(Conflict)
    else Ok(State(WriteCart(s.cart, r, now), items.value))
  }

  function EventsOf(r: Request, version: nat): seq<Event> {
    match r
    case AddItem(_, id, _, _, _, _, _) => [ItemAdded(id, version), Updated(version)]
    case UpdateItem(_, id, _, _, _) => [ItemUpdated(id, version), Updated(version)]
    case RemoveItem(_, id, _) => [ItemRemoved(id, version), Updated(version)]
    case Delete(_, _) => [Deleted(version)]
    case CheckOut(_, _) => [CheckedOutEvent(version)]
    case Expire(_, _) => [ExpiredEvent(version)]
  }

  /** The call run by itself, from reading to writing. */
  function Execute(s: State, r: Request, now: Time): Result<State> {
    var onCart := CheckCart(s.cart, r, now);
    if onCart.Err? then Err(onCart.error)
    else
      var onItems := CheckItems(s.items, r);
      if onItems.Err? then Err(onItems.error)
      else Write(s, s.cart.version, r, now)
  }

  lemma WriteAdvances(s: State, readVersion: nat, r: Request, now: Time)
    requires Write(s, readVersion, r, now).Ok?
    ensures Write(s, readVersion, r, now).value.cart.version == s.cart.version + 1
    ensures s.cart.status == Active && s.cart.deletedAt.None?
  {
  }
}
