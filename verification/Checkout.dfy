/** Checkout sessions over carts: a session freezes the cart's items at current prices, and is
    confirmed, cancelled or left to expire. */
module Checkout {
  import opened Common
  import opened Cart

  type CartId = nat
  type CheckoutId = nat

  datatype CheckoutStatus = Open | Confirmed | Lapsed | Cancelled

  /** One frozen item. */
  datatype Line = Line(product: ProductId, variant: VariantId, quantity: nat, unitPrice: Amount)

  datatype Session = Session(
    cart: CartId,
    user: UserId,
    status: CheckoutStatus,
    lines: seq<Line>,
    subtotal: nat,
    expiresAt: Time,
    completedAt: Option<Time>,
    deletedAt: Option<Time>,
    version: nat)

  datatype Shop = Shop(carts: map<CartId, State>, sessions: map<CheckoutId, Session>)

  const EMPTY := Shop(map[], map[])
  const CART_LIFETIME: Time := 30 * 24 * 60 * 60 * SECOND
  const SESSION_LIFETIME: Time := 15 * 60 * SECOND

  datatype Op =
    | OpenCart(cart: CartId, user: UserId, store: StoreId, currencyIsKnown: bool, storeIsOpen: bool,
               expiresAt: Option<Time>, now: Time)
    | OnCart(cart: CartId, request: Request, now: Time)
    | Begin(id: CheckoutId, cart: CartId, user: UserId, quotes: map<ItemId, Offer>, expiresAt: Option<Time>,
            promotionsHold: bool, now: Time)
    | Confirm(id: CheckoutId, user: UserId, expectedVersion: nat, now: Time, cartNow: Time)
    | Cancel(id: CheckoutId, user: UserId, expectedVersion: nat, now: Time)
    | Access(id: CheckoutId, user: UserId, now: Time)

  type Run = History<Shop, Op>

  // ---------- Items in listing order ----------

  /** ORDER BY added_at, id. */
  function Rank(items: map<ItemId, Item>): ItemId -> Time {
    id => if id in items then items[id].addedAt else 0
  }

  predicate Before(items: map<ItemId, Item>, a: ItemId, b: ItemId)
    requires a in items && b in items
  {
    items[a].addedAt < items[b].addedAt || (items[a].addedAt == items[b].addedAt && a < b)
  }

  function First(items: map<ItemId, Item>, ids: set<ItemId>): (m: ItemId)
    requires ids != {} && ids <= items.Keys
    ensures m in ids && forall x | x in ids && x != m :: Before(items, m, x)
  {
    var m := Earliest(Rank(items), ids);
    assert forall x | x in ids && x != m :: Precedes(Rank(items), m, x);
    m
  }

  function Listed(items: map<ItemId, Item>, ids: set<ItemId>): seq<ItemId>
    requires ids <= items.Keys
    decreases |ids|
  {
    if ids == {} then [] else [First(items, ids)] + Listed(items, ids - {First(items, ids)})
  }

  ghost predicate InOrder(items: map<ItemId, Item>, listed: seq<ItemId>) {
    && (forall x | x in listed :: x in items)
    && forall i, j | 0 <= i < j < |listed| ::
         var a, b := listed[i], listed[j];
         items[a].addedAt < items[b].addedAt || (items[a].addedAt == items[b].addedAt && a < b)
  }

  /** The listing names every item once, in order. */
  lemma {:induction false} ListedOnce(items: map<ItemId, Item>, ids: set<ItemId>)
    requires ids <= items.Keys
    ensures forall x :: x in Listed(items, ids) <==> x in ids
    ensures |Listed(items, ids)| == |ids|
    ensures InOrder(items, Listed(items, ids))
    decreases |ids|
  {
    if ids != {} {
      var m := First(items, ids);
      ListedOnce(items, ids - {m});
      ListedFirst(items, m, ids - {m}, Listed(items, ids - {m}));
    }
  }

  lemma ListedFirst(items: map<ItemId, Item>, m: ItemId, others: set<ItemId>, rest: seq<ItemId>)
    requires m in items && others <= items.Keys && forall x | x in others :: Before(items, m, x)
    requires (forall x :: x in rest <==> x in others) && InOrder(items, rest)
    ensures (forall x :: x in [m] + rest <==> x in others + {m}) && InOrder(items, [m] + rest)
  {
    forall j | 0 <= j < |rest| ensures Before(items, m, rest[j]) { assert rest[j] in rest; }
  }

  // ---------- Preparing the lines ----------

  function Prepare(item: Item, id: ItemId, quotes: map<ItemId, Offer>): Result<Line> {
    if id !in quotes then Err(NotFound)
    else if quotes[id].product != item.product then Err(Conflict)
    else if quotes[id].available < item.quantity then Err(Conflict)
    else Ok(Line(item.product, item.variant, item.quantity, quotes[id].price))
  }

  /** The lines of the items, if every one of them is still offered; else the first refusal. */
  function PrepareAll(items: map<ItemId, Item>, ids: seq<ItemId>, quotes: map<ItemId, Offer>): Result<seq<Line>>
    requires forall id | id in ids :: id in items
  {
    if ids == [] then Ok([])
    else
      var last := |ids| - 1;
      var before := PrepareAll(items, ids[..last], quotes);
      if before.Err? then before
      else
        var line := Prepare(items[ids[last]], ids[last], quotes);
        if line.Err? then Err(line.error) else Ok(before.value + [line.value])
  }

  function Subtotal(lines: seq<Line>): nat {
    if lines == [] then 0
    else
      var last := lines[|lines| - 1];
      Subtotal(lines[..|lines| - 1]) + last.unitPrice * last.quantity
  }

  /** A session's lines are the cart's live items at the quoted prices. */
  ghost predicate Freezes(lines: seq<Line>, s: State, quotes: map<ItemId, Offer>) {
    var ids := Listed(s.items, Live(s.items));
    && |lines| == |ids|
    && (forall id :: id in ids <==> id in Live(s.items))
    && forall i | 0 <= i < |ids| ::
         && ids[i] in s.items && ids[i] in quotes
         && lines[i].variant == s.items[ids[i]].variant
         && lines[i].product == s.items[ids[i]].product
         && lines[i].quantity == s.items[ids[i]].quantity
         && lines[i].unitPrice == quotes[ids[i]].price
         && quotes[ids[i]].available >= lines[i].quantity
  }

  lemma {:induction false} PreparedLines(items: map<ItemId, Item>, ids: seq<ItemId>, quotes: map<ItemId, Offer>)
    requires forall id | id in ids :: id in items
    requires PrepareAll(items, ids, quotes).Ok?
    ensures var lines := PrepareAll(items, ids, quotes).value;
      && |lines| == |ids|
      && forall i | 0 <= i < |ids| :: Prepare(items[ids[i]], ids[i], quotes) == Ok(lines[i])
  {
    if ids != [] {
      PreparedLines(items, ids[..|ids| - 1], quotes);
    }
  }

  // ---------- One call ----------

  predicate ExistsForCart(shop: Shop, cart: CartId) {
    exists id | id in shop.sessions :: shop.sessions[id].cart == cart
  }

  predicate ActiveExists(shop: Shop, user: UserId, store: StoreId) {
    exists id | id in shop.carts ::
      var c := shop.carts[id].cart;
      c.user == user && c.store == store && c.status == Active && c.deletedAt.None?
  }

  predicate Owned(shop: Shop, id: CheckoutId, user: UserId) {
    id in shop.sessions && shop.sessions[id].user == user && shop.sessions[id].deletedAt.None?
  }

  function ExpiryOr(given: Option<Time>, now: Time, lifetime: Time): Time {
    if given.Some? then given.value else now + lifetime
  }

  function DoOpenCart(shop: Shop, op: Op): Result<Shop>
    requires op.OpenCart?
  {
    var expiresAt := ExpiryOr(op.expiresAt, op.now, CART_LIFETIME);
    if !op.currencyIsKnown || expiresAt <= op.now then Err(Invalid)
    else if !op.storeIsOpen then Err(NotFound)
    else if ActiveExists(shop, op.user, op.store) || op.cart in shop.carts then Err(Conflict)
    else Ok(shop.(carts := shop.carts[op.cart := New(op.user, op.store, expiresAt)]))
  }

  function DoBegin(shop: Shop, op: Op): Result<Shop>
    requires op.Begin?
  {
    if op.cart !in shop.carts || !Visible(shop.carts[op.cart].cart, op.user) then Err(NotFound)
    else
      var s := shop.carts[op.cart];
      if s.cart.status != Active || s.cart.expiresAt <= op.now then Err(Conflict)
      else if ExistsForCart(shop, op.cart) then Err(Conflict)
      else if Live(s.items) == {} then Err(Conflict)
      else
        ListedOnce(s.items, Live(s.items));
        var lines := PrepareAll(s.items, Listed(s.items, Live(s.items)), op.quotes);
        var expiresAt := ExpiryOr(op.expiresAt, op.now, SESSION_LIFETIME);
        if lines.Err? then Err(lines.error)
        else if expiresAt <= op.now then Err(Invalid)
        else if op.id in shop.sessions || !op.promotionsHold then Err(Conflict)
        else Ok(shop.(sessions := shop.sessions[op.id :=
          Session(op.cart, s.cart.user, Open, lines.value, Subtotal(lines.value), expiresAt, None, None, 1)]))
  }

  function DoConfirm(shop: Shop, op: Op): Result<Shop>
    requires op.Confirm?
  {
    if !Owned(shop, op.id, op.user) then Err(NotFound)
    else
      var x := shop.sessions[op.id];
      if x.status != Open || x.expiresAt <= op.now || x.version != op.expectedVersion then Err(Conflict)
      else if x.cart !in shop.carts then Err(NotFound)
      else
        var s := shop.carts[x.cart];
        var done := Execute(s, Request.CheckOut(op.user, s.cart.version), op.cartNow);
        if done.Err? then Err(done.error)
        else Ok(Shop(shop.carts[x.cart := done.value],
                     shop.sessions[op.id :=
                       x.(status := Confirmed, completedAt := Some(op.now), version := x.version + 1)]))
  }

  function DoCancel(shop: Shop, op: Op): Result<Shop>
    requires op.Cancel?
  {
    if !Owned(shop, op.id, op.user) then Err(NotFound)
    else
      var x := shop.sessions[op.id];
      if x.status != Open || x.expiresAt <= op.now || x.version != op.expectedVersion then Err(Conflict)
      else Ok(shop.(sessions := shop.sessions[op.id :=
        x.(status := Cancelled, deletedAt := Some(op.now), version := x.version + 1)]))
  }

  /** Reading an overdue session expires it. */
  function DoAccess(shop: Shop, op: Op): Result<Shop>
    requires op.Access?
  {
    if !Owned(shop, op.id, op.user) then Err(NotFound)
    else
      var x := shop.sessions[op.id];
      if x.status != Open || x.expiresAt > op.now then Ok(shop)
      else Ok(shop.(sessions := shop.sessions[op.id :=
        x.(status := Lapsed, completedAt := None, version := x.version + 1)]))
  }

  function Perform(shop: Shop, op: Op): Result<Shop> {
    match op
    case OpenCart(_, _, _, _, _, _, _) => DoOpenCart(shop, op)
    case OnCart(cart, request, now) =>
      if cart !in shop.carts then Err(NotFound)
      else
        var done := Execute(shop.carts[cart], request, now);
        if done.Err? then Err(done.error) else Ok(shop.(carts := shop.carts[cart := done.value]))
    case Begin(_, _, _, _, _, _, _) => DoBegin(shop, op)
    case Confirm(_, _, _, _, _) => DoConfirm(shop, op)
    case Cancel(_, _, _, _) => DoCancel(shop, op)
    case Access(_, _, _) => DoAccess(shop, op)
  }

  /** A call that refuses leaves everything as it was. */
  function Step(shop: Shop, op: Op): Shop {
    var done := Perform(shop, op);
    if done.Ok? then done.value else shop
  }

  function After(h: Run): Shop {
    match h
    case Start(shop) => shop
    case Then(past, op) => Step(After(past), op)
  }

  function BeginsAt(op: Op): Option<Time> {
    Some(op.now)
  }

  /** A confirmation reads the clock twice. */
  function EndsAt(op: Op): Option<Time> {
    Some(if op.Confirm? then op.cartNow else op.now)
  }

  ghost function Clock(h: Run): Option<Time> {
    LastReading(h, EndsAt)
  }

  /** The clock never goes back, within a confirmation or between calls. */
  ghost predicate Timed(h: Run) {
    NeverBack(h, BeginsAt, EndsAt)
  }
}
