/** A cart stays mutable while a checkout session for it is open: when a session's lines still are
    what its cart holds, and what is sold by no line when they are not. */
module CheckoutDrift {
  import opened Common
  import opened Cart
  import opened Checkout
  import opened CheckoutSafety

  // ---------- Versions tell whether the items changed ----------

  type Items = map<ItemId, Item>

  /** Items never go, and their versions never fall. */
  ghost predicate Later(was: Items, now: Items) {
    forall id | id in was :: id in now && was[id].version <= now[id].version
  }

  /** Some item is new or at a higher version. */
  ghost predicate Changed(was: Items, now: Items) {
    exists id :: id in now && (id in was ==> was[id].version < now[id].version)
  }

  /** One call on a cart: items only advance; if the cart stays active, one of them did. */
  lemma CallAdvancesItems(s: State, r: Request, now: Time)
    requires Execute(s, r, now).Ok?
    ensures var s' := Execute(s, r, now).value;
      && Later(s.items, s'.items) && s'.cart.version == s.cart.version + 1
      && (s'.cart.status == Active ==> Changed(s.items, s'.items))
      && (r.CheckOut? ==> s'.items == s.items)
      && s.cart.status == Active
  {
    var s' := Execute(s, r, now).value;
    if r.AddItem? || r.UpdateItem? || r.RemoveItem? {
      assert r.id in s'.items && (r.id in s.items ==> s.items[r.id].version < s'.items[r.id].version);
    }
  }

  /** What a call of the shop does to a cart: nothing, or one call on it. */
  lemma OneCallOrNothing(shop: Shop, op: Op, cart: CartId) returns (r: Request, now: Time)
    requires cart in shop.carts
    ensures cart in Step(shop, op).carts
    ensures Step(shop, op).carts[cart] == shop.carts[cart]
      || ((op.Confirm? ==> r.CheckOut?) && (op.OnCart? || op.Confirm?)
          && Execute(shop.carts[cart], r, now).Ok?
          && Step(shop, op).carts[cart] == Execute(shop.carts[cart], r, now).value)
  {
    r, now := CheckOut(0, 0), 0;
    if op.OnCart? {
      r, now := op.request, op.now;
    } else if op.Confirm? && op.id in shop.sessions && shop.sessions[op.id].cart == cart {
      r, now := CheckOut(op.user, shop.carts[cart].cart.version), op.cartNow;
    }
  }

  lemma LaterIsTransitive(a: Items, b: Items, c: Items)
    requires Later(a, b) && Later(b, c)
    ensures Later(a, c)
    ensures Changed(a, b) || Changed(b, c) ==> Changed(a, c)
  {
    if Changed(a, b) {
      var id :| id in b && (id in a ==> a[id].version < b[id].version);
      assert id in c && (id in a ==> a[id].version < c[id].version);
    }
    if Changed(b, c) {
      var id :| id in c && (id in b ==> b[id].version < c[id].version);
      assert id in c && (id in a ==> a[id].version < c[id].version);
    }
  }

  /** Since an earlier point of the run, the cart is untouched or at a higher version; and if it
      is still active at a higher version, an item has changed. */
  ghost predicate Advanced(was: State, now: State) {
    && Later(was.items, now.items) && was.cart.version <= now.cart.version
    && (was.cart.version == now.cart.version ==> now == was)
    && (was.cart.version < now.cart.version && now.cart.status == Active ==> Changed(was.items, now.items))
  }

  lemma AdvancedFurther(was: State, s: State, r: Request, now: Time)
    requires Advanced(was, s) && Execute(s, r, now).Ok?
    ensures Advanced(was, Execute(s, r, now).value)
  {
    CallAdvancesItems(s, r, now);
    LaterIsTransitive(was.items, s.items, Execute(s, r, now).value.items);
  }

  lemma {:induction false} CartsAdvance(g: Run, h: Run, cart: CartId)
    requires Extends(h, g) && cart in After(g).carts
    ensures cart in After(h).carts && Advanced(After(g).carts[cart], After(h).carts[cart])
    decreases h
  {
    if h != g {
      CartsAdvance(g, h.past, cart);
      var r, now := OneCallOrNothing(After(h.past), h.op, cart);
      var was, s := After(g).carts[cart], After(h.past).carts[cart];
      if After(h).carts[cart] != s { AdvancedFurther(was, s, r, now); }
    }
  }

  lemma ChangedIsDifferent(was: Items, now: Items)
    requires Changed(was, now)
    ensures was != now
  {
  }

  /** While a cart is active, its items are what they were at an earlier point exactly if its
      version is. The version is all a caller need look at. */
  lemma ItemsSameExactlyIfVersionSame(g: Run, h: Run, cart: CartId)
    requires Extends(h, g) && cart in After(g).carts
    requires cart in After(h).carts && After(h).carts[cart].cart.status == Active
    ensures After(h).carts[cart].items == After(g).carts[cart].items
      <==> After(h).carts[cart].cart.version == After(g).carts[cart].cart.version
  {
    CartsAdvance(g, h, cart);
    var was, now := After(g).carts[cart], After(h).carts[cart];
    if was.cart.version < now.cart.version { ChangedIsDifferent(was.items, now.items); }
  }

  // ---------- Lines and cart at confirmation ----------

  /** The point of the run at which the session began. */
  lemma {:induction false} BeganAt(h: Run, id: CheckoutId) returns (g: Run)
    requires Beginning(h, id).Some?
    ensures Extends(h, g) && g.Then?
    ensures Beginning(h, id) == Some((After(g.past), g.op)) && g.op.Begin? && g.op.id == id
    ensures Perform(After(g.past), g.op).Ok?
    decreases h
  {
    if h.op.Begin? && h.op.id == id && Perform(After(h.past), h.op).Ok? {
      g := h;
    } else {
      g := BeganAt(h.past, id);
    }
  }

  /** If the cart still is at the version it had when the session began, the session's lines are
      its live items now. */
  lemma LinesMatchAtTheSameVersion(h: Run, id: CheckoutId)
    requires FromEmpty(h) && id in After(h).sessions
    requires Beginning(h, id).Some?
    requires var (shop, op) := Beginning(h, id).value; var cart := After(h).sessions[id].cart;
      && cart in shop.carts && cart in After(h).carts
      && After(h).carts[cart].cart.version == shop.carts[cart].cart.version
    ensures var (shop, op) := Beginning(h, id).value; var x := After(h).sessions[id];
      op.Begin? && Freezes(x.lines, After(h).carts[x.cart], op.quotes)
  {
    SessionsRecordTheirBeginning(h, id);
    var g := BeganAt(h, id);
    var cart := After(h).sessions[id].cart;
    BeginLeavesCarts(After(g.past), g.op);
    CartsAdvance(g, h, cart);
  }

  lemma BeginLeavesCarts(shop: Shop, op: Op)
    requires op.Begin?
    ensures Step(shop, op).carts == shop.carts
  {
  }

  /** So a confirmation at that version checks out exactly what the lines sell. */
  lemma ConfirmationSellsTheCart(h: Run, confirm: Op)
    requires FromEmpty(h) && confirm.Confirm? && Perform(After(h), confirm).Ok?
    requires confirm.id in After(h).sessions && Beginning(h, confirm.id).Some?
    requires var (shop, op) := Beginning(h, confirm.id).value; var cart := After(h).sessions[confirm.id].cart;
      && cart in shop.carts && cart in After(h).carts
      && After(h).carts[cart].cart.version == shop.carts[cart].cart.version
    ensures var (shop, op) := Beginning(h, confirm.id).value; var sold := After(Then(h, confirm));
      && op.Begin? && confirm.id in sold.sessions && sold.sessions[confirm.id].status == Confirmed
      && sold.sessions[confirm.id].cart in sold.carts
      && Freezes(sold.sessions[confirm.id].lines, sold.carts[sold.sessions[confirm.id].cart], op.quotes)
  {
    LinesMatchAtTheSameVersion(h, confirm.id);
    var x := After(h).sessions[confirm.id];
    var s := After(h).carts[x.cart];
    CallAdvancesItems(s, CheckOut(confirm.user, s.cart.version), confirm.cartNow);
    SameItemsSameLines(x.lines, s, After(Then(h, confirm)).carts[x.cart], Beginning(h, confirm.id).value.1.quotes);
  }

  lemma SameItemsSameLines(lines: seq<Line>, s: State, s': State, quotes: map<ItemId, Offer>)
    requires Freezes(lines, s, quotes) && s'.items == s.items
    ensures Freezes(lines, s', quotes)
  {
  }

  // ---------- An item sold by no line ----------

  ghost predicate SoldByNoLine(shop: Shop, id: CheckoutId, variant: VariantId) {
    && id in shop.sessions && shop.sessions[id].cart in shop.carts
    && shop.sessions[id].status == Confirmed
    && shop.carts[shop.sessions[id].cart].cart.status == CheckedOut
    && HasVariant(shop.carts[shop.sessions[id].cart].items, variant)
    && forall line | line in shop.sessions[id].lines :: line.variant != variant
  }

  /** The session and its cart are as a confirmation wants them. */
  ghost predicate Confirmable(shop: Shop, id: CheckoutId, user: UserId, now: Time) {
    && Owned(shop, id, user) && shop.sessions[id].status == Open && now < shop.sessions[id].expiresAt
    && shop.sessions[id].cart in shop.carts
    && var s := shop.carts[shop.sessions[id].cart];
       Visible(s.cart, user) && s.cart.status == Active && now < s.cart.expiresAt
  }

  /** The request adds a variant that the cart does not hold. */
  ghost predicate Addable(s: State, r: Request, user: UserId) {
    && r.AddItem? && r.user == user && r.id !in s.items && !HasVariant(s.items, r.variant)
    && r.quantity > 0 && r.offer.Some? && r.quantity <= r.offer.value.available
    && r.expectedVersion == s.cart.version
  }

  lemma AddingAdds(s: State, r: Request, now: Time)
    requires Addable(s, r, s.cart.user)
    requires Visible(s.cart, s.cart.user) && s.cart.status == Active && now < s.cart.expiresAt
    ensures Execute(s, r, now).Ok?
    ensures var s' := Execute(s, r, now).value;
      && r.id in s'.items && s'.items[r.id].variant == r.variant && r.id in Live(s'.items)
      && s'.cart == s.cart.(version := s.cart.version + 1)
  {
  }

  lemma CheckingOutKeepsItems(s: State, user: UserId, now: Time)
    requires Visible(s.cart, user) && s.cart.status == Active && now < s.cart.expiresAt && Live(s.items) != {}
    ensures var done := Execute(s, CheckOut(user, s.cart.version), now);
      done.Ok? && done.value.items == s.items && done.value.cart.status == CheckedOut
  {
  }

  /** From any shop in which a session could be confirmed: an item added first, of a variant in no
      line, is checked out with the cart and sold by no line. */
  lemma LateItemIsSoldByNoLine(shop: Shop, id: CheckoutId, user: UserId, r: Request, now: Time)
    requires Confirmable(shop, id, user, now) && Addable(shop.carts[shop.sessions[id].cart], r, user)
    requires forall line | line in shop.sessions[id].lines :: line.variant != r.variant
    ensures var added := Step(shop, OnCart(shop.sessions[id].cart, r, now));
      SoldByNoLine(Step(added, Confirm(id, user, shop.sessions[id].version, now, now)), id, r.variant)
  {
    var x := shop.sessions[id];
    var s := shop.carts[x.cart];
    AddingAdds(s, r, now);
    var s' := Execute(s, r, now).value;
    var added := Step(shop, OnCart(x.cart, r, now));
    assert added == shop.(carts := shop.carts[x.cart := s']);
    CheckingOutKeepsItems(s', user, now);
    var sold := Step(added, Confirm(id, user, x.version, now, now));
    assert sold.sessions[id] == x.(status := Confirmed, completedAt := Some(now), version := x.version + 1);
    assert sold.carts[x.cart].items == s'.items;
    assert HasVariant(s'.items, r.variant);
  }

  /** The same as a run from empty tables. */
  lemma LateItemRun(user: UserId, store: StoreId, sold: VariantId, late: VariantId, offer: Offer) returns (h: Run)
    requires sold != late && offer.available >= 1
    ensures FromEmpty(h) && Timed(h) && SoldByNoLine(After(h), 3, late)
  {
    var opening := OpenCart(1, user, store, true, true, None, 0);
    var adding := OnCart(1, AddItem(user, 2, sold, 1, 1, Some(offer), 0), 0);
    var beginning := Begin(3, 1, user, map[2 := offer], None, true, 0);
    var r := AddItem(user, 4, late, 1, 2, Some(offer), 0);
    var h1 := Then(Start(EMPTY), opening);
    var h2 := Then(h1, adding);
    var h3 := Then(h2, beginning);
    var h4 := Then(h3, OnCart(1, r, 0));
    h := Then(h4, Confirm(3, user, 1, 0, 0));
    AtTheStart(Start(EMPTY), opening);
    AtTheStart(h1, adding);
    AtTheStart(h2, beginning);
    AtTheStart(h3, h4.op);
    AtTheStart(h4, h.op);
    var empty := New(user, store, CART_LIFETIME);
    assert After(h1).carts == map[1 := empty] && After(h1).sessions == map[];
    var item := Item(offer.product, sold, 1, offer.price, offer.available, 0, None, 1);
    var one := State(empty.cart.(version := 2), map[2 := item]);
    AddingAdds(empty, adding.request, 0);
    assert After(h2).carts == map[1 := one] && After(h2).sessions == map[];
    OneItemListed(one.items, 2);
    OneItemPrepared(one.items, 2, map[2 := offer]);
    var line := Line(offer.product, sold, 1, offer.price);
    assert After(h3).carts == map[1 := one] && 3 in After(h3).sessions;
    assert After(h3).sessions[3].lines == [line] && After(h3).sessions[3].version == 1;
    LateItemIsSoldByNoLine(After(h3), 3, user, r, 0);
  }

  lemma AtTheStart(h: Run, op: Op)
    requires Timed(h) && (Clock(h).Some? ==> Clock(h).value == 0)
    requires FromEmpty(h) && op.now == 0 && (op.Confirm? ==> op.cartNow == 0)
    ensures FromEmpty(Then(h, op))
    ensures Timed(Then(h, op)) && Clock(Then(h, op)) == Some(0)
  {
    assert BeginsAt(op) == Some(0) && EndsAt(op) == Some(0);
  }

  lemma OneItemListed(items: Items, id: ItemId)
    requires items.Keys == {id} && items[id].deletedAt.None?
    ensures Live(items) == {id} && Listed(items, {id}) == [id]
  {
    assert Live(items) == {id};
    ListedOnce(items, {id});
    assert Listed(items, {id})[0] in Listed(items, {id});
  }

  lemma OneItemPrepared(items: Items, id: ItemId, quotes: map<ItemId, Offer>)
    requires id in items && Prepare(items[id], id, quotes).Ok?
    ensures PrepareAll(items, [id], quotes) == Ok([Prepare(items[id], id, quotes).value])
  {
    assert [id][..|[id]| - 1] == [];
    assert PrepareAll(items, [], quotes) == Ok([]);
    var prepared: seq<Line> := [Prepare(items[id], id, quotes).value];
    assert [] + prepared == prepared;
  }
}
