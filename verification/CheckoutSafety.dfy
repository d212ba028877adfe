/** What holds of checkouts in every run. */
module CheckoutSafety {
  import opened Common
  import opened Cart
  import opened Checkout
  import opened CheckoutTotals

  ghost predicate FromEmpty(h: Run) {
    StartsFrom(h, EMPTY)
  }

  ghost predicate OneEach(shop: Shop) {
    forall a, b | a in shop.sessions && b in shop.sessions && shop.sessions[a].cart == shop.sessions[b].cart :: a == b
  }

  /** Where a stored session comes from: it was there before, or it has just begun, for a cart
      that had none. */
  lemma SessionsComeFromBegin(shop: Shop, op: Op, id: CheckoutId)
    requires id in Step(shop, op).sessions
    ensures id in shop.sessions ==> Step(shop, op).sessions[id].cart == shop.sessions[id].cart
    ensures id !in shop.sessions ==>
      op.Begin? && id == op.id && Step(shop, op).sessions[id].cart == op.cart && !ExistsForCart(shop, op.cart)
  {
  }

  /** A cart has at most one checkout session ever, cancelled and expired ones included. */
  lemma {:induction false} OneSessionPerCart(h: Run)
    requires FromEmpty(h)
    ensures OneEach(After(h))
  {
    if h.Then? {
      OneSessionPerCart(h.past);
      var shop, shop' := After(h.past), After(h);
      forall a, b | a in shop'.sessions && b in shop'.sessions && shop'.sessions[a].cart == shop'.sessions[b].cart
        ensures a == b
      {
        SessionsComeFromBegin(shop, h.op, a);
        SessionsComeFromBegin(shop, h.op, b);
      }
    }
  }

  ghost predicate OneActive(shop: Shop) {
    forall a, b | a in shop.carts && b in shop.carts
      && shop.carts[a].cart.status == Active && shop.carts[b].cart.status == Active
      && shop.carts[a].cart.deletedAt.None? && shop.carts[b].cart.deletedAt.None?
      && shop.carts[a].cart.user == shop.carts[b].cart.user && shop.carts[a].cart.store == shop.carts[b].cart.store
      :: a == b
  }

  lemma ExecuteKeepsOwner(s: State, r: Request, now: Time)
    requires Execute(s, r, now).Ok?
    ensures var s' := Execute(s, r, now).value;
      && s'.cart.user == s.cart.user && s'.cart.store == s.cart.store && s'.cart.expiresAt == s.cart.expiresAt
      && s.cart.status == Active && s.cart.deletedAt.None?
  {
  }

  lemma StepKeepsOneActive(shop: Shop, op: Op)
    requires OneActive(shop)
    ensures OneActive(Step(shop, op))
  {
    if Perform(shop, op).Ok? {
      if op.OnCart? {
        ExecuteKeepsOwner(shop.carts[op.cart], op.request, op.now);
      } else if op.Confirm? {
        var cart := shop.sessions[op.id].cart;
        ExecuteKeepsOwner(shop.carts[cart], Request.CheckOut(op.user, shop.carts[cart].cart.version), op.cartNow);
      }
    }
  }

  /** A customer has at most one active cart in a store. */
  lemma {:induction false} OneActiveCartPerStore(h: Run)
    requires FromEmpty(h)
    ensures OneActive(After(h))
  {
    if h.Then? {
      OneActiveCartPerStore(h.past);
      StepKeepsOneActive(After(h.past), h.op);
    }
  }

  // ---------- Frozen snapshots ----------

  ghost predicate SameSnapshot(a: Session, b: Session) {
    && a.cart == b.cart && a.user == b.user && a.lines == b.lines && a.subtotal == b.subtotal
    && a.expiresAt == b.expiresAt
  }

  lemma StepKeepsSnapshot(shop: Shop, op: Op, id: CheckoutId)
    requires id in shop.sessions
    ensures id in Step(shop, op).sessions && SameSnapshot(Step(shop, op).sessions[id], shop.sessions[id])
    ensures shop.sessions[id].status != Open ==> Step(shop, op).sessions[id] == shop.sessions[id]
  {
  }

  /** A session is never removed; its items, subtotal and deadline never change; and once it has
      left the open state nothing about it does. */
  lemma {:induction false} SnapshotsAreFrozen(g: Run, h: Run, id: CheckoutId)
    requires Extends(h, g) && id in After(g).sessions
    ensures id in After(h).sessions && SameSnapshot(After(h).sessions[id], After(g).sessions[id])
    ensures After(g).sessions[id].status != Open ==> After(h).sessions[id] == After(g).sessions[id]
    decreases h
  {
    if h != g {
      SnapshotsAreFrozen(g, h.past, id);
      StepKeepsSnapshot(After(h.past), h.op, id);
    }
  }

  /** The call that began the session, and the shop it found. */
  ghost function Beginning(h: Run, id: CheckoutId): Option<(Shop, Op)> {
    match h
    case Start(_) => None
    case Then(past, op) =>
      if op.Begin? && op.id == id && Perform(After(past), op).Ok? then Some((After(past), op))
      else Beginning(past, id)
  }

  lemma PreparedLinesFreeze(s: State, quotes: map<ItemId, Offer>)
    requires forall id | id in Listed(s.items, Live(s.items)) :: id in s.items
    requires PrepareAll(s.items, Listed(s.items, Live(s.items)), quotes).Ok?
    ensures Freezes(PrepareAll(s.items, Listed(s.items, Live(s.items)), quotes).value, s, quotes)
  {
    var ids := Listed(s.items, Live(s.items));
    var lines := PrepareAll(s.items, ids, quotes).value;
    ListedOnce(s.items, Live(s.items));
    PreparedLines(s.items, ids, quotes);
    forall i | 0 <= i < |ids|
      ensures ids[i] in s.items && ids[i] in quotes && Prepare(s.items[ids[i]], ids[i], quotes) == Ok(lines[i])
    {
    }
  }

  lemma AllLiveAreListed(s: State)
    ensures var ids := Listed(s.items, Live(s.items));
      |ids| == |Live(s.items)| && forall id | id in ids :: id in s.items
  {
    ListedOnce(s.items, Live(s.items));
  }

  lemma BeginFreezes(shop: Shop, op: Op)
    requires op.Begin? && Perform(shop, op).Ok?
    ensures op.cart in shop.carts && op.id in Step(shop, op).sessions
    ensures var x, s := Step(shop, op).sessions[op.id], shop.carts[op.cart];
      && x.cart == op.cart && x.user == s.cart.user == op.user
      && Freezes(x.lines, s, op.quotes) && |x.lines| > 0 && x.subtotal == Subtotal(x.lines)
      && op.now < x.expiresAt && s.cart.status == Active
  {
    AllLiveAreListed(shop.carts[op.cart]);
    PreparedLinesFreeze(shop.carts[op.cart], op.quotes);
  }

  /** Whenever a session is looked at, its lines are the cart's live items as they were when it
      began, at the prices quoted then, and its subtotal is the total of price times quantity over
      those items. */
  lemma {:induction false} SessionsRecordTheirBeginning(h: Run, id: CheckoutId)
    requires FromEmpty(h) && id in After(h).sessions
    ensures Beginning(h, id).Some?
    ensures var (shop, op) := Beginning(h, id).value;
      && op.Begin? && op.cart in shop.carts
      && After(h).sessions[id].cart == op.cart
      && Freezes(After(h).sessions[id].lines, shop.carts[op.cart], op.quotes)
      && After(h).sessions[id].subtotal == Total(shop.carts[op.cart].items, op.quotes, Present(shop.carts[op.cart]))
  {
    var shop := After(h.past);
    if h.op.Begin? && h.op.id == id && Perform(shop, h.op).Ok? {
      BeginFreezes(shop, h.op);
      FrozenTotal(After(h).sessions[id].lines, shop.carts[h.op.cart], h.op.quotes);
    } else {
      SessionsRecordTheirBeginning(h.past, id);
      StepKeepsSnapshot(shop, h.op, id);
    }
  }

  // ---------- Confirmation ----------

  lemma CheckOutEnds(s: State, user: UserId, version: nat, now: Time)
    requires Execute(s, Request.CheckOut(user, version), now).Ok?
    ensures Execute(s, Request.CheckOut(user, version), now).value.cart.status == CheckedOut
  {
  }

  lemma ClosedCartsStay(shop: Shop, op: Op, cart: CartId)
    requires cart in shop.carts && shop.carts[cart].cart.status != Active
    ensures cart in Step(shop, op).carts && Step(shop, op).carts[cart] == shop.carts[cart]
  {
    if Perform(shop, op).Ok? {
      if op.OnCart? && op.cart == cart { ExecuteKeepsOwner(shop.carts[cart], op.request, op.now); }
      if op.Confirm? && shop.sessions[op.id].cart == cart {
        ExecuteKeepsOwner(shop.carts[cart], Request.CheckOut(op.user, shop.carts[cart].cart.version), op.cartNow);
      }
    }
  }

  ghost predicate SoundlyConfirmed(shop: Shop, x: Session) {
    x.status == Confirmed ==>
      && x.cart in shop.carts && shop.carts[x.cart].cart.status == CheckedOut
      && x.completedAt.Some? && x.completedAt.value < x.expiresAt
  }

  /** A confirmed session was completed before its deadline, and its cart is checked out. */
  lemma {:induction false} ConfirmedMeansCheckedOut(h: Run, id: CheckoutId)
    requires FromEmpty(h) && id in After(h).sessions
    ensures SoundlyConfirmed(After(h), After(h).sessions[id])
  {
    var shop, op := After(h.past), h.op;
    if id in shop.sessions {
      ConfirmedMeansCheckedOut(h.past, id);
      var x := shop.sessions[id];
      if x.status == Confirmed {
        ClosedCartsStay(shop, op, x.cart);
      } else if op.Confirm? && op.id == id && Perform(shop, op).Ok? {
        CheckOutEnds(shop.carts[x.cart], op.user, shop.carts[x.cart].cart.version, op.cartNow);
      }
    }
  }

  /** A session that is not confirmed by its deadline never will be. */
  lemma {:induction false} NoLateConfirmation(g: Run, h: Run, id: CheckoutId)
    requires Extends(h, g) && Timed(h) && id in After(g).sessions
    requires Clock(g).Some? && After(g).sessions[id].expiresAt <= Clock(g).value
    requires After(g).sessions[id].status != Confirmed
    ensures id in After(h).sessions && After(h).sessions[id].status != Confirmed
    ensures Clock(h).Some? && Clock(g).value <= Clock(h).value
    decreases h
  {
    if h != g {
      NoLateConfirmation(g, h.past, id);
      SnapshotsAreFrozen(g, h.past, id);
    }
  }

  /** Cancelling does not free the cart: no later call begins another session for it. */
  lemma {:induction false} CartIsUsedUp(g: Run, h: Run, id: CheckoutId, op: Op)
    requires Extends(h, g) && id in After(g).sessions
    requires op.Begin? && op.cart == After(g).sessions[id].cart
    ensures Perform(After(h), op).Err?
  {
    SnapshotsAreFrozen(g, h, id);
  }
}
