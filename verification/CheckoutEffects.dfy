/** When a checkout call succeeds, why it is refused, and what it leaves, told by the fields of the
    rows. */
module CheckoutEffects {
  import opened Common
  import opened Cart
  import opened CartEffects
  import opened Checkout
  import opened CheckoutSafety
  import opened CheckoutTotals

  const FIFTEEN_MINUTES: Time := 900_000_000
  const THIRTY_DAYS: Time := 2_592_000_000_000

  /** The deadline asked for, or the default after now. */
  function DeadlineOf(given: Option<Time>, now: Time, otherwise: Time): Time {
    match given
    case Some(t) => t
    case None => now + otherwise
  }

  /** The item is still offered as the product it was, and enough of it is in stock. */
  ghost predicate StillSold(item: Item, id: ItemId, quotes: map<ItemId, Offer>) {
    id in quotes && quotes[id].product == item.product && item.quantity <= quotes[id].available
  }

  lemma PreparedIfStillSold(item: Item, id: ItemId, quotes: map<ItemId, Offer>)
    ensures Prepare(item, id, quotes).Ok? <==> StillSold(item, id, quotes)
    ensures Prepare(item, id, quotes) == Err(NotFound) <==> id !in quotes
    ensures Prepare(item, id, quotes) != Err(Invalid)
  {
  }

  /** Preparing succeeds exactly if every item is still sold. */
  lemma {:induction false} AllPreparedExactlyIf(items: map<ItemId, Item>, ids: seq<ItemId>, quotes: map<ItemId, Offer>)
    requires forall id | id in ids :: id in items
    ensures PrepareAll(items, ids, quotes).Ok? <==>
      forall i | 0 <= i < |ids| :: StillSold(items[ids[i]], ids[i], quotes)
  {
    if ids != [] {
      var last := |ids| - 1;
      AllPreparedExactlyIf(items, ids[..last], quotes);
      PreparedIfStillSold(items[ids[last]], ids[last], quotes);
      assert forall i | 0 <= i < last :: ids[..last][i] == ids[i];
    }
  }

  /** Otherwise it fails for the first item that is not. */
  lemma {:induction false} FirstNotSold(items: map<ItemId, Item>, ids: seq<ItemId>, quotes: map<ItemId, Offer>)
    returns (k: nat)
    requires forall id | id in ids :: id in items
    requires PrepareAll(items, ids, quotes).Err?
    ensures k < |ids| && !StillSold(items[ids[k]], ids[k], quotes)
    ensures PrepareAll(items, ids[..k], quotes).Ok?
    ensures PrepareAll(items, ids, quotes).error == if ids[k] in quotes then Conflict else NotFound
  {
    var last := |ids| - 1;
    PreparedIfStillSold(items[ids[last]], ids[last], quotes);
    if PrepareAll(items, ids[..last], quotes).Err? {
      k := FirstNotSold(items, ids[..last], quotes);
      assert ids[..last][..k] == ids[..k];
    } else {
      k := last;
    }
  }

  ghost predicate AllSold(s: State, quotes: map<ItemId, Offer>) {
    forall id | id in Present(s) :: StillSold(s.items[id], id, quotes)
  }

  /** Some item of the cart is not sold any more, and this is what is wrong with it. */
  ghost predicate NotSold(s: State, quotes: map<ItemId, Offer>, error: Error) {
    exists id :: id in Present(s) && !StillSold(s.items[id], id, quotes)
      && error == if id in quotes then Conflict else NotFound
  }

  lemma CartPreparedExactlyIf(s: State, quotes: map<ItemId, Offer>)
    requires forall id | id in Listed(s.items, Live(s.items)) :: id in s.items
    ensures Live(s.items) == Present(s)
    ensures var lines := PrepareAll(s.items, Listed(s.items, Live(s.items)), quotes);
      (lines.Ok? <==> AllSold(s, quotes)) && (lines.Err? ==> NotSold(s, quotes, lines.error))
  {
    var ids := Listed(s.items, Live(s.items));
    ListedOnce(s.items, Live(s.items));
    AllPreparedExactlyIf(s.items, ids, quotes);
    forall id | id in Present(s) ensures exists i :: 0 <= i < |ids| && ids[i] == id {
      assert id in ids;
    }
    if PrepareAll(s.items, ids, quotes).Err? {
      var k := FirstNotSold(s.items, ids, quotes);
      assert ids[k] in ids;
    }
  }

  // ---------- Opening a cart ----------

  lemma OpeningDoes(shop: Shop, op: Op)
    requires op.OpenCart?
    ensures var deadline := DeadlineOf(op.expiresAt, op.now, THIRTY_DAYS);
      var free := op.cart !in shop.carts && forall c | c in shop.carts ::
        !(IsOpen(shop.carts[c].cart, op.user) && shop.carts[c].cart.store == op.store);
      Perform(shop, op) ==
        if !op.currencyIsKnown || deadline <= op.now then Err(Invalid)
        else if !op.storeIsOpen then Err(NotFound)
        else if !free then Err(Conflict)
        else Ok(Shop(shop.carts[op.cart :=
          State(CartRow(op.user, op.store, Active, deadline, None, None, 1), map[])], shop.sessions))
  {
  }

  // ---------- Beginning ----------

  lemma BeginOutcome(shop: Shop, op: Op, s: State, some: bool, lines: Result<seq<Line>>, sold: bool)
    requires op.Begin? && op.cart in shop.carts && s == shop.carts[op.cart]
    requires forall id | id in Listed(s.items, Live(s.items)) :: id in s.items
    requires some <==> Live(s.items) != {}
    requires lines == PrepareAll(s.items, Listed(s.items, Live(s.items)), op.quotes) && (sold <==> lines.Ok?)
    ensures var visible := s.cart.user == op.user && s.cart.deletedAt == None;
      var ready := s.cart.status == Active && op.now < s.cart.expiresAt && some
        && forall x | x in shop.sessions :: shop.sessions[x].cart != op.cart;
      var inTime := op.now < DeadlineOf(op.expiresAt, op.now, FIFTEEN_MINUTES);
      && (Perform(shop, op).Ok? <==>
          visible && ready && sold && inTime && op.id !in shop.sessions && op.promotionsHold)
      && (Perform(shop, op).Err? ==>
          Perform(shop, op).error ==
          if !visible then NotFound
          else if !ready then Conflict
          else if !sold then lines.error
          else if !inTime then Invalid
          else Conflict)
  {
  }

  lemma BeginSucceedsExactlyIf(shop: Shop, op: Op)
    requires op.Begin?
    ensures Perform(shop, op).Ok? <==>
      && op.cart in shop.carts && IsOpen(shop.carts[op.cart].cart, op.user)
      && op.now < shop.carts[op.cart].cart.expiresAt
      && (forall x | x in shop.sessions :: shop.sessions[x].cart != op.cart)
      && Present(shop.carts[op.cart]) != {} && AllSold(shop.carts[op.cart], op.quotes)
      && op.now < DeadlineOf(op.expiresAt, op.now, FIFTEEN_MINUTES)
      && op.id !in shop.sessions && op.promotionsHold
  {
    if op.cart in shop.carts { BeginOutcomeOf(shop, op, shop.carts[op.cart]); }
  }

  lemma BeginOutcomeOf(shop: Shop, op: Op, s: State)
    requires op.Begin? && op.cart in shop.carts && s == shop.carts[op.cart]
    ensures var visible := s.cart.user == op.user && s.cart.deletedAt == None;
      var ready := s.cart.status == Active && op.now < s.cart.expiresAt && Present(s) != {}
        && forall x | x in shop.sessions :: shop.sessions[x].cart != op.cart;
      var inTime := op.now < DeadlineOf(op.expiresAt, op.now, FIFTEEN_MINUTES);
      && (Perform(shop, op).Ok? <==>
          visible && ready && AllSold(s, op.quotes) && inTime && op.id !in shop.sessions && op.promotionsHold)
      && (Perform(shop, op).Err? ==>
          var error := Perform(shop, op).error;
          if !visible then error == NotFound
          else if !ready then error == Conflict
          else if !AllSold(s, op.quotes) then NotSold(s, op.quotes, error)
          else if !inTime then error == Invalid
          else error == Conflict)
  {
    ListedOnce(s.items, Live(s.items));
    CartPreparedExactlyIf(s, op.quotes);
    var lines := PrepareAll(s.items, Listed(s.items, Live(s.items)), op.quotes);
    BeginOutcome(shop, op, s, Present(s) != {}, lines, AllSold(s, op.quotes));
  }

  /** Why a beginning is refused, in the order of the checks. */
  lemma BeginRefusedFor(shop: Shop, op: Op)
    requires op.Begin? && Perform(shop, op).Err?
    ensures var error := Perform(shop, op).error;
      if op.cart !in shop.carts || shop.carts[op.cart].cart.user != op.user
        || shop.carts[op.cart].cart.deletedAt.Some? then error == NotFound
      else
        var s := shop.carts[op.cart];
        if s.cart.status != Active || s.cart.expiresAt <= op.now || Present(s) == {}
          || (exists x :: x in shop.sessions && shop.sessions[x].cart == op.cart) then error == Conflict
        else if !AllSold(s, op.quotes) then NotSold(s, op.quotes, error)
        else if DeadlineOf(op.expiresAt, op.now, FIFTEEN_MINUTES) <= op.now then error == Invalid
        else error == Conflict
  {
    if op.cart in shop.carts { BeginOutcomeOf(shop, op, shop.carts[op.cart]); }
  }

  /** A beginning adds one open session: the cart's items at the quoted prices, and their total. */
  lemma BeginDoes(shop: Shop, op: Op)
    requires op.Begin? && Perform(shop, op).Ok?
    ensures op.cart in shop.carts && op.id in Step(shop, op).sessions
    ensures var x, s := Step(shop, op).sessions[op.id], shop.carts[op.cart];
      && Step(shop, op) == Shop(shop.carts, shop.sessions[op.id := x])
      && x == Session(op.cart, op.user, Open, x.lines, Total(s.items, op.quotes, Present(s)),
                      DeadlineOf(op.expiresAt, op.now, FIFTEEN_MINUTES), None, None, 1)
      && Freezes(x.lines, s, op.quotes)
  {
    BeginFreezes(shop, op);
    FrozenTotal(Step(shop, op).sessions[op.id].lines, shop.carts[op.cart], op.quotes);
  }

  lemma BeginDoesIf(shop: Shop, op: Op)
    requires op.Begin?
    ensures Perform(shop, op).Ok? ==>
      && op.cart in shop.carts && op.id in Step(shop, op).sessions
      && Step(shop, op).carts == shop.carts
      && Step(shop, op).sessions[op.id].subtotal
         == Total(shop.carts[op.cart].items, op.quotes, Present(shop.carts[op.cart]))
  {
    if Perform(shop, op).Ok? { BeginDoes(shop, op); }
  }

  // ---------- Confirming, cancelling, reading ----------

  /** The customer's own, not cancelled. */
  ghost predicate IsOwned(shop: Shop, id: CheckoutId, user: UserId) {
    id in shop.sessions && shop.sessions[id].user == user && shop.sessions[id].deletedAt == None
  }

  /** Still open, in time, and at the version the client names. */
  ghost predicate IsCurrent(x: Session, expectedVersion: nat, now: Time) {
    x.status == Open && now < x.expiresAt && x.version == expectedVersion
  }

  lemma ConfirmDoes(shop: Shop, op: Op)
    requires op.Confirm?
    ensures
      if !IsOwned(shop, op.id, op.user) then Perform(shop, op) == Err(NotFound)
      else
        var x := shop.sessions[op.id];
        if !IsCurrent(x, op.expectedVersion, op.now) then Perform(shop, op) == Err(Conflict)
        else if x.cart !in shop.carts || shop.carts[x.cart].cart.user != op.user
          || shop.carts[x.cart].cart.deletedAt.Some? then Perform(shop, op) == Err(NotFound)
        else
          var s := shop.carts[x.cart];
          if s.cart.status != Active || s.cart.expiresAt <= op.cartNow || Present(s) == {} then
            Perform(shop, op) == Err(Conflict)
          else
            Perform(shop, op) == Ok(Shop(
              shop.carts[x.cart := State(CartRow(s.cart.user, s.cart.store, CheckedOut, s.cart.expiresAt,
                                                 Some(op.cartNow), None, s.cart.version + 1), s.items)],
              shop.sessions[op.id := Session(x.cart, x.user, Confirmed, x.lines, x.subtotal, x.expiresAt,
                                             Some(op.now), None, x.version + 1)]))
  {
    if IsOwned(shop, op.id, op.user) && shop.sessions[op.id].cart in shop.carts {
      var s := shop.carts[shop.sessions[op.id].cart];
      assert Live(s.items) == Present(s);
    }
  }

  lemma CancelDoes(shop: Shop, op: Op)
    requires op.Cancel?
    ensures
      if !IsOwned(shop, op.id, op.user) then Perform(shop, op) == Err(NotFound)
      else
        var x := shop.sessions[op.id];
        if !IsCurrent(x, op.expectedVersion, op.now) then Perform(shop, op) == Err(Conflict)
        else
          Perform(shop, op) == Ok(Shop(shop.carts, shop.sessions[op.id :=
            Session(x.cart, x.user, CheckoutStatus.Cancelled, x.lines, x.subtotal, x.expiresAt,
                    x.completedAt, Some(op.now), x.version + 1)]))
  {
  }

  lemma AccessDoes(shop: Shop, op: Op)
    requires op.Access?
    ensures
      if !IsOwned(shop, op.id, op.user) then Perform(shop, op) == Err(NotFound)
      else
        var x := shop.sessions[op.id];
        Perform(shop, op) == Ok(
          if x.status == Open && x.expiresAt <= op.now then
            Shop(shop.carts, shop.sessions[op.id :=
              Session(x.cart, x.user, Lapsed, x.lines, x.subtotal, x.expiresAt, None, None, x.version + 1)])
          else shop)
  {
  }

  /** A call on a cart is a call of the cart service on that cart, and touches nothing else. */
  lemma OnCartDoes(shop: Shop, op: Op)
    requires op.OnCart?
    ensures Perform(shop, op).Ok? <==> op.cart in shop.carts && Execute(shop.carts[op.cart], op.request, op.now).Ok?
    ensures Perform(shop, op).Ok? ==>
      && Step(shop, op) == Shop(shop.carts[op.cart := Step(shop, op).carts[op.cart]], shop.sessions)
      && Does(shop.carts[op.cart], Step(shop, op).carts[op.cart], op.request, op.now)
  {
    if op.cart in shop.carts { ExecuteDoes(shop.carts[op.cart], op.request, op.now); }
  }

  /** A cancelled session stays cancelled, and whoever asks for it, it is not found. */
  lemma CancelledForGood(g: Run, cancel: Op, h: Run, later: Op)
    requires cancel.Cancel? && Perform(After(g), cancel).Ok? && Extends(h, Then(g, cancel))
    requires (later.Access? || later.Confirm? || later.Cancel?) && later.id == cancel.id
    ensures cancel.id in After(h).sessions && After(h).sessions[cancel.id].status == CheckoutStatus.Cancelled
    ensures Perform(After(h), later) == Err(NotFound)
  {
    CancelDoes(After(g), cancel);
    SnapshotsAreFrozen(Then(g, cancel), h, cancel.id);
  }
}
