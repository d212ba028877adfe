/** The checkout service as an object over the stored carts and sessions. */
module CheckoutService {
  import opened Common
  import opened Cart
  import opened Checkout
  import opened CheckoutEffects
  import opened CheckoutTotals

  class Service {
    var carts: map<CartId, State>
    var sessions: map<CheckoutId, Session>

    constructor ()
      ensures Store() == EMPTY
    {
      carts, sessions := map[], map[];
    }

    function Store(): Shop
      reads this
    {
      Shop(carts, sessions)
    }

    /** Revalidates every item at today's price and stock; the first refusal wins. */
    method PrepareItems(items: map<ItemId, Item>, ids: seq<ItemId>, quotes: map<ItemId, Offer>)
      returns (lines: Result<seq<Line>>)
      requires forall id | id in ids :: id in items
      ensures lines == PrepareAll(items, ids, quotes)
    {
      var prepared: seq<Line> := [];
      for i := 0 to |ids|
        invariant PrepareAll(items, ids[..i], quotes) == Ok(prepared)
      {
        assert ids[..i + 1][..i] == ids[..i];
        var line := Prepare(items[ids[i]], ids[i], quotes);
        if line.Err? {
          PrepareStops(items, ids, quotes, i + 1);
          return Err(line.error);
        }
        prepared := prepared + [line.value];
      }
      assert ids[..|ids|] == ids;
      lines := Ok(prepared);
    }

    method Sum(lines: seq<Line>) returns (total: nat)
      ensures total == Subtotal(lines)
    {
      total := 0;
      for i := 0 to |lines|
        invariant total == Subtotal(lines[..i])
      {
        assert lines[..i + 1][..i] == lines[..i];
        total := total + lines[i].unitPrice * lines[i].quantity;
      }
      assert lines[..|lines|] == lines;
    }

    /** A customer opening a cart in a store. */
    method OpenCart(cart: CartId, user: UserId, store: StoreId, currencyIsKnown: bool, storeIsOpen: bool,
                    expiresAt: Option<Time>, now: Time)
      returns (result: Result<CartId>)
      modifies this
      ensures Store() == Step(old(Store()),
                              Op.OpenCart(cart, user, store, currencyIsKnown, storeIsOpen, expiresAt, now))
      ensures SameOutcome(result,
                          Perform(old(Store()),
                                  Op.OpenCart(cart, user, store, currencyIsKnown, storeIsOpen, expiresAt, now)))
      ensures result.Ok? ==> result.value == cart
    {
      if !currencyIsKnown { return Err(Invalid); }
      var deadline := ExpiryOr(expiresAt, now, CART_LIFETIME);
      if deadline <= now { return Err(Invalid); }
      if !storeIsOpen { return Err(NotFound); }
      if ActiveExists(Store(), user, store) { return Err(Conflict); }
      if cart in carts { return Err(Conflict); }
      carts := carts[cart := New(user, store, deadline)];
      result := Ok(cart);
    }

    method Begin(id: CheckoutId, cart: CartId, user: UserId, quotes: map<ItemId, Offer>, expiresAt: Option<Time>,
                 promotionsHold: bool, now: Time)
      returns (result: Result<CheckoutId>)
      modifies this
      ensures Store() == Step(old(Store()), Op.Begin(id, cart, user, quotes, expiresAt, promotionsHold, now))
      ensures SameOutcome(result,
                          Perform(old(Store()), Op.Begin(id, cart, user, quotes, expiresAt, promotionsHold, now)))
      ensures result.Ok? ==>
        && result.value == id && id in sessions && cart in carts
        && sessions[id].subtotal == Total(carts[cart].items, quotes, Present(carts[cart]))
    {
      BeginDoesIf(Store(), Op.Begin(id, cart, user, quotes, expiresAt, promotionsHold, now));
      if cart !in carts || !Visible(carts[cart].cart, user) { return Err(NotFound); }
      var s := carts[cart];
      if s.cart.status != Active || s.cart.expiresAt <= now { return Err(Conflict); }
      if ExistsForCart(Store(), cart) { return Err(Conflict); }
      if Live(s.items) == {} { return Err(Conflict); }
      ListedOnce(s.items, Live(s.items));
      var lines := PrepareItems(s.items, Listed(s.items, Live(s.items)), quotes);
      if lines.Err? { return Err(lines.error); }
      var subtotal := Sum(lines.value);
      var deadline := ExpiryOr(expiresAt, now, SESSION_LIFETIME);
      if deadline <= now { return Err(Invalid); }
      if id in sessions { return Err(Conflict); }
      var rollback := sessions;
      sessions := sessions[id := Session(cart, s.cart.user, Open, lines.value, subtotal, deadline, None, None, 1)];
      if !promotionsHold {
        sessions := rollback;
        return Err(Conflict);
      }
      result := Ok(id);
    }

    /** The session repository's version-checked change of an open session. */
    method Transition(id: CheckoutId, user: UserId, expectedVersion: nat, status: CheckoutStatus, now: Time)
      returns (moved: bool)
      modifies this`sessions
      ensures moved == (Owned(old(Store()), id, user)
                        && old(sessions)[id].version == expectedVersion && old(sessions)[id].status == Open)
      ensures sessions == if !moved then old(sessions) else old(sessions)[id :=
        old(sessions)[id].(status := status, version := old(sessions)[id].version + 1,
                           completedAt := if status == Confirmed then Some(now) else None)]
    {
      moved := Owned(Store(), id, user) && sessions[id].version == expectedVersion && sessions[id].status == Open;
      if moved {
        var x := sessions[id];
        x := x.(status := status, completedAt := if status == Confirmed then Some(now) else None);
        x := x.(version := x.version + 1);
        sessions := sessions[id := x];
      }
    }

    method Confirm(id: CheckoutId, user: UserId, expectedVersion: nat, now: Time, cartNow: Time)
      returns (result: Result<CheckoutId>)
      modifies this
      ensures Store() == Step(old(Store()), Op.Confirm(id, user, expectedVersion, now, cartNow))
      ensures SameOutcome(result, Perform(old(Store()), Op.Confirm(id, user, expectedVersion, now, cartNow)))
      ensures result.Ok? ==> result.value == id
    {
      if !Owned(Store(), id, user) { return Err(NotFound); }
      var x := sessions[id];
      if x.status != Open || x.expiresAt <= now { return Err(Conflict); }
      var rollback := sessions;
      var moved := Transition(id, user, expectedVersion, Confirmed, now);
      if !moved { return Err(Conflict); }
      if x.cart !in carts || !Visible(carts[x.cart].cart, user) {
        sessions := rollback;
        return Err(NotFound);
      }
      var s := carts[x.cart];
      var done := Execute(s, Request.CheckOut(user, s.cart.version), cartNow);
      if done.Err? {
        sessions := rollback;
        return Err(done.error);
      }
      carts := carts[x.cart := done.value];
      result := Ok(id);
    }

    method Cancel(id: CheckoutId, user: UserId, expectedVersion: nat, now: Time) returns (result: Result<()>)
      modifies this
      ensures Store() == Step(old(Store()), Op.Cancel(id, user, expectedVersion, now))
      ensures SameOutcome(result, Perform(old(Store()), Op.Cancel(id, user, expectedVersion, now)))
    {
      if !Owned(Store(), id, user) { return Err(NotFound); }
      var x := sessions[id];
      if x.status != Open || x.expiresAt <= now || x.version != expectedVersion { return Err(Conflict); }
      x := x.(status := Cancelled, deletedAt := Some(now));
      x := x.(version := x.version + 1);
      sessions := sessions[id := x];
      result := Ok(());
    }

    method Access(id: CheckoutId, user: UserId, now: Time) returns (result: Result<Session>)
      modifies this
      ensures Store() == Step(old(Store()), Op.Access(id, user, now))
      ensures result.Ok? ==>
        && id in sessions && result.value == sessions[id]
        && (result.value.status == Open ==> now < result.value.expiresAt)
      ensures result.Err? <==> !Owned(old(Store()), id, user)
      ensures result.Err? ==> result.error == NotFound
    {
      if !Owned(Store(), id, user) { return Err(NotFound); }
      if sessions[id].status == Open && sessions[id].expiresAt <= now {
        var moved := Transition(id, user, sessions[id].version, Lapsed, now);
      }
      result := Ok(sessions[id]);
    }
  }

  /** Once an item is refused, so is every longer list. */
  lemma {:induction false} PrepareStops(items: map<ItemId, Item>, ids: seq<ItemId>, quotes: map<ItemId, Offer>, k: nat)
    requires forall id | id in ids :: id in items
    requires k <= |ids| && PrepareAll(items, ids[..k], quotes).Err?
    ensures PrepareAll(items, ids, quotes) == Err(PrepareAll(items, ids[..k], quotes).error)
  {
    if k < |ids| {
      var shorter := ids[..|ids| - 1];
      assert shorter[..k] == ids[..k];
      PrepareStops(items, shorter, quotes, k);
    } else {
      assert ids[..k] == ids;
    }
  }
}
