/** Many clients working on one cart at once. Each call reads the cart row, later the items, and
    later still writes; other calls may commit in between. */
module CartInterleaving {
  import opened Common
  import opened Cart

  type ClientId = nat

  /** A call in flight, with what it has read so far. */
  datatype Call =
    | HasCart(cart: CartRow, request: Request)
    | HasAll(cart: CartRow, request: Request, items: map<ItemId, Item>, now: Time)

  datatype World = World(db: State, calls: map<ClientId, Call>, outbox: seq<Event>)

  datatype Op =
    | ReadCart(client: ClientId, request: Request)
    | ReadItems(client: ClientId, now: Time)
    | Commit(client: ClientId)
    | Abandon(client: ClientId)

  type Schedule = History<World, Op>

  /** What the call in flight comes to if it writes now. */
  function Attempt(w: World, call: Call): Result<State>
    requires call.HasAll?
  {
    var onCart := CheckCart(call.cart, call.request, call.now);
    if onCart.Err? then Err(onCart.error)
    else
      var onItems := CheckItems(call.items, call.request);
      if onItems.Err? then Err(onItems.error)
      else Write(w.db, call.cart.version, call.request, call.now)
  }

  predicate Commits(w: World, op: Op) {
    op.Commit? && op.client in w.calls && w.calls[op.client].HasAll? && Attempt(w, w.calls[op.client]).Ok?
  }

  function Step(w: World, op: Op): World {
    match op
    case ReadCart(client, request) =>
      if client in w.calls then w
      else w.(calls := w.calls[client := HasCart(w.db.cart, request)])
    case ReadItems(client, now) =>
      if client !in w.calls || !w.calls[client].HasCart? then w
      else
        var call := w.calls[client];
        w.(calls := w.calls[client := HasAll(call.cart, call.request, w.db.items, now)])
    case Commit(client) =>
      if !Commits(w, op) then w.(calls := w.calls - {client})
      else
        var db := Attempt(w, w.calls[client]).value;
        World(db, w.calls - {client}, w.outbox + EventsOf(w.calls[client].request, db.cart.version))
    case Abandon(client) => w.(calls := w.calls - {client})
  }

  function After(h: Schedule): World {
    match h
    case Start(w) => w
    case Then(past, op) => Step(After(past), op)
  }

  /** A quiet start: nobody is in the middle of a call. */
  function Quiet(db: State, outbox: seq<Event>): World {
    World(db, map[], outbox)
  }

  // ---------- What has been read is current or outdated, never wrong ----------

  predicate Sound(w: World, call: Call) {
    && call.cart.version <= w.db.cart.version
    && call.cart.user == w.db.cart.user && call.cart.expiresAt == w.db.cart.expiresAt
    && (call.cart.version == w.db.cart.version ==>
        call.cart == w.db.cart && (call.HasAll? ==> call.items == w.db.items))
  }

  ghost predicate AllSound(w: World) {
    forall client | client in w.calls :: Sound(w, w.calls[client])
  }

  lemma StepKeepsSound(w: World, op: Op)
    requires AllSound(w)
    ensures AllSound(Step(w, op))
  {
  }

  lemma {:induction false} AlwaysSound(h: Schedule, db: State, outbox: seq<Event>)
    requires StartsFrom(h, Quiet(db, outbox))
    ensures AllSound(After(h))
  {
    if h.Then? {
      AlwaysSound(h.past, db, outbox);
      StepKeepsSound(After(h.past), h.op);
    }
  }

  /** The call checks out a cart that was emptied after the call looked at its items. */
  predicate ChecksOutNothing(w: World, call: Call) {
    call.request.CheckOut? && Live(w.db.items) == {}
  }

  /** A call that commits does exactly what it would have done alone at that moment, unless it
      checks out a cart emptied meanwhile. */
  lemma CommitIsAtomicExactlyIf(w: World, client: ClientId)
    requires AllSound(w) && Commits(w, Commit(client))
    ensures var call, w' := w.calls[client], Step(w, Commit(client));
      && w'.outbox == w.outbox + EventsOf(call.request, w.db.cart.version + 1)
      && (!ChecksOutNothing(w, call) ==> Execute(w.db, call.request, call.now) == Ok(w'.db))
      && (ChecksOutNothing(w, call) ==> Execute(w.db, call.request, call.now) == Err(Conflict))
  {
    var call := w.calls[client];
    assert Sound(w, call);
    WriteAdvances(w.db, call.cart.version, call.request, call.now);
  }

  /** The call does not name a version beyond the one it read. */
  predicate NotAhead(call: Call) {
    NamedVersion(call.cart.version, call.request) <= call.cart.version
  }

  /** Such a call always is atomic. */
  lemma CommitIsAtomic(w: World, client: ClientId)
    requires AllSound(w) && Commits(w, Commit(client)) && NotAhead(w.calls[client])
    ensures var call := w.calls[client];
      && !ChecksOutNothing(w, call)
      && Execute(w.db, call.request, call.now) == Ok(Step(w, Commit(client)).db)
  {
    assert Sound(w, w.calls[client]);
    CommitIsAtomicExactlyIf(w, client);
  }

  // ---------- Serializability ----------

  datatype Done = Done(request: Request, now: Time)

  /** The calls that committed, in the order they did. */
  function CommitLog(h: Schedule): seq<Done> {
    match h
    case Start(_) => []
    case Then(past, op) =>
      if Commits(After(past), op) then
        var call := After(past).calls[op.client];
        CommitLog(past) + [Done(call.request, call.now)]
      else CommitLog(past)
  }

  /** The calls of the log run one after the other, each from reading to writing, all of them
      succeeding; with the events they write. */
  function Serial(s: State, outbox: seq<Event>, log: seq<Done>): Result<(State, seq<Event>)> {
    if log == [] then Ok((s, outbox))
    else
      var last := |log| - 1;
      var before := Serial(s, outbox, log[..last]);
      if before.Err? then before
      else
        var now := Execute(before.value.0, log[last].request, log[last].now);
        if now.Err? then Err(now.error)
        else Ok((now.value, before.value.1 + EventsOf(log[last].request, now.value.cart.version)))
  }

  lemma SerialAppend(s: State, outbox: seq<Event>, log: seq<Done>, next: Done)
    ensures Serial(s, outbox, log + [next]) ==
      var before := Serial(s, outbox, log);
      if before.Err? then before
      else
        var now := Execute(before.value.0, next.request, next.now);
        if now.Err? then Err(now.error)
        else Ok((now.value, before.value.1 + EventsOf(next.request, now.value.cart.version)))
  {
    assert (log + [next])[..|log|] == log;
  }

  /** No commit of the schedule checks out a cart emptied meanwhile. */
  ghost predicate NoEmptyCheckOut(h: Schedule) {
    h.Then? ==>
      && NoEmptyCheckOut(h.past)
      && (Commits(After(h.past), h.op) ==> !ChecksOutNothing(After(h.past), After(h.past).calls[h.op.client]))
  }

  /** Each commit takes the version up by one, so no two commits share a version. */
  lemma {:induction false} OneVersionPerCommit(h: Schedule, db: State, outbox: seq<Event>)
    requires StartsFrom(h, Quiet(db, outbox))
    ensures After(h).db.cart.version == db.cart.version + |CommitLog(h)|
  {
    if h.Then? {
      var w := After(h.past);
      OneVersionPerCommit(h.past, db, outbox);
      if Commits(w, h.op) {
        var call := w.calls[h.op.client];
        WriteAdvances(w.db, call.cart.version, call.request, call.now);
      }
    }
  }

  /** An interleaving ends where the serial run of its committed calls ends, and writes the same
      events, exactly if no commit checks out a cart emptied meanwhile; otherwise that serial run
      does not even succeed. */
  lemma {:induction false} SerializableExactlyIf(h: Schedule, db: State, outbox: seq<Event>)
    requires StartsFrom(h, Quiet(db, outbox))
    ensures NoEmptyCheckOut(h) ==> Serial(db, outbox, CommitLog(h)) == Ok((After(h).db, After(h).outbox))
    ensures !NoEmptyCheckOut(h) ==> Serial(db, outbox, CommitLog(h)).Err?
  {
    if h.Then? {
      var w := After(h.past);
      SerializableExactlyIf(h.past, db, outbox);
      if Commits(w, h.op) {
        AlwaysSound(h.past, db, outbox);
        CommitIsAtomicExactlyIf(w, h.op.client);
        var call := w.calls[h.op.client];
        SerialAppend(db, outbox, CommitLog(h.past), Done(call.request, call.now));
        WriteAdvances(w.db, call.cart.version, call.request, call.now);
      }
    }
  }

  /** No client names a version that the cart has not reached when its call begins. */
  ghost predicate NobodyGuesses(h: Schedule) {
    h.Then? ==>
      && NobodyGuesses(h.past)
      && (h.op.ReadCart? ==> var v := After(h.past).db.cart.version; NamedVersion(v, h.op.request) <= v)
  }

  lemma {:induction false} NobodyIsAhead(h: Schedule, db: State, outbox: seq<Event>)
    requires StartsFrom(h, Quiet(db, outbox)) && NobodyGuesses(h)
    ensures forall client | client in After(h).calls :: NotAhead(After(h).calls[client])
  {
    if h.Then? { NobodyIsAhead(h.past, db, outbox); }
  }

  /** If nobody guesses, every interleaving ends where the serial run of its committed calls ends,
      and writes the same events: no update is lost. */
  lemma {:induction false} Serializable(h: Schedule, db: State, outbox: seq<Event>)
    requires StartsFrom(h, Quiet(db, outbox)) && NobodyGuesses(h)
    ensures Serial(db, outbox, CommitLog(h)) == Ok((After(h).db, After(h).outbox))
    ensures NoEmptyCheckOut(h)
  {
    if h.Then? {
      Serializable(h.past, db, outbox);
      if Commits(After(h.past), h.op) {
        AlwaysSound(h.past, db, outbox);
        NobodyIsAhead(h.past, db, outbox);
        CommitIsAtomic(After(h.past), h.op.client);
      }
    }
    SerializableExactlyIf(h, db, outbox);
  }

  /** A call in flight that is not ahead commits exactly if the cart is still at the version it
      read and named, and the call would succeed alone now. */
  lemma CommitsExactlyIfUnchanged(h: Schedule, db: State, outbox: seq<Event>, client: ClientId)
    requires StartsFrom(h, Quiet(db, outbox))
    requires client in After(h).calls && After(h).calls[client].HasAll? && NotAhead(After(h).calls[client])
    ensures var w, call := After(h), After(h).calls[client];
      Commits(w, Commit(client)) <==>
        call.cart.version == w.db.cart.version && Execute(w.db, call.request, call.now).Ok?
  {
    AlwaysSound(h, db, outbox);
    assert Sound(After(h), After(h).calls[client]);
  }

  /** A call that is not ahead and whose cart has changed since it was read fails, and changes
      nothing. */
  lemma StaleCallsFail(h: Schedule, db: State, outbox: seq<Event>, client: ClientId)
    requires StartsFrom(h, Quiet(db, outbox))
    requires client in After(h).calls && After(h).calls[client].cart != After(h).db.cart
    requires NotAhead(After(h).calls[client])
    ensures !Commits(After(h), Commit(client))
    ensures After(Then(h, Commit(client))).db == After(h).db && After(Then(h, Commit(client))).outbox == After(h).outbox
  {
    AlwaysSound(h, db, outbox);
    assert Sound(After(h), After(h).calls[client]);
  }

  // ---------- An emptied cart checked out ----------

  /** A call that goes through all by itself does what Execute says. */
  lemma GoesThrough(h: Schedule, client: ClientId, request: Request, now: Time, start: World) returns (k: Schedule)
    requires client !in After(h).calls && Execute(After(h).db, request, now).Ok? && StartsFrom(h, start)
    ensures StartsFrom(k, start) && (NobodyGuesses(k) ==> NobodyGuesses(h))
    ensures After(k).db == Execute(After(h).db, request, now).value && After(k).calls == After(h).calls
  {
    var w := After(h);
    var read := Then(h, ReadCart(client, request));
    var looked := Then(read, ReadItems(client, now));
    k := Then(looked, Commit(client));
    assert StartsFrom(read, start) && StartsFrom(looked, start);
    assert NobodyGuesses(k) ==> NobodyGuesses(looked);
    assert NobodyGuesses(looked) ==> NobodyGuesses(read);
    assert After(read).db == w.db && After(read).calls == w.calls[client := HasCart(w.db.cart, request)];
    var call := HasAll(w.db.cart, request, w.db.items, now);
    assert After(looked).db == w.db && After(looked).calls[client] == call;
    assert After(looked).calls - {client} == w.calls;
    assert After(k) == Step(After(looked), Commit(client));
    assert Attempt(After(looked), call) == Execute(w.db, request, now);
  }

  /** A client who names the version the cart will have once its only item is gone, and looks at
      the items before, checks out the empty cart. */
  lemma EmptiedCartIsCheckedOut(user: UserId, store: StoreId, variant: VariantId, offer: Offer)
    returns (h: Schedule, start: World)
    requires offer.available >= 1
    ensures start == Quiet(New(user, store, 1), [Created(1)]) && StartsFrom(h, start)
    ensures After(h).db.cart.status == CheckedOut && Live(After(h).db.items) == {}
    ensures !NobodyGuesses(h) && Serial(start.db, start.outbox, CommitLog(h)).Err?
  {
    start := Quiet(New(user, store, 1), [Created(1)]);
    var add := AddItem(user, 7, variant, 1, 1, Some(offer), 0);
    var remove, checkOut := RemoveItem(user, 7, 1), CheckOut(user, 3);
    var filled := GoesThrough(Start(start), 0, add, 0, start);
    assert After(filled).db.cart.version == 2 && 7 in Live(After(filled).db.items);
    assert Live(After(filled).db.items) == {7} && After(filled).db.items[7].version == 1;
    var reading := Then(filled, ReadCart(1, checkOut));
    var looked := Then(reading, ReadItems(1, 0));
    assert StartsFrom(reading, start) && StartsFrom(looked, start);
    assert After(looked).db == After(filled).db;
    assert After(looked).calls == map[1 := HasAll(After(filled).db.cart, checkOut, After(filled).db.items, 0)];
    var emptied := GoesThrough(looked, 2, remove, 0, start);
    assert After(emptied).db.cart == After(filled).db.cart.(version := 3) && Live(After(emptied).db.items) == {};
    h := Then(emptied, Commit(1));
    var call := After(emptied).calls[1];
    assert Attempt(After(emptied), call).Ok? && ChecksOutNothing(After(emptied), call);
    SerializableExactlyIf(h, start.db, start.outbox);
    assert !NobodyGuesses(reading);
    assert !NobodyGuesses(looked);
  }
}
