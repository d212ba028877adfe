/** What a subtotal is: the cost of the items as a set, whatever order they are added up in. */
module CheckoutTotals {
  import opened Common
  import opened Cart
  import opened Checkout

  /** Quoted price times quantity in the cart. */
  function Cost(items: map<ItemId, Item>, quotes: map<ItemId, Offer>, id: ItemId): nat {
    if id in items && id in quotes then quotes[id].price * items[id].quantity else 0
  }

  /** The items taken in any order. */
  ghost function Total(items: map<ItemId, Item>, quotes: map<ItemId, Offer>, ids: set<ItemId>): nat {
    if ids == {} then 0
    else
      var id :| id in ids;
      Cost(items, quotes, id) + Total(items, quotes, ids - {id})
  }

  lemma {:induction false} TotalTakesAnyFirst(items: map<ItemId, Item>, quotes: map<ItemId, Offer>,
                                              ids: set<ItemId>, id: ItemId)
    requires id in ids
    ensures Total(items, quotes, ids) == Cost(items, quotes, id) + Total(items, quotes, ids - {id})
    decreases ids
  {
    var first :| first in ids
      && Total(items, quotes, ids) == Cost(items, quotes, first) + Total(items, quotes, ids - {first});
    if first != id {
      TotalTakesAnyFirst(items, quotes, ids - {first}, id);
      TotalTakesAnyFirst(items, quotes, ids - {id}, first);
      assert ids - {first} - {id} == ids - {id} - {first};
    }
  }

  lemma SubtotalOfOne(line: Line)
    ensures Subtotal([line]) == line.unitPrice * line.quantity
  {
    assert [line][..0] == [];
  }

  lemma {:induction false} SubtotalOfBoth(a: seq<Line>, b: seq<Line>)
    ensures Subtotal(a + b) == Subtotal(a) + Subtotal(b)
  {
    if b == [] {
      assert a + b == a;
    } else {
      var last := |b| - 1;
      SubtotalOfBoth(a, b[..last]);
      assert (a + b)[..|a| + last] == a + b[..last];
      assert (a + b)[|a| + last] == b[last];
    }
  }

  function LineCost(line: Line): nat {
    line.unitPrice * line.quantity
  }

  ghost predicate Distinct(ids: seq<ItemId>) {
    forall i, j | 0 <= i < j < |ids| :: ids[i] != ids[j]
  }

  ghost function Members(ids: seq<ItemId>): set<ItemId> {
    set id | id in ids
  }

  lemma LastOut(ids: seq<ItemId>)
    requires ids != [] && Distinct(ids)
    ensures var last := |ids| - 1;
      ids[last] in Members(ids) && Members(ids) - {ids[last]} == Members(ids[..last])
  {
    var last := |ids| - 1;
    forall x ensures x in ids && x != ids[last] <==> x in ids[..last] {
      if x in ids && x != ids[last] {
        var i :| 0 <= i < |ids| && ids[i] == x;
        assert ids[..last][i] == x;
      }
    }
  }

  lemma SubtotalOfLast(lines: seq<Line>)
    requires lines != []
    ensures Subtotal(lines) == Subtotal(lines[..|lines| - 1]) + LineCost(lines[|lines| - 1])
  {
  }

  /** Lines that cost what distinct items do add up to the total of those items. */
  lemma {:induction false} SubtotalIsTheTotal(items: map<ItemId, Item>, quotes: map<ItemId, Offer>,
                                              ids: seq<ItemId>, lines: seq<Line>)
    requires |lines| == |ids| && Distinct(ids)
    requires forall i | 0 <= i < |ids| :: LineCost(lines[i]) == Cost(items, quotes, ids[i])
    ensures Subtotal(lines) == Total(items, quotes, Members(ids))
  {
    if ids == [] {
      assert Members(ids) == {};
    } else {
      var last := |ids| - 1;
      SubtotalIsTheTotal(items, quotes, ids[..last], lines[..last]);
      SubtotalOfLast(lines);
      LastOut(ids);
      TotalTakesAnyFirst(items, quotes, Members(ids), ids[last]);
    }
  }

  /** The items that are in the cart and not removed. */
  function Present(s: State): set<ItemId> {
    set id | id in s.items && s.items[id].deletedAt == None
  }

  lemma SameProduct(line: Line, items: map<ItemId, Item>, quotes: map<ItemId, Offer>, id: ItemId)
    requires id in items && id in quotes
    requires line.unitPrice == quotes[id].price && line.quantity == items[id].quantity
    ensures LineCost(line) == Cost(items, quotes, id)
  {
  }

  lemma FrozenCosts(lines: seq<Line>, s: State, quotes: map<ItemId, Offer>, i: nat)
    requires Freezes(lines, s, quotes) && i < |lines|
    ensures i < |Listed(s.items, Live(s.items))|
    ensures LineCost(lines[i]) == Cost(s.items, quotes, Listed(s.items, Live(s.items))[i])
  {
    SameProduct(lines[i], s.items, quotes, Listed(s.items, Live(s.items))[i]);
  }

  lemma ListedArePresent(s: State)
    ensures var ids := Listed(s.items, Live(s.items)); Distinct(ids) && Members(ids) == Present(s)
  {
    var ids := Listed(s.items, Live(s.items));
    ListedOnce(s.items, Live(s.items));
    forall i, j | 0 <= i < j < |ids| ensures ids[i] != ids[j] {
      assert Before(s.items, ids[i], ids[j]);
    }
  }

  lemma FrozenLength(lines: seq<Line>, s: State, quotes: map<ItemId, Offer>)
    requires Freezes(lines, s, quotes)
    ensures |lines| == |Listed(s.items, Live(s.items))|
  {
  }

  /** Frozen lines add up to the cost of what is in the cart. */
  lemma FrozenTotal(lines: seq<Line>, s: State, quotes: map<ItemId, Offer>)
    requires Freezes(lines, s, quotes)
    ensures Subtotal(lines) == Total(s.items, quotes, Present(s))
  {
    forall i | 0 <= i < |lines|
      ensures i < |Listed(s.items, Live(s.items))|
      ensures LineCost(lines[i]) == Cost(s.items, quotes, Listed(s.items, Live(s.items))[i])
    {
      FrozenCosts(lines, s, quotes, i);
    }
    FrozenLength(lines, s, quotes);
    ListedArePresent(s);
    SubtotalIsTheTotal(s.items, quotes, Listed(s.items, Live(s.items)), lines);
  }
}
