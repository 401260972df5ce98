/** The shopping-list builder of src/components/Content.tsx (`getItemPurchases`): for every
    wish-list entry it fetches the item's listings, selects lots from them and folds them into
    per-world purchase records. The market-board request is a parameter `fetch`; `None` stands
    for a request that threw, which aborts the whole list with that item. The selector is a
    parameter of the list functions: the source's `optimalListings` (`Selection`) gives the list
    as written, `OptimalSelection` the list its doc comments promise. */
module Planner {
  import opened Types
  import opened Seqs
  import opened Optimizer
  import opened Aggregator

  /** The finished shopping list: every purchase record, the entries that cannot be bought,
      and the total cost in gil. */
  datatype Plan = Plan(purchases: seq<Purchase>, unavailable: seq<Item>, cost: nat)

  /** A way of choosing the lots to buy from an item's listings and the quantity wanted. */
  type Selector = (seq<Listing>, int) -> seq<Listing>

  /** The lots bought for one entry: the selector's choice from its listings, or nothing when
      the request for them failed. */
  function Selected(fetch: Item -> Option<seq<Listing>>, select: Selector, item: Item): seq<Listing>
  {
    match fetch(item)
    case None => []
    case Some(ls) => select(ls, item.quantity)
  }

  /** One entry's contribution: it joins the unavailable entries when nothing is selected,
      otherwise its records and their cost are added. */
  function Add(p: Plan, item: Item, chosen: seq<Listing>): Plan
  {
    if |chosen| == 0 then p.(unavailable := p.unavailable + [item])
    else Plan(p.purchases + Aggregate(item, chosen), p.unavailable, p.cost + Spend(chosen))
  }

  /** One turn of the loop over the entries: a failed list stays failed, and a failed request
      fails it with the entry. */
  function Extend(r: Result<Plan, Item>, item: Item, fetch: Item -> Option<seq<Listing>>, select: Selector): Result<Plan, Item>
  {
    match r
    case Failure(_) => r
    case Success(p) => if fetch(item).None? then Failure(item) else Success(Add(p, item, Selected(fetch, select, item)))
  }

  /** The list built from the entries in order; the first entry whose request fails ends it. */
  function PlanOf(items: seq<Item>, fetch: Item -> Option<seq<Listing>>, select: Selector): Result<Plan, Item>
    decreases |items|
  {
    if |items| == 0 then Success(Plan([], [], 0))
    else Extend(PlanOf(items[..|items| - 1], fetch, select), items[|items| - 1], fetch, select)
  }

  /** `getItemPurchases` as written: one request per entry, in order, each answer passed through
      `optimalListings` and `addPurchases`, accumulating the records, the unavailable entries
      and the cost. */
  method GetItemPurchases(items: seq<Item>, fetch: Item -> Option<seq<Listing>>) returns (r: Result<Plan, Item>)
    ensures r == PlanOf(items, fetch, Selection)
  {
    var allPurchases: seq<Purchase> := [];
    var unavailableItems: seq<Item> := [];
    var cost: nat := 0;
    for i := 0 to |items|
      invariant PlanOf(items[..i], fetch, Selection) == Success(Plan(allPurchases, unavailableItems, cost))
    {
      var item := items[i];
      ghost var before := Plan(allPurchases, unavailableItems, cost);
      var response := fetch(item);
      if response.None? {
        PlanStep(items, fetch, Selection, i);
        FailureSticks(items, fetch, Selection, i + 1);
        return Failure(item);
      }
      var optimized := OptimalListings(response.value, item.quantity);
      var info := AddPurchases(item, optimized);
      if info.Some? {
        allPurchases := allPurchases + info.value.purchases;
        cost := cost + info.value.cost;
      } else {
        unavailableItems := unavailableItems + [item];
      }
      assert Plan(allPurchases, unavailableItems, cost) == Add(before, item, optimized);
      PlanStep(items, fetch, Selection, i);
    }
    assert items[..|items|] == items;
    r := Success(Plan(allPurchases, unavailableItems, cost));
  }

  /** One more entry extends the list built from the entries before it. */
  lemma PlanStep(items: seq<Item>, fetch: Item -> Option<seq<Listing>>, select: Selector, i: nat)
    requires i < |items|
    ensures PlanOf(items[..i + 1], fetch, select) == Extend(PlanOf(items[..i], fetch, select), items[i], fetch, select)
  {
    assert items[..i + 1][..i] == items[..i];
  }

  /** Once a prefix of the entries fails, so does every longer prefix, with the same entry. */
  lemma {:induction false} FailureSticks(items: seq<Item>, fetch: Item -> Option<seq<Listing>>, select: Selector, n: nat)
    requires n <= |items| && PlanOf(items[..n], fetch, select).Failure?
    ensures PlanOf(items, fetch, select) == PlanOf(items[..n], fetch, select)
    decreases |items| - n
  {
    if n < |items| {
      assert items[..n + 1][..n] == items[..n];
      FailureSticks(items, fetch, select, n + 1);
    } else {
      assert items[..n] == items;
    }
  }

  /** A turn fails exactly when the list had failed or this entry's request fails, and a
      failed list keeps its entry. */
  lemma ExtendFails(r: Result<Plan, Item>, item: Item, fetch: Item -> Option<seq<Listing>>, select: Selector)
    ensures Extend(r, item, fetch, select).Failure? <==> r.Failure? || fetch(item).None?
    ensures r.Failure? ==> Extend(r, item, fetch, select) == r
    ensures r.Success? && fetch(item).None? ==> Extend(r, item, fetch, select) == Failure(item)
  {
  }

  /** A turn that does not fail continues a list that had not failed, with a request that
      succeeded. */
  lemma ExtendSucceeds(r: Result<Plan, Item>, item: Item, fetch: Item -> Option<seq<Listing>>, select: Selector)
    requires Extend(r, item, fetch, select).Success?
    ensures r.Success? && fetch(item).Some?
  {
  }

  /** A list that does not fail had every request succeed. */
  lemma {:induction false} SuccessMeansFetched(items: seq<Item>, fetch: Item -> Option<seq<Listing>>, select: Selector)
    requires PlanOf(items, fetch, select).Success?
    ensures forall i :: 0 <= i < |items| ==> fetch(items[i]).Some?
  {
    forall i | 0 <= i < |items| ensures fetch(items[i]).Some? {
      FetchedAt(items, fetch, select, i);
    }
  }

  /** The same for one entry, by induction on the length of the list. */
  lemma {:induction false} FetchedAt(items: seq<Item>, fetch: Item -> Option<seq<Listing>>, select: Selector, i: nat)
    requires PlanOf(items, fetch, select).Success? && i < |items|
    ensures fetch(items[i]).Some?
    decreases |items|
  {
    var n := |items| - 1;
    var init := items[..n];
    PlanUnfold(items, fetch, select);
    ExtendSucceeds(PlanOf(init, fetch, select), items[n], fetch, select);
    if i == n {
      assert fetch(items[n]).Some?;
    } else {
      FetchedAt(init, fetch, select, i);
      assert items[i] == init[i];
    }
  }

  /** The list of a non-empty wish list is its last turn. */
  lemma PlanUnfold(items: seq<Item>, fetch: Item -> Option<seq<Listing>>, select: Selector)
    requires |items| > 0
    ensures PlanOf(items, fetch, select) == Extend(PlanOf(items[..|items| - 1], fetch, select), items[|items| - 1], fetch, select)
  {
  }

  /** The list fails exactly when some request fails. */
  lemma PlanFails(items: seq<Item>, fetch: Item -> Option<seq<Listing>>, select: Selector)
    ensures PlanOf(items, fetch, select).Failure? <==> exists i :: 0 <= i < |items| && fetch(items[i]).None?
  {
    if PlanOf(items, fetch, select).Failure? {
      PlanFailsFirst(items, fetch, select);
    } else {
      SuccessMeansFetched(items, fetch, select);
    }
  }

  /** A failed list names the first entry whose request failed. */
  lemma {:induction false} PlanFailsFirst(items: seq<Item>, fetch: Item -> Option<seq<Listing>>, select: Selector)
    requires PlanOf(items, fetch, select).Failure?
    ensures exists j ::
              0 <= j < |items| && items[j] == PlanOf(items, fetch, select).error
              && fetch(items[j]).None? && (forall i :: 0 <= i < j ==> fetch(items[i]).Some?)
    decreases |items|
  {
    var init := items[..|items| - 1];
    ExtendFails(PlanOf(init, fetch, select), items[|items| - 1], fetch, select);
    if PlanOf(init, fetch, select).Failure? {
      PlanFailsFirst(init, fetch, select);
      var j :| 0 <= j < |init| && init[j] == PlanOf(init, fetch, select).error
        && fetch(init[j]).None? && forall i :: 0 <= i < j ==> fetch(init[i]).Some?;
      assert items[j] == init[j];
      assert forall i :: 0 <= i < j ==> items[i] == init[i];
    } else {
      SuccessMeansFetched(init, fetch, select);
      assert forall i :: 0 <= i < |init| ==> items[i] == init[i];
    }
  }

  /** Unavailable entries: the ones whose selection is empty. */
  predicate Unavailable(fetch: Item -> Option<seq<Listing>>, select: Selector, item: Item)
  {
    |Selected(fetch, select, item)| == 0
  }

  /** With every request succeeding, the list does not fail. */
  lemma {:induction false} PlanSucceeds(items: seq<Item>, fetch: Item -> Option<seq<Listing>>, select: Selector)
    requires forall i :: 0 <= i < |items| ==> fetch(items[i]).Some?
    ensures PlanOf(items, fetch, select).Success?
  {
    if PlanOf(items, fetch, select).Failure? {
      PlanFailsFirst(items, fetch, select);
    }
  }

  /** With every request succeeding, the unavailable entries are those with nothing selected,
      in their wish-list order. */
  lemma {:induction false} PlanUnavailable(items: seq<Item>, fetch: Item -> Option<seq<Listing>>, select: Selector)
    requires forall i :: 0 <= i < |items| ==> fetch(items[i]).Some?
    ensures PlanOf(items, fetch, select).Success?
    ensures PlanOf(items, fetch, select).value.unavailable == Filter(items, item => Unavailable(fetch, select, item))
    decreases |items|
  {
    PlanSucceeds(items, fetch, select);
    if |items| > 0 {
      var init := items[..|items| - 1];
      assert forall i :: 0 <= i < |init| ==> init[i] == items[i];
      PlanUnavailable(init, fetch, select);
    }
  }

  /** With every request succeeding, the records are each entry's own records, entry after entry. */
  lemma {:induction false} PlanPurchases(items: seq<Item>, fetch: Item -> Option<seq<Listing>>, select: Selector)
    requires forall i :: 0 <= i < |items| ==> fetch(items[i]).Some?
    ensures PlanOf(items, fetch, select).Success?
    ensures PlanOf(items, fetch, select).value.purchases
      == Flatten(Map(items, item => Aggregate(item, Selected(fetch, select, item))))
    decreases |items|
  {
    PlanSucceeds(items, fetch, select);
    if |items| > 0 {
      var init, item := items[..|items| - 1], items[|items| - 1];
      assert forall i :: 0 <= i < |init| ==> init[i] == items[i];
      PlanPurchases(init, fetch, select);
      var recs := Map(init, item => Aggregate(item, Selected(fetch, select, item)));
      FlattenAppend(recs, Aggregate(item, Selected(fetch, select, item)));
      AggregateRecords(item, Selected(fetch, select, item));
    }
  }

  /** With every request succeeding, the cost is the sum of what each entry's selection costs. */
  lemma {:induction false} PlanCost(items: seq<Item>, fetch: Item -> Option<seq<Listing>>, select: Selector)
    requires forall i :: 0 <= i < |items| ==> fetch(items[i]).Some?
    ensures PlanOf(items, fetch, select).Success?
    ensures PlanOf(items, fetch, select).value.cost == Sum(Map(items, item => Spend(Selected(fetch, select, item))))
    decreases |items|
  {
    PlanSucceeds(items, fetch, select);
    if |items| > 0 {
      var init, item := items[..|items| - 1], items[|items| - 1];
      assert forall i :: 0 <= i < |init| ==> init[i] == items[i];
      PlanCost(init, fetch, select);
      var costs := Map(init, item => Spend(Selected(fetch, select, item)));
      assert (costs + [Spend(Selected(fetch, select, item))])[..|init|] == costs;
    }
  }

  /** With the corrected selector, an entry is unavailable exactly when its requested quantity
      is not positive or exceeds the units on offer; never both unavailable and bought. */
  lemma UnavailableMeans(fetch: Item -> Option<seq<Listing>>, item: Item)
    requires fetch(item).Some?
    ensures Unavailable(fetch, OptimalSelection, item) <==> !(1 <= item.quantity <= Units(fetch(item).value))
    ensures Unavailable(fetch, OptimalSelection, item) <==> |Aggregate(item, Selected(fetch, OptimalSelection, item))| == 0
  {
    AggregateRecords(item, Selected(fetch, OptimalSelection, item));
  }

  /** With the corrected selector, what an available entry gets: records for that item only,
      buying at least the requested quantity in all, at the least cost of any choice of its
      listings that covers it. */
  lemma AvailableIsCovered(fetch: Item -> Option<seq<Listing>>, item: Item, m: seq<bool>)
    requires fetch(item).Some? && !Unavailable(fetch, OptimalSelection, item)
    requires |m| == |fetch(item).value| && Units(Picked(fetch(item).value, m)) >= item.quantity
    ensures forall p :: p in Aggregate(item, Selected(fetch, OptimalSelection, item)) ==> p.itemID == item.id
    ensures Bought(Aggregate(item, Selected(fetch, OptimalSelection, item))) >= item.quantity
    ensures Spend(Selected(fetch, OptimalSelection, item)) <= Spend(Picked(fetch(item).value, m))
  {
    var ls := fetch(item).value;
    AggregateRecords(item, Selected(fetch, OptimalSelection, item));
    AggregateConservesUnits(item, Selected(fetch, OptimalSelection, item));
    OptimalSelectionIsCheapest(ls, item.quantity, m);
  }

  /** A list of one entry whose request succeeds: the entry is unavailable when nothing is
      selected, and otherwise the list holds its records and what its lots cost. */
  lemma PlanOfOne(item: Item, fetch: Item -> Option<seq<Listing>>, select: Selector)
    requires fetch(item).Some?
    ensures Selected(fetch, select, item) == [] ==> PlanOf([item], fetch, select) == Success(Plan([], [item], 0))
    ensures Selected(fetch, select, item) != [] ==>
              PlanOf([item], fetch, select)
              == Success(Plan(Aggregate(item, Selected(fetch, select, item)), [], Spend(Selected(fetch, select, item))))
  {
    assert [item][..0] == [];
    assert PlanOf([], fetch, select) == Success(Plan([], [], 0));
    var chosen := Selected(fetch, select, item);
    assert [] + Aggregate(item, chosen) == Aggregate(item, chosen);
    assert [] + [item] == [item];
  }

  /** As written, an entry whose need the listings cover can be reported unavailable: with the
      four listings of `WalkFindsNothing` and 7 wanted out of 8 listed, the source's list has
      no record and names the entry unavailable, where the corrected list buys it. */
  lemma AsWrittenDropsAvailable()
    ensures var ls := [Listing(1, 1, 73), Listing(2, 2, 73), Listing(2, 2, 73), Listing(2, 3, 73)];
      var item := Item(5333, 7, None);
      var fetch := (it: Item) => Some(ls);
      1 <= item.quantity <= Units(ls)
      && PlanOf([item], fetch, Selection) == Success(Plan([], [item], 0))
      && PlanOf([item], fetch, OptimalSelection).Success?
      && PlanOf([item], fetch, OptimalSelection).value.unavailable == []
  {
    var ls := [Listing(1, 1, 73), Listing(2, 2, 73), Listing(2, 2, 73), Listing(2, 3, 73)];
    WalkFindsNothing();
    DroppedWhenNothingSelected(Item(5333, 7, None), (it: Item) => Some(ls));
  }

  /** An entry the listings cover but the source's selector picks nothing for is reported
      unavailable as written, and bought by the corrected list. */
  lemma DroppedWhenNothingSelected(item: Item, fetch: Item -> Option<seq<Listing>>)
    requires fetch(item).Some? && 1 <= item.quantity <= Units(fetch(item).value)
    requires Selection(fetch(item).value, item.quantity) == []
    ensures PlanOf([item], fetch, Selection) == Success(Plan([], [item], 0))
    ensures PlanOf([item], fetch, OptimalSelection).Success?
    ensures PlanOf([item], fetch, OptimalSelection).value.unavailable == []
  {
    PlanOfOne(item, fetch, Selection);
    PlanOfOne(item, fetch, OptimalSelection);
    UnavailableMeans(fetch, item);
  }

  /** As written, one listing can be bought twice: with the two listings of
      `WalkRepeatsListing` and 2 wanted, the source's list has a record for 2 units on world
      74, where only 1 unit is listed, and it charges for both. */
  lemma AsWrittenBuysTwice()
    ensures var a, b := Listing(1, 1, 73), Listing(1, 1, 74);
      var item := Item(5333, 2, None);
      var fetch := (it: Item) => Some([a, b]);
      PlanOf([item], fetch, Selection) == Success(Plan([Purchase(5333, None, 74, 2, 1, 1, true, None)], [], 2))
      && Units(OnWorld([a, b], 74)) == 1
  {
    var a, b := Listing(1, 1, 73), Listing(1, 1, 74);
    WalkRepeatsListing();
    TwiceRecords(Item(5333, 2, None), b);
    PlanOfOne(Item(5333, 2, None), (it: Item) => Some([a, b]), Selection);
    assert [a, b][..1] == [a] && [a][..0] == [];
    assert OnWorld([], 74) == [] && OnWorld([a], 74) == [];
    assert [] + [b] == [b];
    assert OnWorld([a, b], 74) == [b];
    assert [b][1..] == [];
  }

  /** Folding the same listing twice gives one record for twice its quantity, and charges
      for it twice. */
  lemma TwiceRecords(item: Item, l: Listing)
    ensures Aggregate(item, [l, l]) == [NewPurchase(item, l).(quantityToBuy := 2 * l.quantity)]
    ensures Spend([l, l]) == 2 * Price(l)
  {
    assert [l, l][..1] == [l] && [l][..0] == [];
    assert [l, l][1..] == [l] && [l][1..] == [];
    var p := NewPurchase(item, l);
    assert [] + [p] == [p];
    assert Aggregate(item, [l]) == Merge([], item, l) == [p];
    assert FindWorld([p], l.worldID) == 0;
    var q := p.(quantityToBuy := 2 * l.quantity);
    assert [p][0 := q] == [q];
    assert Merge([p], item, l) == [q];
    assert Spend([l]) == Price(l);
  }
}
