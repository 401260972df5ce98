/** The purchase aggregator of src/components/Content.tsx (`addPurchases`): it folds one item's
    selected listings into one purchase record per world and adds up what they cost. */
module Aggregator {
  import opened Types
  import opened Optimizer

  /** What `addPurchases` returns when there is something to buy. */
  datatype ItemPurchases = ItemPurchases(purchases: seq<Purchase>, cost: nat)

  /** `purchases.find(p => p.worldID === w)`, as an index: the first record on world `w`, or -1. */
  function FindWorld(ps: seq<Purchase>, w: int): (k: int)
    ensures -1 <= k < |ps|
    ensures k == -1 <==> forall j :: 0 <= j < |ps| ==> ps[j].worldID != w
    ensures k >= 0 ==> ps[k].worldID == w && forall j :: 0 <= j < k ==> ps[j].worldID != w
    decreases |ps|
  {
    if |ps| == 0 then -1
    else
      var k := FindWorld(ps[..|ps| - 1], w);
      if k >= 0 then k else if ps[|ps| - 1].worldID == w then |ps| - 1 else -1
  }

  /** The record a listing on a world not seen yet starts. */
  function NewPurchase(item: Item, l: Listing): Purchase
  {
    Purchase(item.id, item.name, l.worldID, l.quantity, l.pricePerUnit, l.pricePerUnit, true, None)
  }

  /** One step of the loop: add to the record of the listing's world (its quantity grows and
      `priceMax` is overwritten with this price), or append a new record. */
  function Merge(ps: seq<Purchase>, item: Item, l: Listing): seq<Purchase>
  {
    var k := FindWorld(ps, l.worldID);
    if k < 0 then ps + [NewPurchase(item, l)]
    else ps[k := ps[k].(quantityToBuy := ps[k].quantityToBuy + l.quantity, priceMax := l.pricePerUnit)]
  }

  /** The records after folding the listings in order. */
  function Aggregate(item: Item, ls: seq<Listing>): seq<Purchase>
    decreases |ls|
  {
    if |ls| == 0 then [] else Merge(Aggregate(item, ls[..|ls| - 1]), item, ls[|ls| - 1])
  }

  /** `addPurchases`: `None` (the source's `null`) exactly for no listings; otherwise the merged
      records and the cost of every listing passed in, however many worlds they merge into. */
  method AddPurchases(item: Item, listings: seq<Listing>) returns (r: Option<ItemPurchases>)
    ensures r.None? <==> |listings| == 0
    ensures r.Some? ==> r.value.purchases == Aggregate(item, listings)
    ensures r.Some? ==> r.value.cost == Spend(listings)
  {
    var cost := 0;
    if |listings| < 1 {
      return None;
    }
    var purchases: seq<Purchase> := [];
    assert listings[..0] == [];
    for i := 0 to |listings|
      invariant purchases == Aggregate(item, listings[..i])
      invariant cost == Spend(listings[..i])
    {
      var listing := listings[i];
      ghost var before := purchases;
      AddStep(item, listings, i);
      var found := FindWorld(purchases, listing.worldID);
      if found >= 0 {
        purchases := purchases[found := purchases[found].(
          quantityToBuy := purchases[found].quantityToBuy + listing.quantity,
          priceMax := listing.pricePerUnit)];
      } else {
        purchases := purchases + [Purchase(item.id, item.name, listing.worldID, listing.quantity,
                                           listing.pricePerUnit, listing.pricePerUnit, true, None)];
      }
      cost := cost + listing.quantity * listing.pricePerUnit;
      assert purchases == Merge(before, item, listing);
    }
    assert listings[..|listings|] == listings;
    return Some(ItemPurchases(purchases, cost));
  }

  /** One more listing is one more merge and adds its price to the cost. */
  lemma AddStep(item: Item, ls: seq<Listing>, i: nat)
    requires i < |ls|
    ensures Aggregate(item, ls[..i + 1]) == Merge(Aggregate(item, ls[..i]), item, ls[i])
    ensures Spend(ls[..i + 1]) == Spend(ls[..i]) + ls[i].quantity * ls[i].pricePerUnit
  {
    assert ls[..i + 1] == ls[..i] + [ls[i]];
    assert ls[..i + 1][..i] == ls[..i];
    SpendAppend(ls[..i], [ls[i]]);
  }

  // ---------------------------------------------------------------------------
  // What the records say about the listings

  /** Index of the first listing on world `w`, or `|ls|` when there is none. */
  function FirstOn(ls: seq<Listing>, w: int): (j: nat)
    ensures j <= |ls|
    ensures j == |ls| <==> forall i :: 0 <= i < |ls| ==> ls[i].worldID != w
    ensures j < |ls| ==> ls[j].worldID == w && forall i :: 0 <= i < j ==> ls[i].worldID != w
    decreases |ls|
  {
    if |ls| == 0 then 0
    else
      var j := FirstOn(ls[..|ls| - 1], w);
      if j < |ls| - 1 then j else if ls[|ls| - 1].worldID == w then |ls| - 1 else |ls|
  }

  /** Index of the last listing on world `w`, or -1 when there is none. */
  function LastOn(ls: seq<Listing>, w: int): (j: int)
    ensures -1 <= j < |ls|
    ensures j == -1 <==> forall i :: 0 <= i < |ls| ==> ls[i].worldID != w
    ensures j >= 0 ==> ls[j].worldID == w && forall i :: j < i < |ls| ==> ls[i].worldID != w
    decreases |ls|
  {
    if |ls| == 0 then -1
    else if ls[|ls| - 1].worldID == w then |ls| - 1
    else LastOn(ls[..|ls| - 1], w)
  }

  /** The listings on world `w`, in order. */
  function OnWorld(ls: seq<Listing>, w: int): seq<Listing>
    decreases |ls|
  {
    if |ls| == 0 then []
    else
      var init := OnWorld(ls[..|ls| - 1], w);
      if ls[|ls| - 1].worldID == w then init + [ls[|ls| - 1]] else init
  }

  /** Every record is for this item, active, without a status, and no two share a world. */
  lemma {:induction false} AggregateRecords(item: Item, ls: seq<Listing>)
    ensures |Aggregate(item, ls)| == 0 <==> |ls| == 0
    ensures forall p :: p in Aggregate(item, ls) ==>
      p.itemID == item.id && p.name == item.name && p.active && p.status == None
    ensures forall k1, k2 :: 0 <= k1 < k2 < |Aggregate(item, ls)| ==>
      Aggregate(item, ls)[k1].worldID != Aggregate(item, ls)[k2].worldID
    decreases |ls|
  {
    if |ls| > 0 {
      var ps0 := Aggregate(item, ls[..|ls| - 1]);
      AggregateRecords(item, ls[..|ls| - 1]);
      MergeKeepsRecords(ps0, item, ls[|ls| - 1]);
    }
  }

  /** The records are all for `item`, active, without status, on pairwise different worlds. */
  predicate Records(item: Item, ps: seq<Purchase>)
  {
    (forall p :: p in ps ==> p.itemID == item.id && p.name == item.name && p.active && p.status == None)
    && forall k1, k2 :: 0 <= k1 < k2 < |ps| ==> ps[k1].worldID != ps[k2].worldID
  }

  /** A merge keeps the records well formed and leaves at least one. */
  lemma MergeKeepsRecords(ps: seq<Purchase>, item: Item, l: Listing)
    requires Records(item, ps)
    ensures Records(item, Merge(ps, item, l)) && |Merge(ps, item, l)| > 0
  {
    var k := FindWorld(ps, l.worldID);
    var ps' := Merge(ps, item, l);
    if k < 0 {
      assert ps' == ps + [NewPurchase(item, l)];
      forall k1, k2 | 0 <= k1 < k2 < |ps'| ensures ps'[k1].worldID != ps'[k2].worldID {
        if k2 == |ps| {
          assert ps'[k1] == ps[k1];
        }
      }
    } else {
      forall p | p in ps' ensures p.itemID == item.id && p.name == item.name && p.active && p.status == None {
        var j :| 0 <= j < |ps'| && ps'[j] == p;
        assert ps[j] in ps;
      }
    }
  }

  /** A merge keeps the worlds of the existing records, in place, and adds the listing's
      world at the end exactly when no record has it yet. */
  lemma MergeWorlds(ps: seq<Purchase>, item: Item, l: Listing)
    ensures FindWorld(ps, l.worldID) >= 0 ==> |Merge(ps, item, l)| == |ps|
    ensures FindWorld(ps, l.worldID) < 0 ==>
      |Merge(ps, item, l)| == |ps| + 1 && Merge(ps, item, l)[|ps|].worldID == l.worldID
    ensures forall k :: 0 <= k < |ps| ==> Merge(ps, item, l)[k].worldID == ps[k].worldID
  {
  }

  /** Every record is for a world some listing is on. */
  lemma {:induction false} AggregateWorldsListed(item: Item, ls: seq<Listing>)
    ensures forall k :: 0 <= k < |Aggregate(item, ls)| ==> FirstOn(ls, Aggregate(item, ls)[k].worldID) < |ls|
    decreases |ls|
  {
    if |ls| > 0 {
      var init, l := ls[..|ls| - 1], ls[|ls| - 1];
      AggregateWorldsListed(item, init);
      var ps0, ps := Aggregate(item, init), Aggregate(item, ls);
      MergeWorlds(ps0, item, l);
      forall k | 0 <= k < |ps|
        ensures FirstOn(ls, ps[k].worldID) < |ls|
      {
        if k < |ps0| {
          assert FirstOn(init, ps0[k].worldID) < |init|;
        }
      }
    }
  }

  /** Every listing's world has a record. */
  lemma {:induction false} AggregateCoversListings(item: Item, ls: seq<Listing>)
    ensures forall j :: 0 <= j < |ls| ==> FindWorld(Aggregate(item, ls), ls[j].worldID) >= 0
    decreases |ls|
  {
    if |ls| > 0 {
      var init, l := ls[..|ls| - 1], ls[|ls| - 1];
      AggregateCoversListings(item, init);
      var ps0, ps := Aggregate(item, init), Aggregate(item, ls);
      MergeWorlds(ps0, item, l);
      forall j | 0 <= j < |ls|
        ensures FindWorld(ps, ls[j].worldID) >= 0
      {
        if j < |init| {
          var k := FindWorld(ps0, init[j].worldID);
          assert ps[k].worldID == init[j].worldID;
        } else if FindWorld(ps0, l.worldID) < 0 {
          assert ps[|ps0|].worldID == l.worldID;
        } else {
          assert ps[FindWorld(ps0, l.worldID)].worldID == l.worldID;
        }
      }
    }
  }

  /** The records appear in the order their worlds are first met in the listings. */
  lemma {:induction false} AggregateFirstSeenOrder(item: Item, ls: seq<Listing>)
    ensures forall k1, k2 :: 0 <= k1 < k2 < |Aggregate(item, ls)| ==>
      FirstOn(ls, Aggregate(item, ls)[k1].worldID) < FirstOn(ls, Aggregate(item, ls)[k2].worldID)
    decreases |ls|
  {
    if |ls| > 0 {
      var init, l := ls[..|ls| - 1], ls[|ls| - 1];
      AggregateFirstSeenOrder(item, init);
      AggregateWorldsListed(item, init);
      var ps0, ps := Aggregate(item, init), Aggregate(item, ls);
      MergeWorlds(ps0, item, l);
      forall k1, k2 | 0 <= k1 < k2 < |ps|
        ensures FirstOn(ls, ps[k1].worldID) < FirstOn(ls, ps[k2].worldID)
      {
        assert FirstOn(init, ps0[k1].worldID) < |init|;
        if k2 < |ps0| {
          assert FirstOn(init, ps0[k2].worldID) < |init|;
          assert FirstOn(init, ps0[k1].worldID) < FirstOn(init, ps0[k2].worldID);
        } else {
          AbsentWorldUnlisted(item, init, l.worldID);
        }
      }
    }
  }

  /** The record `p` totals the listings on its world, and carries the price of the first
      of them as `priceMin` and the price of the last as `priceMax`. */
  predicate RecordMatches(ls: seq<Listing>, p: Purchase)
  {
    FirstOn(ls, p.worldID) < |ls| && LastOn(ls, p.worldID) >= 0
    && p.quantityToBuy == Units(OnWorld(ls, p.worldID))
    && p.priceMin == ls[FirstOn(ls, p.worldID)].pricePerUnit
    && p.priceMax == ls[LastOn(ls, p.worldID)].pricePerUnit
  }

  /** A record on another world still matches once a listing is appended. */
  lemma MatchOtherWorld(ls: seq<Listing>, p: Purchase)
    requires |ls| > 0 && ls[|ls| - 1].worldID != p.worldID
    requires RecordMatches(ls[..|ls| - 1], p)
    ensures RecordMatches(ls, p)
  {
    assert FirstOn(ls, p.worldID) == FirstOn(ls[..|ls| - 1], p.worldID);
  }

  /** The record on the appended listing's world, grown by it, matches. */
  lemma MatchGrown(ls: seq<Listing>, p: Purchase)
    requires |ls| > 0 && ls[|ls| - 1].worldID == p.worldID
    requires RecordMatches(ls[..|ls| - 1], p)
    ensures RecordMatches(ls, p.(quantityToBuy := p.quantityToBuy + ls[|ls| - 1].quantity,
                                 priceMax := ls[|ls| - 1].pricePerUnit))
  {
    var init, l := ls[..|ls| - 1], ls[|ls| - 1];
    assert FirstOn(ls, p.worldID) == FirstOn(init, p.worldID);
    UnitsAppend(OnWorld(init, p.worldID), [l]);
  }

  /** The record a listing on a world not met before starts matches. */
  lemma MatchNew(ls: seq<Listing>, item: Item)
    requires |ls| > 0 && FirstOn(ls[..|ls| - 1], ls[|ls| - 1].worldID) == |ls| - 1
    ensures RecordMatches(ls, NewPurchase(item, ls[|ls| - 1]))
  {
    var init, l := ls[..|ls| - 1], ls[|ls| - 1];
    NoneOnWorld(init, l.worldID);
    UnitsAppend([], [l]);
  }

  /** A world without a record has no listing. */
  lemma AbsentWorldUnlisted(item: Item, ls: seq<Listing>, w: int)
    requires FindWorld(Aggregate(item, ls), w) < 0
    ensures FirstOn(ls, w) == |ls|
  {
    AggregateCoversListings(item, ls);
    forall i | 0 <= i < |ls|
      ensures ls[i].worldID != w
    {
      assert FindWorld(Aggregate(item, ls), ls[i].worldID) >= 0;
    }
  }

  /** Each record's quantity is the total of the listings on its world; its `priceMin` is the
      price of the first of them and its `priceMax` the price of the last (an overwrite, not a maximum). */
  lemma {:induction false} AggregateAmounts(item: Item, ls: seq<Listing>)
    ensures forall k :: 0 <= k < |Aggregate(item, ls)| ==> RecordMatches(ls, Aggregate(item, ls)[k])
    decreases |ls|
  {
    if |ls| > 0 {
      AggregateAmounts(item, ls[..|ls| - 1]);
      forall k | 0 <= k < |Aggregate(item, ls)|
        ensures RecordMatches(ls, Aggregate(item, ls)[k])
      {
        AmountsStep(item, ls, k);
      }
    }
  }

  /** Every record matches the listings. */
  predicate AllMatch(ls: seq<Listing>, ps: seq<Purchase>)
  {
    forall k :: 0 <= k < |ps| ==> RecordMatches(ls, ps[k])
  }

  /** The step of that induction for one record: the merged record of the last listing's world
      matches, and every other record is unchanged and still matches. */
  lemma AmountsStep(item: Item, ls: seq<Listing>, k: int)
    requires |ls| > 0
    requires AllMatch(ls[..|ls| - 1], Aggregate(item, ls[..|ls| - 1]))
    requires 0 <= k < |Aggregate(item, ls)|
    ensures RecordMatches(ls, Aggregate(item, ls)[k])
  {
    var init, l := ls[..|ls| - 1], ls[|ls| - 1];
    var ps0, ps := Aggregate(item, init), Aggregate(item, ls);
    var f := FindWorld(ps0, l.worldID);
    if f < 0 && k == |ps0| {
      AbsentWorldUnlisted(item, init, l.worldID);
      MatchNew(ls, item);
    } else if k == f {
      MatchGrown(ls, ps0[f]);
    } else {
      assert k < |ps0|;
      assert ps0[k].worldID != l.worldID by {
        if f >= 0 {
          AggregateRecords(item, init);
          assert ps0[f].worldID == l.worldID;
        }
      }
      assert ps[k] == ps0[k];
      MatchOtherWorld(ls, ps0[k]);
    }
  }

  lemma {:induction false} NoneOnWorld(ls: seq<Listing>, w: int)
    requires FirstOn(ls, w) == |ls|
    ensures OnWorld(ls, w) == []
    decreases |ls|
  {
    if |ls| > 0 {
      NoneOnWorld(ls[..|ls| - 1], w);
    }
  }

  /** Total quantity of a sequence of records. */
  function Bought(ps: seq<Purchase>): nat
    decreases |ps|
  {
    if |ps| == 0 then 0 else ps[0].quantityToBuy + Bought(ps[1..])
  }

  lemma {:induction false} BoughtAppend(ps: seq<Purchase>, p: Purchase)
    ensures Bought(ps + [p]) == Bought(ps) + p.quantityToBuy
    decreases |ps|
  {
    if |ps| > 0 {
      assert (ps + [p])[1..] == ps[1..] + [p];
      BoughtAppend(ps[1..], p);
    } else {
      assert ps + [p] == [p];
    }
  }

  lemma {:induction false} BoughtUpdate(ps: seq<Purchase>, k: nat, p: Purchase)
    requires k < |ps|
    ensures Bought(ps[k := p]) + ps[k].quantityToBuy == Bought(ps) + p.quantityToBuy
    decreases |ps|
  {
    if k > 0 {
      assert ps[k := p][1..] == ps[1..][k - 1 := p];
      BoughtUpdate(ps[1..], k - 1, p);
    } else {
      assert ps[k := p][1..] == ps[1..];
    }
  }

  /** The records buy exactly the units the listings offer. */
  lemma {:induction false} AggregateConservesUnits(item: Item, ls: seq<Listing>)
    ensures Bought(Aggregate(item, ls)) == Units(ls)
    decreases |ls|
  {
    if |ls| > 0 {
      var init, l := ls[..|ls| - 1], ls[|ls| - 1];
      AggregateConservesUnits(item, init);
      assert ls == init + [l];
      UnitsAppend(init, [l]);
      var ps0 := Aggregate(item, init);
      var k := FindWorld(ps0, l.worldID);
      if k < 0 {
        BoughtAppend(ps0, NewPurchase(item, l));
      } else {
        BoughtUpdate(ps0, k, ps0[k].(quantityToBuy := ps0[k].quantityToBuy + l.quantity, priceMax := l.pricePerUnit));
      }
    }
  }
}
