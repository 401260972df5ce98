/** The edits the results view makes to the shopping list (src/components/Content.tsx,
    `updatePurchase` and `updateAllPurchasesByItem`), as functions from the old list to the new. */
module Updates {
  import opened Types
  import opened Seqs

  /** Setting one field of a purchase record to a new value. */
  datatype Change =
    | SetItemID(itemID: int)
    | SetName(name: Option<string>)
    | SetWorldID(worldID: int)
    | SetQuantityToBuy(quantityToBuy: nat)
    | SetPriceMin(priceMin: nat)
    | SetPriceMax(priceMax: nat)
    | SetActive(active: bool)
    | SetStatus(status: Option<PurchaseStatus>)

  /** The record with the changed field set and every other field kept. */
  function Apply(p: Purchase, c: Change): Purchase
  {
    match c
    case SetItemID(v) => p.(itemID := v)
    case SetName(v) => p.(name := v)
    case SetWorldID(v) => p.(worldID := v)
    case SetQuantityToBuy(v) => p.(quantityToBuy := v)
    case SetPriceMin(v) => p.(priceMin := v)
    case SetPriceMax(v) => p.(priceMax := v)
    case SetActive(v) => p.(active := v)
    case SetStatus(v) => p.(status := v)
  }

  /** Whether the change rewrites a field the records are looked up by. */
  predicate TouchesKey(c: Change)
  {
    c.SetItemID? || c.SetWorldID?
  }

  /** `findIndex` over item and world: the first record for that item on that world, or -1. */
  function FindPurchase(ps: seq<Purchase>, itemID: int, worldID: int): (k: int)
    ensures -1 <= k < |ps|
    ensures k == -1 <==> forall j :: 0 <= j < |ps| ==> !(ps[j].itemID == itemID && ps[j].worldID == worldID)
    ensures k >= 0 ==> ps[k].itemID == itemID && ps[k].worldID == worldID
    ensures k >= 0 ==> forall j :: 0 <= j < k ==> !(ps[j].itemID == itemID && ps[j].worldID == worldID)
    decreases |ps|
  {
    if |ps| == 0 then -1
    else
      var k := FindPurchase(ps[..|ps| - 1], itemID, worldID);
      if k >= 0 then k
      else if ps[|ps| - 1].itemID == itemID && ps[|ps| - 1].worldID == worldID then |ps| - 1
      else -1
  }

  /** `updatePurchase`: the record for the purchase's item and world, changed; the error
      "Item not found" when there is none. */
  function UpdatePurchase(ps: seq<Purchase>, purchase: Purchase, c: Change): (r: Result<seq<Purchase>, string>)
    ensures r.Failure? <==>
      forall j :: 0 <= j < |ps| ==> !(ps[j].itemID == purchase.itemID && ps[j].worldID == purchase.worldID)
    ensures r.Failure? ==> r.error == "Item not found"
    ensures r.Success? ==> |r.value| == |ps|
    ensures r.Success? ==> var k := FindPurchase(ps, purchase.itemID, purchase.worldID);
      0 <= k && r.value[k] == Apply(ps[k], c) && forall j :: 0 <= j < |ps| && j != k ==> r.value[j] == ps[j]
  {
    var k := FindPurchase(ps, purchase.itemID, purchase.worldID);
    if k >= 0 then Success(ps[k := Apply(ps[k], c)]) else Failure("Item not found")
  }

  /** Applying the same change twice is applying it once. */
  lemma ApplyIdempotent(p: Purchase, c: Change)
    ensures Apply(Apply(p, c), c) == Apply(p, c)
  {
  }

  /** A change of another field keeps the record's item and world. */
  lemma ApplyKeepsKey(p: Purchase, c: Change)
    requires !TouchesKey(c)
    ensures Apply(p, c).itemID == p.itemID && Apply(p, c).worldID == p.worldID
  {
  }

  /** A change that leaves the lookup fields alone finds the same record again, so repeating
      it changes nothing more. */
  lemma UpdatePurchaseIdempotent(ps: seq<Purchase>, purchase: Purchase, c: Change)
    requires !TouchesKey(c)
    ensures UpdatePurchase(ps, purchase, c).Success? ==>
      UpdatePurchase(UpdatePurchase(ps, purchase, c).value, purchase, c) == UpdatePurchase(ps, purchase, c)
  {
    var k := FindPurchase(ps, purchase.itemID, purchase.worldID);
    if k >= 0 {
      var ps' := ps[k := Apply(ps[k], c)];
      ApplyKeepsKey(ps[k], c);
      ApplyIdempotent(ps[k], c);
      var k' := FindPurchase(ps', purchase.itemID, purchase.worldID);
      assert ps'[k].itemID == purchase.itemID && ps'[k].worldID == purchase.worldID;
      assert forall j :: 0 <= j < k ==> ps'[j] == ps[j];
      assert k' == k;
      assert ps'[k := Apply(ps'[k], c)] == ps';
    }
  }

  /** Records of item `id`. */
  function Mine(id: int): Purchase -> bool
  {
    (p: Purchase) => p.itemID == id
  }

  /** Records of other items. */
  function Others(id: int): Purchase -> bool
  {
    (p: Purchase) => p.itemID != id
  }

  /** The change as a function on records. */
  function Changer(c: Change): Purchase -> Purchase
  {
    (p: Purchase) => Apply(p, c)
  }

  /** `updateAllPurchasesByItem`: the records of other items in their order, then the item's
      records, each changed, in their order; no record is lost or added. */
  function UpdateAllPurchasesByItem(ps: seq<Purchase>, item: Item, c: Change): (r: seq<Purchase>)
    ensures |r| == |ps|
  {
    FilterPartition(ps, Others(item.id), Mine(item.id));
    Filter(ps, Others(item.id)) + Map(Filter(ps, Mine(item.id)), Changer(c))
  }

  /** The list starts with the other items' records, exactly those, in their original order. */
  lemma UpdateAllKeepsOthers(ps: seq<Purchase>, item: Item, c: Change)
    ensures var n := |Filter(ps, Others(item.id))|;
      n <= |UpdateAllPurchasesByItem(ps, item, c)|
      && Subseq(UpdateAllPurchasesByItem(ps, item, c)[..n], ps)
      && forall p :: p in UpdateAllPurchasesByItem(ps, item, c)[..n] <==> p in ps && p.itemID != item.id
  {
    var others := Filter(ps, Others(item.id));
    var r := UpdateAllPurchasesByItem(ps, item, c);
    assert r[..|others|] == others;
    FilterSubseq(ps, Others(item.id));
    forall p
      ensures p in others <==> p in ps && p.itemID != item.id
    {
      FilterMember(ps, Others(item.id), p);
    }
  }

  /** The list ends with the item's records, each changed, in their original order. */
  lemma UpdateAllChangesMine(ps: seq<Purchase>, item: Item, c: Change)
    ensures var n := |Filter(ps, Others(item.id))|;
      n <= |UpdateAllPurchasesByItem(ps, item, c)|
      && UpdateAllPurchasesByItem(ps, item, c)[n..] == Map(Filter(ps, Mine(item.id)), Changer(c))
      && Subseq(Filter(ps, Mine(item.id)), ps)
      && forall q :: q in Filter(ps, Mine(item.id)) <==> q in ps && q.itemID == item.id
  {
    var r := UpdateAllPurchasesByItem(ps, item, c);
    assert r[|Filter(ps, Others(item.id))|..] == Map(Filter(ps, Mine(item.id)), Changer(c));
    FilterSubseq(ps, Mine(item.id));
    forall q
      ensures q in Filter(ps, Mine(item.id)) <==> q in ps && q.itemID == item.id
    {
      FilterMember(ps, Mine(item.id), q);
    }
  }

  /** Repeating the same bulk change on the result changes nothing more, unless it rewrites the
      item id the records are selected by: the item's records are already at the end and already
      changed. */
  lemma UpdateAllIdempotent(ps: seq<Purchase>, item: Item, c: Change)
    requires !c.SetItemID?
    ensures UpdateAllPurchasesByItem(UpdateAllPurchasesByItem(ps, item, c), item, c)
      == UpdateAllPurchasesByItem(ps, item, c)
  {
    var changed := Map(Filter(ps, Mine(item.id)), Changer(c));
    ResultSplits(ps, item, c);
    MapIdempotent(Filter(ps, Mine(item.id)), c);
    assert Map(changed, Changer(c)) == changed;
  }

  /** Splitting the result again gives back its two parts. */
  lemma ResultSplits(ps: seq<Purchase>, item: Item, c: Change)
    requires !c.SetItemID?
    ensures Filter(UpdateAllPurchasesByItem(ps, item, c), Others(item.id)) == Filter(ps, Others(item.id))
    ensures Filter(UpdateAllPurchasesByItem(ps, item, c), Mine(item.id))
      == Map(Filter(ps, Mine(item.id)), Changer(c))
  {
    var others, mine := Filter(ps, Others(item.id)), Filter(ps, Mine(item.id));
    ChangedStayMine(mine, item.id, c);
    OthersArentMine(others, item.id);
    SplitAgain(others, Map(mine, Changer(c)), item.id);
  }

  /** Records of other items followed by records of item `id` split back into the two. */
  lemma SplitAgain(others: seq<Purchase>, changed: seq<Purchase>, id: int)
    requires forall q :: q in others ==> Others(id)(q) && !Mine(id)(q)
    requires forall q :: q in changed ==> Mine(id)(q) && !Others(id)(q)
    ensures Filter(others + changed, Others(id)) == others
    ensures Filter(others + changed, Mine(id)) == changed
  {
    FilterAll(others, Others(id));
    FilterNone(others, Mine(id));
    FilterAll(changed, Mine(id));
    FilterNone(changed, Others(id));
    FilterAppend(others, changed, Others(id));
    FilterAppend(others, changed, Mine(id));
  }

  /** Changing records of item `id` by anything but their item id leaves them records of `id`. */
  lemma ChangedStayMine(mine: seq<Purchase>, id: int, c: Change)
    requires !c.SetItemID? && forall q :: q in mine ==> Mine(id)(q)
    ensures forall q :: q in Map(mine, Changer(c)) ==> Mine(id)(q) && !Others(id)(q)
  {
    var changed := Map(mine, Changer(c));
    forall i | 0 <= i < |changed| ensures changed[i].itemID == id {
      assert mine[i] in mine;
      assert changed[i] == Apply(mine[i], c);
    }
  }

  /** Records of other items are not records of `id`. */
  lemma OthersArentMine(others: seq<Purchase>, id: int)
    requires forall q :: q in others ==> Others(id)(q)
    ensures forall q :: q in others ==> Others(id)(q) && !Mine(id)(q)
  {
  }

  lemma {:induction false} FilterAll<T>(s: seq<T>, p: T -> bool)
    requires forall x :: x in s ==> p(x)
    ensures Filter(s, p) == s
    decreases |s|
  {
    if |s| > 0 {
      FilterAll(s[..|s| - 1], p);
      assert s[..|s| - 1] + [s[|s| - 1]] == s;
    }
  }

  lemma {:induction false} FilterNone<T>(s: seq<T>, p: T -> bool)
    requires forall x :: x in s ==> !p(x)
    ensures Filter(s, p) == []
    decreases |s|
  {
    if |s| > 0 {
      FilterNone(s[..|s| - 1], p);
    }
  }

  lemma {:induction false} FilterAppend<T>(a: seq<T>, b: seq<T>, p: T -> bool)
    ensures Filter(a + b, p) == Filter(a, p) + Filter(b, p)
    decreases |b|
  {
    if |b| > 0 {
      var b' := b[..|b| - 1];
      assert (a + b)[..|a + b| - 1] == a + b';
      FilterAppend(a, b', p);
    } else {
      assert a + b == a;
    }
  }

  lemma MapIdempotent(s: seq<Purchase>, c: Change)
    ensures Map(Map(s, Changer(c)), Changer(c)) == Map(s, Changer(c))
  {
    var once := Map(s, Changer(c));
    forall i | 0 <= i < |s|
      ensures Map(once, Changer(c))[i] == once[i]
    {
      ApplyIdempotent(s[i], c);
    }
  }
}
