/** The three ways the results view arranges the shopping list
    (src/components/ResultsArea/ResultsItems.tsx): by data centre and world, by world, and by
    item; and the status buttons on each record. Each grouping is a loop that pushes groups,
    specified by a filter-then-map over the sequence it walks. */
module Grouping {
  import opened Types
  import opened Seqs

  /** The records to buy on one world, under the world's display name. */
  datatype WorldItem = WorldItem(name: string, items: seq<Purchase>)

  /** A data centre's name and its world groups. */
  datatype DatacenterItem = DatacenterItem(name: string, worlds: seq<WorldItem>)

  /** An item's display name and one single-record group per world it is bought on. */
  datatype ItemItem = ItemItem(name: string, worlds: seq<WorldItem>)

  /** The first world with id `id`, or -1. */
  function FindWorld(worlds: seq<World>, id: int): (k: int)
    ensures -1 <= k < |worlds|
    ensures k == -1 <==> forall j :: 0 <= j < |worlds| ==> worlds[j].id != id
    ensures k >= 0 ==> worlds[k].id == id
    ensures k >= 0 ==> forall j :: 0 <= j < k ==> worlds[j].id != id
    decreases |worlds|
  {
    if |worlds| == 0 then -1
    else
      var k := FindWorld(worlds[..|worlds| - 1], id);
      if k >= 0 then k else if worlds[|worlds| - 1].id == id then |worlds| - 1 else -1
  }

  /** `j` is the first position of a world with id `id`. */
  predicate FirstWith(worlds: seq<World>, id: int, j: int)
  {
    0 <= j < |worlds| && worlds[j].id == id && forall i :: 0 <= i < j ==> worlds[i].id != id
  }

  /** `worlds.find(...)?.name ?? worldID.toString()`: the name of the first world with the id,
      or the id written in decimal when no world has it. */
  function WorldName(worlds: seq<World>, id: int): (n: string)
    ensures (forall j :: 0 <= j < |worlds| ==> worlds[j].id != id) ==> n == IntToString(id)
    ensures forall j :: FirstWith(worlds, id, j) ==> n == worlds[j].name
  {
    var k := FindWorld(worlds, id);
    if k >= 0 then worlds[k].name else IntToString(id)
  }

  /** `item.name ?? item.id.toString()`. */
  function ItemName(item: Item): (n: string)
    ensures item.name.Some? ==> n == item.name.value
    ensures item.name.None? ==> n == IntToString(item.id)
  {
    match item.name
    case Some(s) => s
    case None => IntToString(item.id)
  }

  /** Records bought on world `id`. */
  function AtWorld(id: int): Purchase -> bool
  {
    (p: Purchase) => p.worldID == id
  }

  /** Records of item `id`. */
  function OfItem(id: int): Purchase -> bool
  {
    (p: Purchase) => p.itemID == id
  }

  /** The group of world `id`: its display name and its records, in list order. */
  function WorldGroup(ps: seq<Purchase>, worlds: seq<World>, id: int): WorldItem
  {
    WorldItem(WorldName(worlds, id), Filter(ps, AtWorld(id)))
  }

  /** The world has something to buy. */
  function Stocked(ps: seq<Purchase>): int -> bool
  {
    (id: int) => |Filter(ps, AtWorld(id))| > 0
  }

  function Grouper(ps: seq<Purchase>, worlds: seq<World>): int -> WorldItem
  {
    (id: int) => WorldGroup(ps, worlds, id)
  }

  /** The groups of the listed worlds that have something to buy, in the order of `ids`. */
  function WorldGroups(ps: seq<Purchase>, ids: seq<int>, worlds: seq<World>): seq<WorldItem>
  {
    Map(Filter(ids, Stocked(ps)), Grouper(ps, worlds))
  }

  /** The whole data-centre group, kept when at least one of its worlds has something to buy. */
  function DCGroup(ps: seq<Purchase>, worlds: seq<World>): DC -> DatacenterItem
  {
    (dc: DC) => DatacenterItem(dc.name, WorldGroups(ps, dc.worlds, worlds))
  }

  function HasGroups(ps: seq<Purchase>, worlds: seq<World>): DC -> bool
  {
    (dc: DC) => |WorldGroups(ps, dc.worlds, worlds)| > 0
  }

  /** By data centre: the data centres with something to buy, in order, each with its groups. */
  function ByDC(ps: seq<Purchase>, dcs: seq<DC>, worlds: seq<World>): seq<DatacenterItem>
  {
    Map(Filter(dcs, HasGroups(ps, worlds)), DCGroup(ps, worlds))
  }

  function WorldStocked(ps: seq<Purchase>): World -> bool
  {
    (w: World) => |Filter(ps, AtWorld(w.id))| > 0
  }

  function WorldGrouper(ps: seq<Purchase>, worlds: seq<World>): World -> WorldItem
  {
    (w: World) => WorldGroup(ps, worlds, w.id)
  }

  /** By world: one group per world with something to buy, in the order of `worlds`. */
  function ByWorld(ps: seq<Purchase>, worlds: seq<World>): seq<WorldItem>
  {
    Map(Filter(worlds, WorldStocked(ps)), WorldGrouper(ps, worlds))
  }

  /** A one-record group under the record's world name. */
  function Single(worlds: seq<World>): Purchase -> WorldItem
  {
    (p: Purchase) => WorldItem(WorldName(worlds, p.worldID), [p])
  }

  function ItemStocked(ps: seq<Purchase>): Item -> bool
  {
    (item: Item) => |Filter(ps, OfItem(item.id))| > 0
  }

  function ItemGroup(ps: seq<Purchase>, worlds: seq<World>): Item -> ItemItem
  {
    (item: Item) => ItemItem(ItemName(item), Map(Filter(ps, OfItem(item.id)), Single(worlds)))
  }

  /** By item: one group per item with something to buy, in the order of `items`. */
  function ByItem(ps: seq<Purchase>, items: seq<Item>, worlds: seq<World>): seq<ItemItem>
  {
    Map(Filter(items, ItemStocked(ps)), ItemGroup(ps, worlds))
  }

  // ---------------------------------------------------------------------------
  // The loops

  /** `dc.worlds.forEach(...)`: the world groups of one data centre. */
  method OwnedWorlds(purchases: seq<Purchase>, ids: seq<int>, worlds: seq<World>) returns (ownedWorlds: seq<WorldItem>)
    ensures ownedWorlds == WorldGroups(purchases, ids, worlds)
  {
    ownedWorlds := [];
    for j := 0 to |ids|
      invariant ownedWorlds == WorldGroups(purchases, ids[..j], worlds)
    {
      var worldID := ids[j];
      FilterMapStep(ids, j, Stocked(purchases), Grouper(purchases, worlds));
      var worldShoppingList := Filter(purchases, AtWorld(worldID));
      if |worldShoppingList| > 0 {
        ownedWorlds := ownedWorlds + [WorldItem(WorldName(worlds, worldID), worldShoppingList)];
      }
    }
    assert ids[..|ids|] == ids;
  }

  /** `groupPurchasesByDC`. */
  method GroupPurchasesByDC(purchases: seq<Purchase>, dcs: seq<DC>, worlds: seq<World>) returns (dcGroups: seq<DatacenterItem>)
    ensures dcGroups == ByDC(purchases, dcs, worlds)
  {
    dcGroups := [];
    for i := 0 to |dcs|
      invariant dcGroups == ByDC(purchases, dcs[..i], worlds)
    {
      var dc := dcs[i];
      FilterMapStep(dcs, i, HasGroups(purchases, worlds), DCGroup(purchases, worlds));
      var ownedWorlds := OwnedWorlds(purchases, dc.worlds, worlds);
      if |ownedWorlds| > 0 {
        dcGroups := dcGroups + [DatacenterItem(dc.name, ownedWorlds)];
      }
    }
    assert dcs[..|dcs|] == dcs;
  }

  /** `groupPurchasesByWorld`. */
  method GroupPurchasesByWorld(purchases: seq<Purchase>, worlds: seq<World>) returns (worldItems: seq<WorldItem>)
    ensures worldItems == ByWorld(purchases, worlds)
  {
    worldItems := [];
    for i := 0 to |worlds|
      invariant worldItems == Map(Filter(worlds[..i], WorldStocked(purchases)), WorldGrouper(purchases, worlds))
    {
      var world := worlds[i];
      FilterMapStep(worlds, i, WorldStocked(purchases), WorldGrouper(purchases, worlds));
      var worldShoppingList := Filter(purchases, AtWorld(world.id));
      if |worldShoppingList| > 0 {
        worldItems := worldItems + [WorldItem(WorldName(worlds, world.id), worldShoppingList)];
      }
    }
    assert worlds[..|worlds|] == worlds;
  }

  /** `ownedPurchases.forEach(...)`: one single-record group per record. */
  method Singles(owned: seq<Purchase>, worlds: seq<World>) returns (ownedWorlds: seq<WorldItem>)
    ensures ownedWorlds == Map(owned, Single(worlds))
  {
    ownedWorlds := [];
    for j := 0 to |owned|
      invariant ownedWorlds == Map(owned[..j], Single(worlds))
    {
      var purchase := owned[j];
      assert owned[..j + 1] == owned[..j] + [purchase];
      MapSnoc(owned[..j], purchase, Single(worlds));
      ownedWorlds := ownedWorlds + [WorldItem(WorldName(worlds, purchase.worldID), [purchase])];
    }
    assert owned[..|owned|] == owned;
  }

  /** `groupPurchasesByItem`. */
  method GroupPurchasesByItem(purchases: seq<Purchase>, items: seq<Item>, worlds: seq<World>) returns (itemGroups: seq<ItemItem>)
    ensures itemGroups == ByItem(purchases, items, worlds)
  {
    itemGroups := [];
    for i := 0 to |items|
      invariant itemGroups == ByItem(purchases, items[..i], worlds)
    {
      var item := items[i];
      FilterMapStep(items, i, ItemStocked(purchases), ItemGroup(purchases, worlds));
      var ownedPurchases := Filter(purchases, OfItem(item.id));
      if |ownedPurchases| > 0 {
        var ownedWorlds := Singles(ownedPurchases, worlds);
        itemGroups := itemGroups + [ItemItem(ItemName(item), ownedWorlds)];
      }
    }
    assert items[..|items|] == items;
  }

  // ---------------------------------------------------------------------------
  // What the groupings promise

  /** A world group holds exactly the records on its world, each as often as the list does,
      in their list order. */
  lemma WorldGroupItems(ps: seq<Purchase>, worlds: seq<World>, id: int)
    ensures Subseq(WorldGroup(ps, worlds, id).items, ps)
    ensures forall p :: p in WorldGroup(ps, worlds, id).items <==> p in ps && p.worldID == id
    ensures forall p :: multiset(WorldGroup(ps, worlds, id).items)[p]
                        == if p.worldID == id then multiset(ps)[p] else 0
  {
    FilterSubseq(ps, AtWorld(id));
    forall p
      ensures p in Filter(ps, AtWorld(id)) <==> p in ps && p.worldID == id
      ensures multiset(Filter(ps, AtWorld(id)))[p] == if p.worldID == id then multiset(ps)[p] else 0
    {
      FilterMember(ps, AtWorld(id), p);
      FilterCount(ps, AtWorld(id), p);
    }
  }

  /** Every emitted world group is one of the listed worlds, has something to buy, and every
      listed world with something to buy has its group. */
  lemma WorldGroupsMembers(ps: seq<Purchase>, ids: seq<int>, worlds: seq<World>, g: WorldItem)
    ensures g in WorldGroups(ps, ids, worlds) <==>
      exists id :: id in ids && |Filter(ps, AtWorld(id))| > 0 && g == WorldGroup(ps, worlds, id)
    ensures g in WorldGroups(ps, ids, worlds) ==> |g.items| > 0
  {
    var kept := Filter(ids, Stocked(ps));
    MapMember(kept, Grouper(ps, worlds), g);
    if g in WorldGroups(ps, ids, worlds) {
      var i :| 0 <= i < |kept| && g == Grouper(ps, worlds)(kept[i]);
      FilterMember(ids, Stocked(ps), kept[i]);
    }
    if exists id :: id in ids && |Filter(ps, AtWorld(id))| > 0 && g == WorldGroup(ps, worlds, id) {
      var id :| id in ids && |Filter(ps, AtWorld(id))| > 0 && g == WorldGroup(ps, worlds, id);
      FilterMember(ids, Stocked(ps), id);
      var i :| 0 <= i < |kept| && kept[i] == id;
    }
  }

  /** The world groups are the groups of the ids with records, in the order of `ids`, one for
      each time such an id is listed. */
  lemma WorldGroupsOrder(ps: seq<Purchase>, ids: seq<int>, worlds: seq<World>)
    ensures exists kept :: Keeps(kept, ids, Stocked(ps)) && WorldGroups(ps, ids, worlds) == Map(kept, Grouper(ps, worlds))
  {
    KeepsIsFilter(Filter(ids, Stocked(ps)), ids, Stocked(ps));
  }

  /** `d` is the group of `dc`, which has at least one world with something to buy. */
  predicate IsDCGroup(ps: seq<Purchase>, worlds: seq<World>, dc: DC, d: DatacenterItem)
  {
    |WorldGroups(ps, dc.worlds, worlds)| > 0 && d == DatacenterItem(dc.name, WorldGroups(ps, dc.worlds, worlds))
  }

  /** Every emitted data-centre group has at least one world group and comes from `dcs`; every
      data centre with something to buy is emitted. */
  lemma ByDCMembers(ps: seq<Purchase>, dcs: seq<DC>, worlds: seq<World>, d: DatacenterItem)
    ensures d in ByDC(ps, dcs, worlds) <==> exists dc :: dc in dcs && IsDCGroup(ps, worlds, dc, d)
    ensures d in ByDC(ps, dcs, worlds) ==> |d.worlds| > 0
  {
    if d in ByDC(ps, dcs, worlds) {
      ByDCSound(ps, dcs, worlds, d);
    }
    if exists dc :: dc in dcs && IsDCGroup(ps, worlds, dc, d) {
      var dc :| dc in dcs && IsDCGroup(ps, worlds, dc, d);
      ByDCComplete(ps, dcs, worlds, dc);
    }
  }

  /** Every emitted group is the group of one of the data centres. */
  lemma ByDCSound(ps: seq<Purchase>, dcs: seq<DC>, worlds: seq<World>, d: DatacenterItem)
    requires d in ByDC(ps, dcs, worlds)
    ensures exists dc :: dc in dcs && IsDCGroup(ps, worlds, dc, d)
  {
    var kept := Filter(dcs, HasGroups(ps, worlds));
    MapMember(kept, DCGroup(ps, worlds), d);
    var i :| 0 <= i < |kept| && d == DCGroup(ps, worlds)(kept[i]);
    FilterMember(dcs, HasGroups(ps, worlds), kept[i]);
    assert IsDCGroup(ps, worlds, kept[i], d);
  }

  /** Every data centre with something to buy is emitted. */
  lemma ByDCComplete(ps: seq<Purchase>, dcs: seq<DC>, worlds: seq<World>, dc: DC)
    requires dc in dcs && |WorldGroups(ps, dc.worlds, worlds)| > 0
    ensures DatacenterItem(dc.name, WorldGroups(ps, dc.worlds, worlds)) in ByDC(ps, dcs, worlds)
  {
    var kept := Filter(dcs, HasGroups(ps, worlds));
    FilterMember(dcs, HasGroups(ps, worlds), dc);
    var i :| 0 <= i < |kept| && kept[i] == dc;
    MapMember(kept, DCGroup(ps, worlds), DCGroup(ps, worlds)(dc));
  }

  /** The data-centre groups are the groups of the data centres with world groups, in the
      order of `dcs`, one for each time such a data centre is listed. */
  lemma ByDCOrder(ps: seq<Purchase>, dcs: seq<DC>, worlds: seq<World>)
    ensures exists kept :: Keeps(kept, dcs, HasGroups(ps, worlds)) && ByDC(ps, dcs, worlds) == Map(kept, DCGroup(ps, worlds))
  {
    KeepsIsFilter(Filter(dcs, HasGroups(ps, worlds)), dcs, HasGroups(ps, worlds));
  }

  /** By world, the groups are the world groups over the ids of `worlds`, in that order, each
      non-empty and named after its world. */
  lemma ByWorldMembers(ps: seq<Purchase>, worlds: seq<World>, g: WorldItem)
    ensures g in ByWorld(ps, worlds) <==>
      exists w :: w in worlds && |Filter(ps, AtWorld(w.id))| > 0 && g == WorldGroup(ps, worlds, w.id)
    ensures g in ByWorld(ps, worlds) ==> |g.items| > 0
  {
    var kept := Filter(worlds, WorldStocked(ps));
    MapMember(kept, WorldGrouper(ps, worlds), g);
    if g in ByWorld(ps, worlds) {
      var i :| 0 <= i < |kept| && g == WorldGrouper(ps, worlds)(kept[i]);
      FilterMember(worlds, WorldStocked(ps), kept[i]);
    }
    if exists w :: w in worlds && |Filter(ps, AtWorld(w.id))| > 0 && g == WorldGroup(ps, worlds, w.id) {
      var w :| w in worlds && |Filter(ps, AtWorld(w.id))| > 0 && g == WorldGroup(ps, worlds, w.id);
      FilterMember(worlds, WorldStocked(ps), w);
      var i :| 0 <= i < |kept| && kept[i] == w;
    }
  }

  /** The by-world groups are the groups of the worlds with records, in the order of
      `worlds`, one for each time such a world is listed. */
  lemma ByWorldOrder(ps: seq<Purchase>, worlds: seq<World>)
    ensures exists kept :: Keeps(kept, worlds, WorldStocked(ps)) && ByWorld(ps, worlds) == Map(kept, WorldGrouper(ps, worlds))
  {
    KeepsIsFilter(Filter(worlds, WorldStocked(ps)), worlds, WorldStocked(ps));
  }

  /** `g` is the group of `item`: its name, and one single-record group per record of the item,
      in list order. */
  predicate IsItemGroup(ps: seq<Purchase>, worlds: seq<World>, item: Item, g: ItemItem)
  {
    var owned := Filter(ps, OfItem(item.id));
    g.name == ItemName(item) && |g.worlds| == |owned| > 0
    && forall k :: 0 <= k < |g.worlds| ==>
         g.worlds[k].items == [owned[k]] && g.worlds[k].name == WorldName(worlds, owned[k].worldID)
  }

  /** An item group has one single-record group per record of the item, in list order, so as
      many groups as records, and at least one. */
  lemma ByItemGroups(ps: seq<Purchase>, items: seq<Item>, worlds: seq<World>, g: ItemItem)
    requires g in ByItem(ps, items, worlds)
    ensures exists item :: item in items && IsItemGroup(ps, worlds, item, g)
  {
    var kept := Filter(items, ItemStocked(ps));
    MapMember(kept, ItemGroup(ps, worlds), g);
    var i :| 0 <= i < |kept| && g == ItemGroup(ps, worlds)(kept[i]);
    FilterMember(items, ItemStocked(ps), kept[i]);
    ItemGroupShape(ps, worlds, kept[i]);
  }

  /** The group of an item with records is an item group. */
  lemma ItemGroupShape(ps: seq<Purchase>, worlds: seq<World>, item: Item)
    requires |Filter(ps, OfItem(item.id))| > 0
    ensures IsItemGroup(ps, worlds, item, ItemGroup(ps, worlds)(item))
  {
  }

  /** Each item with a record is emitted, and the item groups are the groups of the items
      with records, in the order of `items`, one for each time such an item is listed. */
  lemma ByItemCoverage(ps: seq<Purchase>, items: seq<Item>, worlds: seq<World>, item: Item)
    requires item in items && |Filter(ps, OfItem(item.id))| > 0
    ensures ItemGroup(ps, worlds)(item) in ByItem(ps, items, worlds)
    ensures exists kept :: Keeps(kept, items, ItemStocked(ps)) && ByItem(ps, items, worlds) == Map(kept, ItemGroup(ps, worlds))
  {
    var kept := Filter(items, ItemStocked(ps));
    FilterMember(items, ItemStocked(ps), item);
    var i :| 0 <= i < |kept| && kept[i] == item;
    MapMember(kept, ItemGroup(ps, worlds), ItemGroup(ps, worlds)(item));
    KeepsIsFilter(kept, items, ItemStocked(ps));
  }

  // ---------------------------------------------------------------------------
  // The status buttons

  /** Pressing the button for `pressed`: clears the status when it is already `pressed`,
      sets it to `pressed` otherwise. */
  function Toggle(current: Option<PurchaseStatus>, pressed: PurchaseStatus): (next: Option<PurchaseStatus>)
    ensures next == Some(pressed) <==> current != Some(pressed)
    ensures next != Some(pressed) ==> next == None
  {
    if current == Some(pressed) then None else Some(pressed)
  }

  /** Pressing the same button twice gives back the old status exactly when it was unset or
      that button's; a different status is replaced for good. */
  lemma ToggleTwice(current: Option<PurchaseStatus>, pressed: PurchaseStatus)
    ensures Toggle(Toggle(current, pressed), pressed) == current <==> current == None || current == Some(pressed)
  {
  }
}
