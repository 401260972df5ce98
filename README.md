# Shopping planner core, modelled in Dafny

The shopping planner reads a wish list of Final Fantasy XIV items from a link. It asks the
market board for each item's listings. For each item it runs a 0/1-knapsack optimiser over
the listings, whose doc comment asks for a set of whole listings that covers the wanted
quantity at the least total price (and admits it is "not 100% optimal"). As written, its
reconstruction step can return fewer units than wanted, nothing at all for an item the
listings cover, or one listing twice (see Findings). The planner merges the returned listings
into one purchase record per world. The results view then groups these records by data centre and world, by
world, or by item. Its buttons set a record's status or change every record of one item.

The model has one module per part of the core:

- `Types`: the records of `src/types/index.tsx` (`Listing`, `Item`, `Purchase`,
  `PurchaseStatus`, `DC`, `World`), plus `Option`/`Result`.
- `Seqs`: the generic filter, map, flatten, sum and subsequence helpers.
- `Optimizer`: `optimalListings`. The cost table is an `array` filled in place by the same
  descending loop. The scan and the reconstruction walk are methods as well. `Best` is the
  table as a function of the listings, and `Picked` is a choice of whole listings given by a
  mask.
- `Aggregator`: `addPurchases`, with `Aggregate` as the fold it computes.
- `Planner`: `getItemPurchases`. The market-board request is a parameter `fetch`. `None`
  means the request threw, which aborts the whole list. The selector is a parameter of the
  list functions: with the source's `Selection` the list is the one the source builds, with
  `OptimalSelection` the one its doc comments promise.
- `Updates`: `updatePurchase` and `updateAllPurchasesByItem`, as functions from the old list
  to the new one.
- `Links`: the parse of `itemsFromURL`. This covers the regex capture, the `split`, the
  `substr(5)` and the quantity default.
- `Grouping`: the three grouping loops of `ResultsItems.tsx`, each specified by a
  filter-then-map, and the status buttons.

`Cost` is `Fin(gil) | Inf`, which stands in for `Number.POSITIVE_INFINITY`. Adding to `Inf`
gives `Inf`, and nothing is below `Inf`, just as in JavaScript. In the scan, a negative
quantity index reads `undefined`, which is never below anything. So the scan starts at
`Lo(need) = max(need, 0)`.

## Model

| member | source | states |
|---|---|---|
| Optimizer.OptimalListings | src/components/Content.tsx:96-146 | The result is exactly the selection the source's three phases produce (`Selection`). It is empty when more units are needed than are listed. It holds only listings from the input. |
| Optimizer.FillTable | src/components/Content.tsx:100-116 | The filled table has one entry per total from 0 to the listed quantity. Entry `q` is `Best(listings, q)`, the relaxation over the listings in order. |
| Optimizer.BestIsLowerBound | src/components/Content.tsx:110-116 | For any choice of whole listings, the table entry at the choice's unit total is at most what the choice costs. |
| Optimizer.Rebuild | src/components/Content.tsx:110-116 | Every finite table entry `q` is reached by some choice of whole listings with exactly `q` units, at exactly the entry's cost. |
| Optimizer.BestOfAll | src/components/Content.tsx:110-116 | The entry for the whole listed quantity is finite. |
| Optimizer.BestOfNothing | src/components/Content.tsx:105-108 | Entry 0 stays 0 through every relaxation. |
| Optimizer.CheapestTotal | src/components/Content.tsx:118-126 | `minQ` is -1 when every entry from the need up to the listed quantity is infinite. Otherwise it is the lowest index of the least finite entry in that range. |
| Optimizer.Cheapest | src/components/Content.tsx:119-126 | The scan as a function satisfies `IsCheapest`: -1 when every entry is infinite, else a finite entry that no entry in range undercuts and that is strictly below every earlier one. |
| Optimizer.CheapestUnique | src/components/Content.tsx:119-126 | `IsCheapest` determines the scan's result uniquely. |
| Optimizer.TargetInRange | src/components/Content.tsx:118-130 | The scan gives -1 exactly when the need exceeds the listed quantity. Otherwise its total lies in range and has a finite entry. |
| Optimizer.WalkBack | src/components/Content.tsx:128-145 | The reconstruction loop over the final table returns the listings that `Walk` pushes. |
| Optimizer.DrainInvariant | src/components/Content.tsx:136-142 | The inner `while` pushes only the current listing. The units pushed plus the remaining total equal the starting total. The table entry drops by exactly the price of what was pushed. |
| Optimizer.WalkInvariant | src/components/Content.tsx:132-143 | Over the whole walk: every pushed listing comes from the input. The remaining total stays between 0 and the start. Units and table cost are accounted as in `DrainInvariant`. |
| Optimizer.SelectionProperties | src/components/Content.tsx:128-145 | The source's selection is empty when the need exceeds the listed quantity, and it holds only input listings. Its units plus the total where the walk stops equal the target. Its cost is the target's entry less the entry where it stops. |
| Optimizer.SelectionNeverOverpays | src/components/Content.tsx:86-95 | The source's selection costs no more than any choice of whole listings that covers the need. |
| Optimizer.WalkStopsShort | src/components/Content.tsx:132-144 | This is a concrete input where the source's selection buys fewer units than needed (see Findings). |
| Optimizer.WalkFindsNothing | src/components/Content.tsx:118-145 | This is a concrete input, 8 units listed and 7 needed, where the source's selection is empty (see Findings). |
| Optimizer.WalkRepeatsListing | src/components/Content.tsx:132-144 | This is a concrete input where the source's selection holds the same listing twice and another not at all (see Findings). |
| Optimizer.OptimalSelection | src/components/Content.tsx:86-95 | The corrected selection is non-empty exactly when the need is between 1 and the listed quantity. A non-empty selection covers the need. It holds only input listings. |
| Optimizer.OptimalSelectionIsCheapest | src/components/Content.tsx:86-95 | The corrected selection is a choice of whole listings. It costs no more than any choice that covers the need. |
| Aggregator.AddPurchases | src/components/Content.tsx:154-194 | The result is `null` (`None`) exactly when there are no listings. Otherwise the records are the fold `Aggregate`, and the cost is the price of every listing passed in. |
| Aggregator.FindWorld | src/components/Content.tsx:167-169 | The result is the index of the first record on the listing's world, or -1 when no record is on it. |
| Aggregator.FirstOn | src/components/Content.tsx:165-169 | The result is the index of the first listing on a world, or the length when no listing is on it. |
| Aggregator.LastOn | src/components/Content.tsx:171-175 | The result is the index of the last listing on a world, or -1 when no listing is on it. |
| Aggregator.AggregateRecords | src/components/Content.tsx:164-188 | There are no records exactly when there are no listings. Every record carries the item's id and name, is active and has no status. No two records share a world. |
| Aggregator.AggregateWorldsListed | src/components/Content.tsx:165-188 | Every record is on a world that some listing is on. |
| Aggregator.AggregateCoversListings | src/components/Content.tsx:165-188 | Every listing's world has a record. |
| Aggregator.AggregateFirstSeenOrder | src/components/Content.tsx:165-188 | The records appear in the order in which their worlds first appear among the listings. |
| Aggregator.AggregateAmounts | src/components/Content.tsx:171-188 | For each record: its quantity is the total quantity of the listings on its world. `priceMin` is the price of the first of them, and `priceMax` the price of the last (it is overwritten on each merge). |
| Aggregator.AggregateConservesUnits | src/components/Content.tsx:173-183 | The records together buy exactly the listed units. |
| Planner.GetItemPurchases | src/components/Content.tsx:204-227 | The loop, calling `optimalListings` and `addPurchases` on each answer, returns `PlanOf` with the source's selector `Selection`: the entries folded in order, where the first failed request ends the list with that entry. |
| Planner.PlanFails | src/components/Content.tsx:211-226 | For any selector, the list fails exactly when some entry's request fails. |
| Planner.PlanFailsFirst | src/components/Content.tsx:211-226 | For any selector, a failed list names the first entry whose request failed. Every request before it succeeded. |
| Planner.PlanSucceeds | src/components/Content.tsx:211-226 | For any selector, with every request succeeding, the list does not fail. |
| Planner.PlanUnavailable | src/components/Content.tsx:217-224 | For any selector, with every request succeeding, the unavailable entries are exactly those given nothing to buy, in wish-list order. |
| Planner.PlanPurchases | src/components/Content.tsx:217-220 | For any selector, with every request succeeding, the records are each entry's own records, concatenated entry after entry. |
| Planner.PlanCost | src/components/Content.tsx:217-221 | For any selector, with every request succeeding, the cost is the sum of each entry's selection cost. |
| Planner.PlanOfOne | src/components/Content.tsx:211-226 | A one-entry list whose request succeeds names the entry unavailable when nothing is selected, and otherwise holds its records and the cost of its lots. |
| Planner.UnavailableMeans | src/components/Content.tsx:196-203 | With the corrected selector, an entry is unavailable exactly when its quantity is not positive or exceeds the listed units. That is exactly when it gets no records. |
| Planner.AvailableIsCovered | src/components/Content.tsx:196-203 | With the corrected selector, an available entry's records are all for that item. They buy at least the requested quantity, at a cost no higher than any choice of its listings that covers it. |
| Planner.DroppedWhenNothingSelected | src/components/Content.tsx:215-224 | An entry whose listings cover its need but for which the source's selector returns nothing is named unavailable by the source's list and bought by the corrected one. |
| Planner.AsWrittenDropsAvailable | src/components/Content.tsx:215-224 | A concrete entry, 7 wanted of 8 listed, that the source's list names unavailable and the corrected list buys (see Findings). |
| Planner.TwiceRecords | src/components/Content.tsx:164-188 | Folding one listing twice gives one record for twice its quantity, charged twice. |
| Planner.AsWrittenBuysTwice | src/components/Content.tsx:215-221 | A concrete entry for which the source's list buys 2 units on a world that lists 1, and charges for both (see Findings). |
| Updates.FindPurchase | src/components/Content.tsx:282-285 | The result is the first record with the item's id and world, or -1 when there is none. |
| Updates.UpdatePurchase | src/components/Content.tsx:279-296 | It fails with "Item not found" exactly when no record has the purchase's item and world. Otherwise the list keeps its length. The first such record gets the change, and every other record is unchanged. |
| Updates.ApplyIdempotent | src/components/Content.tsx:287-289 | Setting a field twice to the same value is setting it once. |
| Updates.UpdatePurchaseIdempotent | src/components/Content.tsx:279-296 | Repeating an update of a field other than the lookup keys changes nothing more. |
| Updates.UpdateAllPurchasesByItem | src/components/Content.tsx:298-313 | The bulk update keeps the number of records. |
| Updates.UpdateAllKeepsOthers | src/components/Content.tsx:301-310 | The new list starts with exactly the other items' records, unchanged and in their original order. |
| Updates.UpdateAllChangesMine | src/components/Content.tsx:301-310 | The new list ends with exactly the item's records, each changed, in their original order. |
| Updates.UpdateAllIdempotent | src/components/Content.tsx:298-313 | Repeating the same bulk change, unless it rewrites the item id, gives the same list. |
| Links.Capture | src/components/Content.tsx:61-62 | The capture of `/{(.*?)}/` is absent exactly when no `{` is followed by a `}` on the same line. A capture is written braced at the leftmost position where the pattern matches. It holds no `}` and no line terminator, so it ends at the first `}` after that `{`. |
| Links.Split | src/components/Content.tsx:63 | `split` never returns an empty list; `SplitJoin` and `JoinSplit` say what the pieces are. |
| Links.SplitJoin | src/components/Content.tsx:63 | Joining the pieces of a split gives the text back, and no piece holds the separator. |
| Links.JoinSplit | src/components/Content.tsx:63 | Splitting pieces that are free of the separator, once joined, gives the pieces back. |
| Links.Substr5 | src/components/Content.tsx:68 | The result is empty for texts of at most five characters. Otherwise it is the text after its first five. |
| Links.ParseRef | src/components/Content.tsx:68-70 | The id text is the first `+` part. A quantity text is present exactly when a second part exists and is not empty, and it is that second part. |
| Links.ParseLink | src/components/Content.tsx:59-67 | The parse fails with "Link not valid." exactly when there is no capture or the capture is empty. Otherwise it gives one entry per `|` piece, each the parse of its piece, in order. |
| Links.ItemsOf | src/components/Content.tsx:67-76 | There is one item per entry, with the parsed id. The quantity is 1 when none is written, otherwise the parsed quantity. The name is the id in decimal. |
| Links.ParseRender | src/components/Content.tsx:59-76 | Reading back a link written from entries returns those entries. |
| Seqs.KeepsIsFilter | src/components/ResultsArea/ResultsItems.tsx:107-189 | `Keeps(kept, s, p)`, a subsequence of `s` holding each element that passes `p` as often as `s` does and no other, holds exactly of `Filter(s, p)`; this is the filter every grouping performs. |
| Seqs.FilterCount | src/components/ResultsArea/ResultsItems.tsx:108-110 | Filtering keeps every occurrence of an element that passes and none of one that fails. |
| Grouping.FindWorld | src/components/ResultsArea/ResultsItems.tsx:115 | The result is the first world with the id, or -1 when there is none. |
| Grouping.WorldName | src/components/ResultsArea/ResultsItems.tsx:114-116 | A world's display name is the name of the first world with its id, or the id in decimal when no world has it. |
| Grouping.ItemName | src/components/ResultsArea/ResultsItems.tsx:183 | An item's display name is its name, or its id in decimal when it has none. |
| Grouping.OwnedWorlds | src/components/ResultsArea/ResultsItems.tsx:106-121 | The `forEach` over a data centre's world ids yields `WorldGroups`: the groups of the listed worlds with records, in order. |
| Grouping.GroupPurchasesByDC | src/components/ResultsArea/ResultsItems.tsx:99-133 | The loop yields `ByDC`: the data centres that have world groups, in order. |
| Grouping.GroupPurchasesByWorld | src/components/ResultsArea/ResultsItems.tsx:135-157 | The loop yields `ByWorld`: one group per world with records, in the order of the worlds. |
| Grouping.Singles | src/components/ResultsArea/ResultsItems.tsx:171-180 | The result is one single-record group per record, in order. |
| Grouping.GroupPurchasesByItem | src/components/ResultsArea/ResultsItems.tsx:159-190 | The loop yields `ByItem`: one group per item with records, in the order of the items. |
| Grouping.WorldGroupItems | src/components/ResultsArea/ResultsItems.tsx:108-110 | A world group's records are a subsequence of the list. They are exactly the records on that world, each as many times as the list holds it. |
| Grouping.WorldGroupsMembers | src/components/ResultsArea/ResultsItems.tsx:107-121 | A group is emitted exactly when it belongs to a listed world that has records. Every emitted group is non-empty. |
| Grouping.WorldGroupsOrder | src/components/ResultsArea/ResultsItems.tsx:107-121 | The world groups are the groups of the ids that have records, in the order of the ids and once for every time such an id is listed (`Keeps`). |
| Grouping.ByDCMembers | src/components/ResultsArea/ResultsItems.tsx:104-131 | A data-centre group is emitted exactly when it is the group of a listed data centre with at least one world group. Every emitted group is non-empty. |
| Grouping.ByDCOrder | src/components/ResultsArea/ResultsItems.tsx:104-131 | The data-centre groups are the groups of the data centres that have world groups, in order and once for every time such a data centre is listed (`Keeps`). |
| Grouping.ByWorldMembers | src/components/ResultsArea/ResultsItems.tsx:139-156 | A world group is emitted exactly when it belongs to a world with records. Every emitted group is non-empty. |
| Grouping.ByWorldOrder | src/components/ResultsArea/ResultsItems.tsx:139-156 | The world groups are the groups of the worlds that have records, in order and once for every time such a world is listed (`Keeps`). |
| Grouping.ByItemGroups | src/components/ResultsArea/ResultsItems.tsx:164-189 | Every item group belongs to a listed item. It is named after the item and has one single-record group per record of the item, in list order, and at least one. |
| Grouping.ByItemCoverage | src/components/ResultsArea/ResultsItems.tsx:164-189 | Every listed item with records gets its group. The item groups are the groups of the items with records, in order and once for every time such an item is listed (`Keeps`). |
| Grouping.Toggle | src/components/ResultsArea/ResultsItems.tsx:228-231 | Pressing a status button sets that status exactly when it is not already set, and otherwise clears it. The same code serves the other two buttons at lines 241-244 and 254-257. |
| Grouping.ToggleTwice | src/components/ResultsArea/ResultsItems.tsx:228-231 | Pressing the same button twice restores the status exactly when it was unset or was that status. |

## Left out

- The HTTP requests of `getItemPurchases` are not modelled. The response is the parameter
  `fetch`. A response without listings and a request that throws are both `None`, since
  either way the source throws out of the loop.
- The item-name requests of `itemsFromURL` (Content.tsx lines 77-82) are not modelled, and
  `getShoppingList` is not either. They are network lookups.
  The model keeps the provisional name, the id in decimal.
- `decodeURIComponent` is not modelled: the link is taken as already decoded. `parseInt` is
  a parameter `string -> int`, so `NaN` is not modelled.
- `World.id` is a string in the source and is parsed with `parseInt` wherever it is compared.
  The model stores the parsed integer.
- Listing quantities are positive (`Positive`). With a quantity of 0 the source's
  reconstruction `while` would never end.
- Prices and costs are unbounded naturals rather than floating point. Rounding of large
  totals is not modelled.
- In-place mutation: `addPurchases` mutates its freshly pushed records, and
  `updatePurchase` goes through `immutability-helper`. Both are modelled as element updates
  of a sequence. Nothing else holds references to those records, so no aliasing is lost.
- The React state, `useCallback`, the rendering and the `async` flow are not modelled.
- The guard `itemIds.length < 1` in `itemsFromURL` (Content.tsx line 64) can never fire,
  because `split` always returns at least one piece. The model has no separate branch for it.
- Planner.UnavailableMeans, Planner.AvailableIsCovered: these hold of the list built with
  the corrected `OptimalSelection`, not of the source's list. `AsWrittenDropsAvailable` and
  `AsWrittenBuysTwice` show inputs where the source's list breaks both; see Findings.
- Links.Substr5: the model counts characters as Unicode scalar values, while `substr(5)`
  counts UTF-16 code units. When an entry's first five characters include one outside the
  Basic Multilingual Plane, the source drops fewer characters than the model. The regex `.`
  of the capture also matches code units, which does not change what the lazy group spans.
- Updates.UpdatePurchase: the field and value are a typed `Change`. An untyped value of the
  wrong type for the field cannot be written.

## Findings

| source | as written | input that shows it | evidently intended | confidence | as-written member | corrected member |
|---|---|---|---|---|---|---|
| src/components/Content.tsx:132-144 | The reconstruction walks the listings from last to first over the final table. It pushes a listing while `dp[q] === dp[q - quantity] + price`. But the final table mixes in listings the walk has already passed, so the walk can stop above 0. | Two one-unit listings on one world at 3 gil and at 1 gil (that order), with a need of 2. The scan picks total 2 (cost 4). The walk skips the 1-gil listing, takes the 3-gil one and stops at 1, so it returns one unit where two are needed. | The returned listings cover the needed quantity at the least cost, as the doc comment at lines 86-90 says. | not executed | Optimizer.WalkStopsShort | Optimizer.OptimalSelectionIsCheapest |
| src/components/Content.tsx:132-144, 215-224 | The same walk can push nothing at all. `addPurchases` then returns `null`, and the item is reported unavailable although its listings cover the need. | Listings at (price per unit, quantity) (1, 1), (2, 2), (2, 2), (2, 3) on one world, with a need of 7 of the 8 listed. The scan picks total 7 (cost 14). Entries 4, 5 and 6 of the final table (7, 9, 11 gil) use the listing being tested, so none of 6, 4, 4 or 1 gil explains 14, and the walk returns no listing. | An item whose listings cover its need is bought, as the doc comment at lines 196-203 says of `getItemPurchases`. | not executed | Planner.AsWrittenDropsAvailable | Planner.UnavailableMeans |
| src/components/Content.tsx:136-142 | The inner `while` can push the same listing again, since it only checks the table and never moves past the listing it pushed. | Two one-unit listings at 1 gil on worlds 73 and 74, with a need of 2. The walk pushes the world-74 listing twice and never takes the other, so the list buys 2 units on world 74, where 1 is listed, and charges for both. | Each listing is bought at most once, as the doc comment at lines 86-90 asks for a subset of the listings. | not executed | Planner.AsWrittenBuysTwice | Optimizer.OptimalSelectionIsCheapest |
