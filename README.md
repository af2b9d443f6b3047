# Shopping cart event-sourcing core, modelled in Dafny

This project models the domain core of a tutorial shopping cart built with event sourcing.
A cart's state is never stored: it is rebuilt by folding the cart's events. Commands are
decided against that state, and read models (state views) are projections of the event
stream. The core exists in several variants, and each gets its own modules:

- **The TypeScript port** (`04-boundless-typescript`):
  - `TsEvents` holds the event and command records.
  - `TsCart` holds the cart state and its fold (`evolve`, `buildState`).
  - `TsDeciders` holds the AddItem, RemoveItem, ClearCart and ChangeItemQuantity deciders.
  - `TsSubmit` holds the SubmitCart decider with `buildInventories` and `checkInventory`.
  - `TsCartItems`, `TsItemIndex`, `TsCartsWithProducts`, `TsOrders` and `TsInventories` hold the projections.
  - `TsChangePrice` holds the price-change translation, the changed-prices map, `findAffectedCarts` and the archive loop.
  - `TsConsistency` holds the consistency-key table, which maps each event type to its boundary keys.
- **The C# decider model** (`03-decider-model`): `CsCart` holds the `Cart` record, `Initial` and `Evolve`. `CsDeciders` holds the AddItem, RemoveItem, SubmitCart and PublishCart deciders. `CsInventories` holds the inventories projection.
- **The C# command handler without event sourcing** (`02-command-handler-without-es`): `CsSubmittedCartData` holds the submitted-cart-data projection.
- **The root C# project** (`Shopping.Cart`):
  - `CsAggregate` holds the mutable `CartAggregate`, as a class.
  - `CsCartsWithProducts` and `CsCartItems` hold the projections.
  - `CsEventStore` holds the in-memory event store, as a class with a global sequence.

Shared modules:

- `CsEvents` holds one event type for the three C# variants.
- `Wrappers` holds `Option` and `Result`.
- `OrderedMap` is an insertion-ordered dictionary. JavaScript `Map` and .NET `Dictionary` are modelled by it, so that every enumeration the code performs has a defined order.
- `LastWrite` is a last-write-wins map built over a sequence.

How the source becomes Dafny:

- **Folds.** Each fold is a function over the event sequence, with a lemma that folding `a + [e]` is one step after folding `a`.
- **Loops.** Where the source loops and mutates, a method with loop invariants is proved equal to that function.
- **Exceptions.** An exception the source throws inside a fold becomes an `Err` outcome that ends the fold, as the throw ends `Aggregate`.

Each operation is paired in one of three ways:

- with an independent description of its result, for example the pending submissions of a stream, the live items of a cart, or the log of an event store;
- with the invariant it keeps, such as no duplicate pairs or flags that never reset;
- with the source's given/when/then tests, restated as lemmas.

Identifiers and prices are modelled as follows:

- Guids are natural numbers, and `Guid.Empty` is 0.
- TypeScript ids are strings.
- Prices are integers, standing for whole cents.

## Model

| member | source | states |
|---|---|---|
| TsCart.Evolve | 04-boundless-typescript/src/domain/cart.ts:23-69 | the reference step `evolve`: CartCreated sets the cart id; ItemAdded maps the item to its product and sets that product's price; ItemRemoved and ItemArchived drop the item and, unless its productId is empty, its product's price; CartCleared empties the items; the three flag events raise their flag; every other event leaves the state as it was. The EvolveX lemmas below state each case |
| TsCart.Fold | 04-boundless-typescript/src/domain/cart.ts:75 | `events.reduce(evolve, state)`: the events applied left to right to a given state; FoldAppend splits it at any point |
| TsCart.BuildState | 04-boundless-typescript/src/domain/cart.ts:74-76 | the state rebuilt from an event list, folding from the initial cart; BuildStateEmpty, BuildStateAppend and BuildStateSnoc state its laws |
| TsCart.BuildStateEmpty | 04-boundless-typescript/src/domain/cart.ts:14-21 | an empty history rebuilds the initial cart: no cart id, no items, no flags |
| TsCart.BuildStateAppend | 04-boundless-typescript/src/domain/cart.ts:74-76 | rebuilding from `a + b` is folding `b` onto the state rebuilt from `a` |
| TsCart.BuildStateSnoc | 04-boundless-typescript/src/domain/cart.ts:74-76 | rebuilding after one more event is one `evolve` step on the earlier state |
| TsCart.EvolveItemAdded | 04-boundless-typescript/src/domain/cart.ts:28-34 | ItemAdded maps the item to its product and sets that product's price; every other item, price and flag is unchanged |
| TsCart.EvolveItemRetired | 04-boundless-typescript/src/domain/cart.ts:36-52 | ItemRemoved and ItemArchived take the item out and drop its product's price unless the productId is empty; every other item and every other price stays as it was, and no price is added or changed; an unknown item changes nothing |
| TsCart.EvolveCartCleared | 04-boundless-typescript/src/domain/cart.ts:57-58 | CartCleared empties the items but keeps prices, cart id and flags |
| TsCart.EvolveFlags | 04-boundless-typescript/src/domain/cart.ts:54-64 | CartSubmitted, CartPublished and CartPublicationFailed each raise only their own flag |
| TsCart.EvolveUnlisted | 04-boundless-typescript/src/domain/cart.ts:66-67 | event types without a case leave the state as it was |
| TsCart.FoldFlagsMonotone | 04-boundless-typescript/src/domain/cart.ts:23-69 | no sequence of events resets a raised flag |
| TsCart.SubmittedSticks | 04-boundless-typescript/src/domain/cart.ts:54-55 | a history holding a CartSubmitted anywhere rebuilds a submitted cart |
| TsCartItems.ItemsStep | 04-boundless-typescript/src/slices/cart-items.ts:25-57 | the `switch` on the item list: ItemAdded appends the item with quantity 1; ItemRemoved and ItemArchived filter out every item with that itemId; ItemQuantityChanged sets the quantity of the first item with that itemId and ignores an unknown one; CartCleared empties the list; other events change nothing. ApplyToItems is proved equal to it |
| TsCartItems.ItemsAfter | 04-boundless-typescript/src/slices/cart-items.ts:22-58 | the item list after the loop: one ItemsStep per event, in order, from the empty list; ItemsAfterSnoc states the one-more-event law |
| TsCartItems.TotalPrice | 04-boundless-typescript/src/slices/cart-items.ts:64 | the `reduce` from 0 of price times quantity over the items; TotalPriceAppend states that it adds up over concatenation |
| TsCartItems.CartIdOf | 04-boundless-typescript/src/slices/cart-items.ts:60-62 | the view's cart id: that of the first CartCreated, else the first remaining item's cart id, else the empty string; CartIdPrecedence states the precedence |
| TsCartItems.CartItemsOf | 04-boundless-typescript/src/slices/cart-items.ts:21-67 | the view `projectCartItems` returns: CartIdOf, the TotalPrice of the final items, and ItemsAfter; ProjectCartItems is proved equal to it |
| TsCartItems.WithoutItemAppend | 04-boundless-typescript/src/slices/cart-items.ts:39-43 | filtering out an itemId distributes over concatenation, so the kept items keep their relative order |
| TsCartItems.WithoutItemSingle | 04-boundless-typescript/src/slices/cart-items.ts:39-43 | filtering a one-item list keeps the item exactly when its itemId differs |
| TsCartItems.WithoutItem | 04-boundless-typescript/src/slices/cart-items.ts:39 | the filter keeps exactly the items with another itemId, never grows, and is the identity when no item matches; WithoutItemAppend and WithoutItemSingle state that it keeps their order |
| TsCartItems.FindItem | 04-boundless-typescript/src/slices/cart-items.ts:47 | `find` returns the first index with that itemId, or None iff no item has it |
| TsCartItems.FirstCartCreated | 04-boundless-typescript/src/slices/cart-items.ts:61 | None iff no CartCreated; otherwise the id of the first CartCreated |
| TsCartItems.ProjectCartItems | 04-boundless-typescript/src/slices/cart-items.ts:21-67 | the loop's items, the cart id and the `reduce` total equal the view defined by the fold over the events |
| TsCartItems.ApplyToItems | 04-boundless-typescript/src/slices/cart-items.ts:25-57 | the `switch` applies one event to the item list as the fold step defines it |
| TsCartItems.ItemAddedAppends | 04-boundless-typescript/src/slices/cart-items.ts:26-36 | ItemAdded appends one item of quantity 1 with the event's fields after the existing items |
| TsCartItems.ItemRetiredDropsAll | 04-boundless-typescript/src/slices/cart-items.ts:38-44 | after ItemRemoved or ItemArchived the list is the earlier list filtered by that itemId: every item with that itemId is gone and all others stay, in their order |
| TsCartItems.QuantityChangedSetsFirst | 04-boundless-typescript/src/slices/cart-items.ts:46-52 | ItemQuantityChanged sets the quantity of the first matching item only; no match is a no-op |
| TsCartItems.CartClearedEmpties | 04-boundless-typescript/src/slices/cart-items.ts:54-56 | CartCleared leaves no items and a zero total |
| TsCartItems.CartIdPrecedence | 04-boundless-typescript/src/slices/cart-items.ts:60-62 | the cart id is the first CartCreated's, else the first item's, else empty |
| TsCartItems.TotalPriceAppend | 04-boundless-typescript/src/slices/cart-items.ts:64 | the total of price times quantity is additive over concatenation |
| TsCartItems.ItemsAfterSnoc | 04-boundless-typescript/src/slices/cart-items.ts:24-58 | the items after one more event are one loop step on the earlier items |
| TsCartItems.IsEmptyInBeginning | 04-boundless-typescript/test/cart-items.test.ts:6-17 | a freshly created cart has its id, total 0 and no items |
| TsCartItems.Has1Item | 04-boundless-typescript/test/cart-items.test.ts:19-35 | one added item is the only item, with its itemId and productId |
| TsCartItems.QuantityChangeUpdatesTotalPrice | 04-boundless-typescript/test/cart-items.test.ts:37-53 | changing the quantity to 3 of a 10-priced item gives quantity 3 and total 30 |
| TsCartItems.Has2Items | 04-boundless-typescript/test/cart-items.test.ts:55-76 | two added items are listed in order with their ids |
| TsItemIndex.IndexStep | 04-boundless-typescript/src/slices/carts-with-products.ts:14-28 | one step of the itemId index: ItemAdded sets the item's entry to its cart and product, ItemRemoved and ItemArchived delete the entry by itemId, other events leave the index as it was; IndexAdded and RetireByItemIdOnly state the cases |
| TsItemIndex.RetireByItemIdOnly | 04-boundless-typescript/src/slices/carts-with-products.ts:22-28 | ItemRemoved and ItemArchived forget the item by its itemId alone, whatever cart the event names, and keep every other item |
| TsItemIndex.IndexAdded | 04-boundless-typescript/src/slices/carts-with-products.ts:15-20 | ItemAdded maps the itemId to its (cart, product) and keeps every other item |
| TsCartsWithProducts.ViewStep | 04-boundless-typescript/src/slices/carts-with-products.ts:14-39 | one step of the scan: CartCleared drops every entry of that cart, any other event is an IndexStep; ApplyToIndex is proved equal to it |
| TsCartsWithProducts.ViewIndex | 04-boundless-typescript/src/slices/carts-with-products.ts:11-40 | the item index after the scan: one ViewStep per event, in order, from the empty map; ViewIndexSnoc and IndexLiveItems relate it to the events |
| TsCartsWithProducts.CartsWithProducts | 04-boundless-typescript/src/slices/carts-with-products.ts:9-55 | the corrected view: the pairs of the index's entries, in entry order, each kept at its first occurrence; ProjectCartsWithProducts is proved equal to it, and NoDuplicatePairs and PairsAreLiveItems state what it holds |
| TsCartsWithProducts.PairKey | 04-boundless-typescript/src/slices/carts-with-products.ts:47 | the deduplication key as written, `${cartId}:${productId}` |
| TsCartsWithProducts.DistinctByKeyAsWritten | 04-boundless-typescript/src/slices/carts-with-products.ts:42-52 | deduplication as written: an entry is skipped when an earlier entry has the same string key; PairKeyCollision and AsWrittenAgreesWhenKeysInjective compare it with the corrected view |
| TsCartsWithProducts.AsWrittenAgreesWhenKeysInjective | 04-boundless-typescript/src/slices/carts-with-products.ts:42-52 | when no two different pairs of the list share a string key, deduplicating by key as written gives exactly the corrected deduplication |
| TsCartsWithProducts.Distinct | 04-boundless-typescript/src/slices/carts-with-products.ts:42-52 | deduplication keeps the same members, each once, in first-occurrence order |
| TsCartsWithProducts.ClearCartEntries | 04-boundless-typescript/src/slices/carts-with-products.ts:30-38 | the delete-while-iterating loop leaves exactly the entries of the other carts, in order |
| TsCartsWithProducts.ClearStep | 04-boundless-typescript/src/slices/carts-with-products.ts:32-36 | visiting one entry extends the filtered prefix by that entry or drops it |
| TsCartsWithProducts.ClearStepDrop | 04-boundless-typescript/src/slices/carts-with-products.ts:33-35 | visiting an entry of the cleared cart deletes it, which is what the filter of the visited prefix drops |
| TsCartsWithProducts.ClearStepKeep | 04-boundless-typescript/src/slices/carts-with-products.ts:33 | visiting an entry of another cart leaves the map as it is, which is what the filter of the visited prefix keeps |
| TsCartsWithProducts.IndexLiveItems | 04-boundless-typescript/src/slices/carts-with-products.ts:11-40 | the first loop builds the item index the fold defines, CartCleared dropping that cart's entries |
| TsCartsWithProducts.ApplyToIndex | 04-boundless-typescript/src/slices/carts-with-products.ts:14-39 | the `switch` applies one event as the scan step defines it |
| TsCartsWithProducts.DistinctPairs | 04-boundless-typescript/src/slices/carts-with-products.ts:42-52 | the second loop returns each pair once, at its first occurrence, in order |
| TsCartsWithProducts.DistinctSnoc | 04-boundless-typescript/src/slices/carts-with-products.ts:48-51 | one more pair is kept exactly when it is not yet seen |
| TsCartsWithProducts.ProjectCartsWithProducts | 04-boundless-typescript/src/slices/carts-with-products.ts:9-55 | the two loops return the distinct pairs of the live item index defined by the fold |
| TsCartsWithProducts.NoDuplicatePairs | 04-boundless-typescript/src/slices/carts-with-products.ts:42-52 | no (cartId, productId) pair is listed twice |
| TsCartsWithProducts.PairsAreLiveItems | 04-boundless-typescript/src/slices/carts-with-products.ts:46-52 | a pair is listed iff some live item of the index refers to it |
| TsCartsWithProducts.CartClearedRemovesThatCart | 04-boundless-typescript/src/slices/carts-with-products.ts:30-38 | CartCleared keeps exactly the entries of the other carts |
| TsCartsWithProducts.PairKeyCollision | 04-boundless-typescript/src/slices/carts-with-products.ts:47 | as written, two different pairs ("a:b","c") and ("a","b:c") share the key "a:b:c" and the second is lost; deduplicating on the pair keeps both |
| TsCartsWithProducts.ViewIndexSnoc | 04-boundless-typescript/src/slices/carts-with-products.ts:13-40 | the index after one more event is one step on the earlier index |
| TsCartsWithProducts.CartShouldContainProductIdOfAddedItem | 04-boundless-typescript/test/carts-with-products.test.ts:6-20 | after creating a cart and adding an item the view is exactly [(cart, product)] |
| TsCartsWithProducts.RetiredItemsShouldBeRemovedFromList | 04-boundless-typescript/test/carts-with-products.test.ts:22-52 | archiving or removing the only item leaves the view empty |
| TsCartsWithProducts.CartClearedShouldRemoveItemsFromList | 04-boundless-typescript/test/carts-with-products.test.ts:54-67 | clearing a cart with two items leaves the view empty |
| TsCartsWithProducts.ClearingTheOnlyCart | 04-boundless-typescript/src/slices/carts-with-products.ts:30-38 | when every added item belongs to one cart, clearing it empties the index |
| TsCartsWithProducts.IndexOfOneCart | 04-boundless-typescript/src/slices/carts-with-products.ts:13-40 | when every added item belongs to one cart, so does every index entry |
| TsChangePrice.PriceWrite | 04-boundless-typescript/src/slices/change-price.ts:48-53 | what an event writes into the changed-prices map: PriceChanged writes its product's old and new price, every other event writes nothing |
| TsChangePrice.ChangedPrices | 04-boundless-typescript/src/slices/change-price.ts:43-56 | the changed-prices map as a last-write-wins replay of PriceWrite; ChangedPricesKeys, ChangedPricesLastWins and ChangedPricesIgnoreOthers state its contents |
| TsChangePrice.GroupStep | 04-boundless-typescript/src/slices/change-price.ts:89-96 | one step of the grouping loop: an item of a changed product adds its product to its cart's set, creating the set when the cart has none; other items change nothing |
| TsChangePrice.Group | 04-boundless-typescript/src/slices/change-price.ts:87-98 | the grouping loop over the live items in order; GroupHas, GroupProducts and GroupNonEmpty state which carts and products it records |
| TsChangePrice.AffectedCarts | 04-boundless-typescript/src/slices/change-price.ts:62-99 | `findAffectedCarts`: the item index of the events, grouped by cart over the changed products; AffectedCartsContents states its contents |
| TsChangePrice.ArchiveEvents | 04-boundless-typescript/src/slices/change-price.ts:121-130 | one ItemArchived per item of the rebuilt cart whose product is affected, in item order; ArchiveEventsContents states its contents |
| TsChangePrice.Batches | 04-boundless-typescript/src/slices/change-price.ts:117-140 | one appended batch per affected cart, in map order, holding that cart's ArchiveEvents, and none for a cart with nothing to archive |
| TsChangePrice.ArchiveOutcome | 04-boundless-typescript/src/slices/change-price.ts:105-141 | what the archive processor appends: nothing when no price changed, otherwise the Batches of the affected carts; RunArchiveProcessor is proved equal to it |
| TsChangePrice.TranslatePriceChanged | 04-boundless-typescript/src/slices/change-price.ts:16-29 | the translation is a PriceChanged carrying the body's product, old and new price |
| TsChangePrice.BuildChangedPricesMap | 04-boundless-typescript/src/slices/change-price.ts:43-56 | the loop's map equals the last-write map of the PriceChanged events |
| TsChangePrice.TranslateThenBuild | 04-boundless-typescript/src/slices/change-price.ts:16-56 | a translated message alone yields the one-entry map of its product |
| TsChangePrice.ChangedPricesKeys | 04-boundless-typescript/src/slices/change-price.ts:47-54 | a product is a key iff some PriceChanged names it |
| TsChangePrice.ChangedPricesLastWins | 04-boundless-typescript/src/slices/change-price.ts:49-52 | a product's entry is the old and new price of its last PriceChanged |
| TsChangePrice.ChangedPricesIgnoreOthers | 04-boundless-typescript/src/slices/change-price.ts:48 | inserting any other event anywhere leaves the map unchanged |
| TsChangePrice.FindAffectedCarts | 04-boundless-typescript/src/slices/change-price.ts:62-99 | the two loops return the grouping of the live item index defined by the fold |
| TsChangePrice.IndexAffectingItems | 04-boundless-typescript/src/slices/change-price.ts:67-84 | the first loop builds the item index the fold defines: ItemAdded sets, ItemRemoved and ItemArchived delete |
| TsChangePrice.AddProductStep | 04-boundless-typescript/src/slices/change-price.ts:90-95 | creating an empty set for a new cart and then adding is one grouping step |
| TsChangePrice.GroupStepHas | 04-boundless-typescript/src/slices/change-price.ts:89-96 | one step records a cart iff it was recorded or the item is of that cart and a changed product |
| TsChangePrice.GroupStepProducts | 04-boundless-typescript/src/slices/change-price.ts:89-96 | one step adds exactly the item's product, when it is changed, to its cart |
| TsChangePrice.GroupHas | 04-boundless-typescript/src/slices/change-price.ts:87-98 | a cart is recorded iff one of its items refers to a changed product |
| TsChangePrice.GroupProducts | 04-boundless-typescript/src/slices/change-price.ts:87-98 | a cart's set is exactly the changed products of that cart's items |
| TsChangePrice.GroupNonEmpty | 04-boundless-typescript/src/slices/change-price.ts:90-95 | no recorded cart has an empty product set |
| TsChangePrice.AffectedCartsContents | 04-boundless-typescript/src/slices/change-price.ts:62-99 | p is listed for cart c iff p changed and a live item of c refers to p |
| TsChangePrice.AffectedCartsNonEmpty | 04-boundless-typescript/src/slices/change-price.ts:62-99 | every affected cart has at least one product |
| TsChangePrice.AffectedIgnoresCartCleared | 04-boundless-typescript/src/slices/change-price.ts:69-84 | CartCleared does not retire items in this index, unlike the carts-with-products view |
| TsChangePrice.ArchiveBatch | 04-boundless-typescript/src/slices/change-price.ts:121-130 | the loop emits one ItemArchived per cart entry of an affected product, in entry order |
| TsChangePrice.RunArchiveProcessor | 04-boundless-typescript/src/slices/change-price.ts:105-141 | the appended batches are those of the archive outcome: none without price changes, one non-empty batch per affected cart |
| TsChangePrice.NoPriceChangesNoArchive | 04-boundless-typescript/src/slices/change-price.ts:110 | with no PriceChanged event nothing is appended |
| TsChangePrice.ArchiveEventsContents | 04-boundless-typescript/src/slices/change-price.ts:123-130 | an event is emitted iff it archives, in this cart, an item whose product is affected |
| TsChangePrice.ArchiveRetiresAffected | 04-boundless-typescript/src/slices/change-price.ts:117-140 | evolving the cart over its batch removes exactly the items of affected products |
| TsChangePrice.ArchiveStepItems | 04-boundless-typescript/src/domain/cart.ts:45-51 | one ItemArchived forgets its item and keeps every other item's product |
| TsChangePrice.ArchiveEventsPrefix | 04-boundless-typescript/src/slices/change-price.ts:123-130 | one more cart entry adds an ItemArchived for it, after the earlier ones, exactly when its product is affected |
| TsChangePrice.ArchivePrefix | 04-boundless-typescript/src/slices/change-price.ts:123-130 | the same, for the events of any prefix of the cart's entries |
| TsConsistency.RulesOf | 04-boundless-typescript/src/store/setup.ts:13-49 | the key rules of an event's type in the consistency table, none for a type without an entry |
| TsConsistency.Extract | 04-boundless-typescript/src/store/setup.ts:13-49 | the keys of an event: each rule whose path resolves on it, with the value found there, in table order; ExtractSingle states the one-rule case |
| TsConsistency.KeysOf | 04-boundless-typescript/src/store/setup.ts:13-49 | the keys of an event under the table; ItemAddedKeys, CartEventKeys, ProductEventKeys and QuantityChangedHasNoKeys state them per type |
| TsConsistency.Resolve | 04-boundless-typescript/src/store/setup.ts:13-49 | the path `data.cartId` resolves on every cart event and `data.productId` on ItemAdded, InventoryChanged and PriceChanged; other paths never resolve |
| TsConsistency.ExtractSingle | 04-boundless-typescript/src/store/setup.ts:13-49 | one rule yields its key exactly when its path resolves |
| TsConsistency.ItemAddedKeys | 04-boundless-typescript/src/store/setup.ts:18-23 | ItemAdded carries the keys cart and product, in that order |
| TsConsistency.ProductEventKeys | 04-boundless-typescript/src/store/setup.ts:42-47 | InventoryChanged and PriceChanged carry only their product key |
| TsConsistency.CartEventKeys | 04-boundless-typescript/src/store/setup.ts:15-41 | every other listed event carries exactly its cart key |
| TsConsistency.QuantityChangedHasNoKeys | 04-boundless-typescript/src/store/setup.ts:14-48 | ItemQuantityChanged has no table entry and so no consistency key |
| TsConsistency.TableCoversTypes | 04-boundless-typescript/src/domain/events.ts:85-97 | the table names every event type except ItemQuantityChanged, and nothing else |
| TsConsistency.EveryRuleResolves | 04-boundless-typescript/src/store/setup.ts:13-49 | every rule of the table reads a path its event type has |
| TsDeciders.AddItemDecider | 04-boundless-typescript/src/slices/add-item.ts:15-41 | rejects iff the cart already holds 3 items; otherwise an ItemAdded with the command's fields, preceded by CartCreated iff the cart has no id |
| TsDeciders.AddItemThenEvolve | 04-boundless-typescript/src/slices/add-item.ts:15-41 | folding the accepted events in puts the item and its price in the cart, sets the id if absent, and grows the cart by at most one |
| TsDeciders.AddItemToEmptyCart | 04-boundless-typescript/test/add-item.test.ts:7-25 | the empty cart yields exactly CartCreated then ItemAdded |
| TsDeciders.AddFourthItemRejected | 04-boundless-typescript/test/add-item.test.ts:27-47 | after three added items a fourth is rejected as too many |
| TsDeciders.ThreeItems | 04-boundless-typescript/test/add-item.test.ts:27-47 | the three-item history rebuilds a cart of exactly 3 items |
| TsDeciders.AddFresh | 04-boundless-typescript/src/domain/cart.ts:28-34 | adding an item not yet in the cart grows it by exactly that item |
| TsDeciders.RemoveItemDecider | 04-boundless-typescript/src/slices/remove-item.ts:23-34 | rejects iff the item is not in the cart; otherwise exactly one ItemRemoved |
| TsDeciders.RemoveItemThenEvolve | 04-boundless-typescript/test/remove-item.test.ts:22-34 | once the ItemRemoved is folded in the item is gone, the cart is one smaller, and removing it again is rejected |
| TsDeciders.RemoveItemDependsOnMembership | 04-boundless-typescript/src/slices/remove-item.ts:24 | only whether the item is in the cart decides the outcome |
| TsDeciders.ClearCartDecider | 04-boundless-typescript/src/slices/clear-cart.ts:10-21 | rejects iff the cart has no id; otherwise one CartCleared for the state's own cart id |
| TsDeciders.ClearCartThenEvolve | 04-boundless-typescript/src/slices/clear-cart.ts:10-21 | folding the CartCleared in empties the items and keeps prices and flags |
| TsDeciders.ClearCartDependsOnCartId | 04-boundless-typescript/src/slices/clear-cart.ts:11 | only the cart id decides the outcome |
| TsDeciders.ChangeItemQuantityDecider | 04-boundless-typescript/src/slices/change-item-quantity.ts:12-34 | accepts iff the item is in the cart and the quantity is at least 1; an absent item is reported first |
| TsDeciders.ChangeItemQuantityIgnoresFlags | 04-boundless-typescript/src/slices/change-item-quantity.ts:16-22 | only the cart's items decide the outcome |
| TsDeciders.ChangeItemQuantityThenEvolve | 04-boundless-typescript/src/domain/cart.ts:66-67 | the accepted ItemQuantityChanged leaves the cart state unchanged |
| TsInventories.InventoriesView | 04-boundless-typescript/src/slices/inventories.ts:5-16 | the inventories record as a last-write-wins replay in which only InventoryChanged writes; InventoriesKeys, InventoriesLastWins and InventoriesIgnoreOthers state its contents |
| TsInventories.ProjectInventories | 04-boundless-typescript/src/slices/inventories.ts:5-16 | the loop's record equals the last-write map of the InventoryChanged events |
| TsInventories.InventoriesEmpty | 04-boundless-typescript/src/slices/inventories.ts:6 | no events give the empty record |
| TsInventories.InventoriesKeys | 04-boundless-typescript/src/slices/inventories.ts:8-13 | a product is a key iff some InventoryChanged names it |
| TsInventories.InventoriesLastWins | 04-boundless-typescript/src/slices/inventories.ts:11 | a product's inventory is that of its last InventoryChanged |
| TsInventories.InventoriesIgnoreOthers | 04-boundless-typescript/src/slices/inventories.ts:9 | inserting any other event anywhere leaves the record unchanged |
| TsOrders.Total | 04-boundless-typescript/src/slices/orders.ts:17 | the `reduce` from 0 of the ordered products' totals; TotalAppend and TotalSingle state its laws |
| TsOrders.OrderOf | 04-boundless-typescript/src/slices/orders.ts:16-22 | the order a CartSubmitted event gives: its cart id, its ordered products and their Total |
| TsOrders.Orders | 04-boundless-typescript/src/slices/orders.ts:11-27 | one OrderOf per CartSubmitted event, in event order; OrdersAppend, OrdersSingle, SubmittedOnly and OrdersCount state its laws |
| TsOrders.ProjectOrders | 04-boundless-typescript/src/slices/orders.ts:11-27 | the loop's list equals the orders defined by the fold |
| TsOrders.TotalAppend | 04-boundless-typescript/src/slices/orders.ts:17 | the summed total is additive over concatenation |
| TsOrders.TotalSingle | 04-boundless-typescript/src/slices/orders.ts:17 | the total of one product is its own total price |
| TsOrders.OrdersAppend | 04-boundless-typescript/src/slices/orders.ts:14-24 | projecting a concatenation concatenates the projections, so orders follow event order |
| TsOrders.OrdersSingle | 04-boundless-typescript/src/slices/orders.ts:15-23 | one event yields one order iff it is a CartSubmitted, with its cart, its products and their summed total |
| TsOrders.SubmittedOnly | 04-boundless-typescript/src/slices/orders.ts:15 | the selection holds CartSubmitted events only |
| TsOrders.OrdersCount | 04-boundless-typescript/src/slices/orders.ts:11-27 | there are as many orders as CartSubmitted events, and the k-th order is built from the k-th one |
| TsOrders.NoSubmissionsNoOrders | 04-boundless-typescript/src/slices/orders.ts:15 | without CartSubmitted events there are no orders |
| TsOrders.ProjectsOrdersFromCartSubmitted | 04-boundless-typescript/test/orders.test.ts:6-40 | two submissions give two orders with totals 7998 and 1999 |
| TsOrders.ReturnsEmptyWhenNoSubmissions | 04-boundless-typescript/test/orders.test.ts:42-60 | a history with no CartSubmitted gives no orders |
| TsSubmit.StockOf | 04-boundless-typescript/src/slices/submit-cart.ts:21 | `inventories.get(productId) ?? 0`: the recorded inventory of a product, 0 when it has none |
| TsSubmit.InStock | 04-boundless-typescript/src/slices/submit-cart.ts:21-22 | a product is in stock when its StockOf is positive; FirstOutOfStock and CheckInventory decide on it |
| TsSubmit.BuildInventories | 04-boundless-typescript/src/slices/submit-cart.ts:11-17 | the loop's map equals the last-write map of the InventoryChanged events |
| TsSubmit.FirstOutOfStock | 04-boundless-typescript/src/slices/submit-cart.ts:19-26 | None iff every product is in stock; otherwise the first product in cart order whose stock, 0 when missing, is not positive |
| TsSubmit.CheckInventory | 04-boundless-typescript/src/slices/submit-cart.ts:19-26 | succeeds iff every cart product has positive stock; the rejection names an out-of-stock product of the cart |
| TsSubmit.Decrements | 04-boundless-typescript/src/slices/submit-cart.ts:53-63 | one InventoryChanged per product, in order, each one below the current stock (0 when missing) |
| TsSubmit.SubmitCart | 04-boundless-typescript/src/slices/submit-cart.ts:28-66 | stock is checked first, then emptiness, then the submitted flag; success is CartSubmitted followed by one decrement per cart item in cart order |
| TsSubmit.SubmitEvents | 04-boundless-typescript/src/slices/submit-cart.ts:43-65 | CartSubmitted with the command's products, then one decrement per cart item |
| TsSubmit.SubmitCartDecider | 04-boundless-typescript/src/slices/submit-cart.ts:28-66 | the method with its early exits and push loop returns exactly the outcome above |
| TsSubmit.PushDecrements | 04-boundless-typescript/src/slices/submit-cart.ts:53-63 | the push loop yields one InventoryChanged per cart entry, in entry order, with that product's stock (0 when unknown) minus one |
| TsSubmit.SubmitCartLastEvent | 04-boundless-typescript/src/slices/submit-cart.ts:53-65 | a successful submit ends with the InventoryChanged of the last cart item, not with CartSubmitted |
| TsSubmit.SubmitThenSubmitAgain | 04-boundless-typescript/src/slices/submit-cart.ts:39-41 | once the emitted events are folded in the cart is submitted, its items unchanged, and a second submit is rejected |
| TsSubmit.UnlistedFold | 04-boundless-typescript/src/domain/cart.ts:66-67 | folding InventoryChanged events leaves a cart state unchanged |
| TsSubmit.TwoItemState | 04-boundless-typescript/test/submit-cart.test.ts:89-94 | the two-item history rebuilds items i1 to p1 and i2 to p2, not submitted |
| TsSubmit.TwoWrites | 04-boundless-typescript/src/slices/submit-cart.ts:11-17 | two InventoryChanged events give the map of both writes |
| TsSubmit.CantSubmitNoProductsInStock | 04-boundless-typescript/test/submit-cart.test.ts:21-39 | with no inventory at all the submit is rejected, naming p1 |
| TsSubmit.CantSubmitNoQuantity | 04-boundless-typescript/test/submit-cart.test.ts:41-62 | with zero inventory the submit is rejected, naming p1 |
| TsSubmit.CantSubmitCartTwice | 04-boundless-typescript/test/submit-cart.test.ts:64-86 | a submitted cart is rejected as already submitted |
| TsSubmit.ShouldSubmit | 04-boundless-typescript/test/submit-cart.test.ts:88-109 | in stock, the submit yields CartSubmitted then the decrements p1 to 0 and p2 to 1 |
| TsSubmit.SubmitEmptyCartFails | 04-boundless-typescript/test/submit-cart.test.ts:111-130 | a cleared cart is rejected as empty |
| CsCart.EvolveAsWritten | 03-decider-model/Shopping.Cart/Domain/Cart.cs:16-67 | the step as written: ItemRemoved throws KeyNotFound for an absent item and otherwise drops the item and its product's price; ItemArchived removes the item and then looks it up, so it always throws; the other cases set the id, add the item and its price, clear the items or raise a flag. EvolveItemRemovedAsWritten and ArchivedAlwaysThrows state what it does |
| CsCart.RetireItem | 03-decider-model/Shopping.Cart/Domain/Cart.cs:28-41 | the corrected removal: KeyNotFound for an absent item, otherwise the item goes and its product's price goes only when no remaining item refers to that product |
| CsCart.Evolve | 03-decider-model/Shopping.Cart/Domain/Cart.cs:16-67 | the corrected step: ItemRemoved and ItemArchived are both RetireItem, every other event as written; EvolveRetires and EvolveAgrees relate it to the step as written |
| CsCart.FoldWith | 03-decider-model/Shopping.Cart/Domain/Cart.cs:16-67 | `events.Aggregate(state, step)`: the events applied left to right, the first throw ending the fold; FoldAppend and FoldSnoc state its laws |
| CsCart.BuildAsWritten | 03-decider-model/Shopping.Cart/Domain/Cart.cs:13-67 | the cart rebuilt from `Initial` with the step as written; ArchivedBreaksFold states that an ItemArchived anywhere ends it with a throw |
| CsCart.Build | 03-decider-model/Shopping.Cart/Domain/Cart.cs:13-67 | the cart rebuilt from `Initial` with the corrected step; the deciders use it, and BuildPricesCovered states that every item's product of a built cart has a price |
| CsCart.PricesCovered | 03-decider-model/Shopping.Cart/Slices/SubmitCartDecider.cs:27-35 | every product an item refers to has a price, which the submit decider's price lookups need; EvolveKeepsPricesCovered states that the corrected step keeps it |
| CsCart.BuildEmpty | 03-decider-model/Shopping.Cart/Domain/Cart.cs:13-14 | folding no events yields `Initial`: no cart id, items, prices or flags |
| CsCart.FoldAppend | 03-decider-model/Shopping.Cart/Domain/Cart.cs:16-67 | folding a concatenation continues from the state the first part reached, and a throw in the first part ends it |
| CsCart.FoldSnoc | 03-decider-model/Shopping.Cart/Domain/Cart.cs:16-67 | folding one more event is one more step, unless the fold already threw |
| CsCart.EvolveItemAdded | 03-decider-model/Shopping.Cart/Domain/Cart.cs:22-27 | ItemAdded maps the item to its product and the product to its price; nothing else changes; both steps agree |
| CsCart.EvolveFreshItem | 03-decider-model/Shopping.Cart/Domain/Cart.cs:22-27 | a new item id is appended at the end of the items |
| CsCart.EvolveItemRemovedAsWritten | 03-decider-model/Shopping.Cart/Domain/Cart.cs:28-41 | as written, ItemRemoved throws iff the item is absent; otherwise the item and its product's price go, whatever other items refer to that product |
| CsCart.EvolveRemovedAsWrittenValue | 03-decider-model/Shopping.Cart/Domain/Cart.cs:28-41 | as written, removing a present item yields exactly the cart without the item and without its product's price |
| CsCart.ArchivedAlwaysThrows | 03-decider-model/Shopping.Cart/Domain/Cart.cs:42-55 | as written, ItemArchived throws on every state, since the item is removed before it is looked up |
| CsCart.ArchivedBreaksFold | 03-decider-model/Shopping.Cart/Domain/Cart.cs:42-55 | as written, no stream that holds an ItemArchived can be folded |
| CsCart.EvolveRetires | 03-decider-model/Shopping.Cart/Domain/Cart.cs:28-55 | corrected, ItemRemoved and ItemArchived throw iff the item is absent; otherwise only that item goes, and its product's price goes iff no remaining item refers to the product |
| CsCart.EvolveCartCleared | 03-decider-model/Shopping.Cart/Domain/Cart.cs:58-59 | CartCleared empties the items and keeps prices, cart id and flags |
| CsCart.EvolveFlags | 03-decider-model/Shopping.Cart/Domain/Cart.cs:56-63 | CartSubmitted, CartPublished and CartPublicationFailed each set their own flag and nothing else |
| CsCart.EvolveOthers | 03-decider-model/Shopping.Cart/Domain/Cart.cs:64-65 | other events leave the state unchanged |
| CsCart.EvolveAgrees | 03-decider-model/Shopping.Cart/Domain/Cart.cs:16-67 | the corrected and the written step agree except on ItemArchived and on removing an item whose product another item shares |
| CsCart.EvolveKeepsPricesCovered | 03-decider-model/Shopping.Cart/Domain/Cart.cs:16-67 | the corrected step keeps a price for every item's product |
| CsCart.AddKeepsPricesCovered | 03-decider-model/Shopping.Cart/Domain/Cart.cs:22-27 | adding an item sets its product's price, so every item's product stays priced |
| CsCart.RetireKeepsPricesCovered | 03-decider-model/Shopping.Cart/Domain/Cart.cs:28-55 | the corrected removal keeps a price for every remaining item's product |
| CsCart.FoldKeepsPricesCovered | 03-decider-model/Shopping.Cart/Domain/Cart.cs:16-67 | every state the corrected fold reaches from a covered state is covered |
| CsCart.BuildPricesCovered | 03-decider-model/Shopping.Cart/Domain/Cart.cs:13-67 | every cart the corrected fold rebuilds has a price for each item's product |
| CsCart.EvolveFlagsStick | 03-decider-model/Shopping.Cart/Domain/Cart.cs:56-63 | no corrected step resets a flag |
| CsDeciders.AddItem | 03-decider-model/Shopping.Cart/Slices/AddItemDecider.cs:18-41 | rejects iff the cart holds 3 or more items; otherwise an ItemAdded with the command's fields, preceded by CartCreated iff the cart has no id |
| CsDeciders.AddItemThenEvolve | 03-decider-model/Shopping.Cart/Slices/AddItemDecider.cs:18-41 | folding the accepted events succeeds, gives the cart an id and records the item and its price |
| CsDeciders.RemoveItem | 03-decider-model/Shopping.Cart/Slices/RemoveItemDecider.cs:9-17 | rejects iff the item is not in the cart; otherwise exactly one ItemRemoved |
| CsDeciders.RemoveItemOnlyReadsMembership | 03-decider-model/Shopping.Cart/Slices/RemoveItemDecider.cs:11 | only whether the item is in the cart decides the outcome |
| CsDeciders.RemoveItemThenEvolve | 03-decider-model/Shopping.Cart/Slices/RemoveItemDecider.cs:9-17 | folding the accepted event removes the item, so a second removal is rejected |
| CsDeciders.CheckInventory | 03-decider-model/Shopping.Cart/Slices/SubmitCartDecider.cs:38-47 | passes iff every item's product is in the inventory view with a positive count |
| CsDeciders.PricesOf | 03-decider-model/Shopping.Cart/Slices/SubmitCartDecider.cs:27-31 | succeeds iff every item's product has a price, giving (product, price) per item in order; otherwise a missing product's KeyNotFound |
| CsDeciders.SubmitCart | 03-decider-model/Shopping.Cart/Slices/SubmitCartDecider.cs:11-36 | stock first, then emptiness, then double submission; success is one CartSubmitted with the state's cart id, the (product, price) of each item in order, and their sum; a crash happens only without a cart id or a price |
| CsDeciders.SubmitIgnoresCommand | 03-decider-model/Shopping.Cart/Slices/SubmitCartDecider.cs:11-36 | the outcome does not depend on the command's products |
| CsDeciders.SubmitBuiltCartNeverCrashes | 03-decider-model/Shopping.Cart/Slices/SubmitCartDecider.cs:25-35 | a created cart rebuilt by the corrected fold never crashes the submit decider |
| CsDeciders.SharedProductState | 03-decider-model/Shopping.Cart/Domain/Cart.cs:28-41 | as written, two items of one product followed by removing one leaves the other item with no price |
| CsDeciders.SharedProductRemovalCrashesSubmit | 03-decider-model/Shopping.Cart/Slices/SubmitCartDecider.cs:31-35 | as written, that cart makes the submit decider throw KeyNotFound although the product is in stock |
| CsDeciders.PublishCart | 03-decider-model/Shopping.Cart/Slices/PublishCartDecider.cs:15-41 | the message copied from the command is always sent first; CartPublished iff the publish succeeds and the cart is submitted and not yet published, else CartPublicationFailed |
| CsDeciders.PublishThenPublish | 03-decider-model/Shopping.Cart/Slices/PublishCartDecider.cs:30-33 | once a publication is folded in, a further publish fails even with a working publisher |
| CsDeciders.TwoItemState | 03-decider-model/Shopping.Cart.Tests/SubmitCartCommandHandlerTests.cs:121-126 | the two-item stream rebuilds the cart with both items and their prices |
| CsDeciders.CartSessionCreatedAutomatically | 03-decider-model/Shopping.Cart.Tests/AddItemDeciderTests.cs:9-28 | on a state with no cart the decider emits CartCreated then ItemAdded |
| CsDeciders.AddsMaximum3Items | 03-decider-model/Shopping.Cart.Tests/AddItemDeciderTests.cs:30-54 | after three items a fourth is rejected as too many |
| CsDeciders.RemoveItemTest | 03-decider-model/Shopping.Cart.Tests/RemoveItemCommandTests.cs:9-24 | removing a present item emits ItemRemoved |
| CsDeciders.RemoveItemWhichWasAlreadyRemovedThrows | 03-decider-model/Shopping.Cart.Tests/RemoveItemCommandTests.cs:26-45 | removing an already removed item is rejected |
| CsDeciders.CantSubmitNoProductsInStock | 03-decider-model/Shopping.Cart.Tests/SubmitCartCommandHandlerTests.cs:9-39 | with no inventory the submit is rejected as not in stock |
| CsDeciders.CantSubmitNoQuantity | 03-decider-model/Shopping.Cart.Tests/SubmitCartCommandHandlerTests.cs:41-74 | with zero inventory the submit is rejected as not in stock |
| CsDeciders.CantSubmitCartTwice | 03-decider-model/Shopping.Cart.Tests/SubmitCartCommandHandlerTests.cs:76-113 | a submitted cart is rejected as submitted twice |
| CsDeciders.ShouldSubmit | 03-decider-model/Shopping.Cart.Tests/SubmitCartCommandHandlerTests.cs:115-149 | in stock, the submit yields one CartSubmitted with both products at price 10 and total 20 |
| CsDeciders.SubmitEmptyCartFails | 03-decider-model/Shopping.Cart.Tests/SubmitCartCommandHandlerTests.cs:151-179 | a cleared cart is rejected as empty |
| CsDeciders.PublishesCart | 03-decider-model/Shopping.Cart.Tests/PublishCartTests.cs:10-62 | a submitted cart publishes as CartPublished, and as CartPublicationFailed when the publisher fails |
| CsDeciders.CannotPublishTwice | 03-decider-model/Shopping.Cart.Tests/PublishCartTests.cs:64-88 | a published cart's second publish yields CartPublicationFailed |
| CsInventories.Inventories | 03-decider-model/Shopping.Cart/Slices/InventoriesSV.cs:7-20 | the inventories dictionary as a last-write-wins replay in which only InventoryChanged writes; InventoriesKeys, InventoriesLastWins and InventoriesIgnoreOthers state its contents |
| CsInventories.Project | 03-decider-model/Shopping.Cart/Slices/InventoriesSV.cs:7-20 | the loop's dictionary equals the last-write map of the InventoryChanged events |
| CsInventories.InventoriesEmpty | 03-decider-model/Shopping.Cart/Slices/InventoriesSV.cs:9 | an empty stream gives the empty dictionary |
| CsInventories.InventoriesKeys | 03-decider-model/Shopping.Cart/Slices/InventoriesSV.cs:11-16 | a product is a key iff some InventoryChanged names it |
| CsInventories.InventoriesLastWins | 03-decider-model/Shopping.Cart/Slices/InventoriesSV.cs:14 | a product's inventory is that of its last InventoryChanged |
| CsInventories.InventoriesIgnoreOthers | 03-decider-model/Shopping.Cart/Slices/InventoriesSV.cs:11-16 | inserting any other event anywhere leaves the dictionary unchanged |
| CsInventories.InventoriesOfTwo | 03-decider-model/Shopping.Cart.Tests/SubmitCartCommandHandlerTests.cs:128-134 | two InventoryChanged events for two products yield both inventories |
| CsSubmittedCartData.SubmittedCarts | 02-command-handler-without-es/Shopping.Cart/Slices/SubmittedCartDataSV.cs:12-33 | the view of a stream: Step applied to each event in order from the empty list; Project is proved equal to it, and SubmittedCartsArePending relates it to Pending |
| CsSubmittedCartData.PublishedAfter | 02-command-handler-without-es/Shopping.Cart/Slices/SubmittedCartDataSV.cs:24-26 | a later event of the stream publishes the cart |
| CsSubmittedCartData.Pending | 02-command-handler-without-es/Shopping.Cart/Slices/SubmittedCartDataSV.cs:14-30 | the independent description of the view: in event order, the entry of every CartSubmitted whose cart no later CartPublished publishes |
| CsSubmittedCartData.RemoveCart | 02-command-handler-without-es/Shopping.Cart/Slices/SubmittedCartDataSV.cs:25 | `RemoveAll` keeps exactly the entries of the other carts, never grows, and changes nothing when no entry matches |
| CsSubmittedCartData.Step | 02-command-handler-without-es/Shopping.Cart/Slices/SubmittedCartDataSV.cs:16-29 | CartSubmitted appends its entry after the others; CartPublished keeps exactly the entries of other carts; every other event changes nothing |
| CsSubmittedCartData.Project | 02-command-handler-without-es/Shopping.Cart/Slices/SubmittedCartDataSV.cs:12-33 | the loop's list equals the view defined by the fold |
| CsSubmittedCartData.PublishedAfterSnoc | 02-command-handler-without-es/Shopping.Cart/Slices/SubmittedCartDataSV.cs:24-26 | after one more event a cart is published later iff it was, or the event publishes it |
| CsSubmittedCartData.PendingSnoc | 02-command-handler-without-es/Shopping.Cart/Slices/SubmittedCartDataSV.cs:14-30 | the independent description takes the same step as the projector on each new event |
| CsSubmittedCartData.SubmittedCartsArePending | 02-command-handler-without-es/Shopping.Cart/Slices/SubmittedCartDataSV.cs:12-33 | the view is, in event order, exactly the submissions whose cart is not published afterwards |
| CsSubmittedCartData.SubmittedCartsEmpty | 02-command-handler-without-es/Shopping.Cart/Slices/SubmittedCartDataSV.cs:14 | an empty stream gives the empty list |
| CsSubmittedCartData.PendingMembers | 02-command-handler-without-es/Shopping.Cart/Slices/SubmittedCartDataSV.cs:18-26 | an entry is pending iff it comes from a submission with no later publication of its cart |
| CsSubmittedCartData.SubmittedCartsMembers | 02-command-handler-without-es/Shopping.Cart/Slices/SubmittedCartDataSV.cs:12-33 | an entry is in the view iff its CartSubmitted occurred and its cart was not published later |
| CsSubmittedCartData.PublishRemovesCart | 02-command-handler-without-es/Shopping.Cart/Slices/SubmittedCartDataSV.cs:24-26 | after CartPublished no entry of that cart is left, and no other entry is lost |
| CsAggregate.RetireItem | Shopping.Cart/Domain/CartAggregate.cs:68-72 | ItemRemoved and ItemArchived as applied: the indexer throws KeyNotFound for an absent item, otherwise the item and its product's price go |
| CsAggregate.ApplySpec | Shopping.Cart/Domain/CartAggregate.cs:170-199 | `Apply`: the `ApplyEvent` overload of the event's type; ItemAdded throws for an itemId already present, CartCleared empties items and prices, the flag events raise their flag, and an unmatched type changes nothing. The ApplyX lemmas state each case and CartAggregate.Apply is proved equal to it |
| CsAggregate.HydrateSpec | Shopping.Cart/Domain/CartAggregate.cs:162-168 | `Hydrate`: ApplySpec on each event in order, the first throw ending it; HydrateAppend and HydrateSnoc state its laws |
| CsAggregate.Raise | Shopping.Cart/Domain/CartAggregate.cs:156-160 | `RaiseEvent`: the event is recorded, then applied; a throwing apply leaves the fields as they were and reports the crash; RaiseReplays states that replaying the recorded event gives the new fields |
| CsAggregate.Then | Shopping.Cart/Domain/CartAggregate.cs:156-160 | a second RaiseEvent after one that threw nothing: the recorded events are concatenated; ThenReplays states the replay |
| CsAggregate.AddItemSpec | Shopping.Cart/Domain/CartAggregate.cs:25-45 | `AddItem`: CartCreated first when the aggregate has no id, then TooManyItemsInCart at three items and more, else ItemAdded; AddItemOnFresh, AddItemTooMany and AddItemBelowMax state the cases |
| CsAggregate.RemoveItemSpec | Shopping.Cart/Domain/CartAggregate.cs:58-66 | `RemoveItem`: ItemCanNotBeRemoved for an absent item, nothing recorded; otherwise ItemRemoved is raised |
| CsAggregate.ClearSpec | Shopping.Cart/Domain/CartAggregate.cs:74-77 | `Clear`: `cartId.Value` throws on a cart never created; otherwise CartClearedCommand is raised, which Apply ignores |
| CsAggregate.ArchiveItemSpec | Shopping.Cart/Domain/CartAggregate.cs:85-88 | `ArchiveItem`: raises ItemArchived with the command's ProductId as the item id, as written |
| CsAggregate.SubmitCartSpec | Shopping.Cart/Domain/CartAggregate.cs:96-119 | `SubmitCart`: CannotSubmitEmptyCart, then CartCannotBeSubmittedTwice; then a missing id or a missing price throws before anything is raised; otherwise CartSubmitted with the priced products and their total |
| CsAggregate.PublishSpec | Shopping.Cart/Domain/CartAggregate.cs:126-139 | `Publish`: CannotPublishUnsubmittedCart, then CartCannotBePublishedTwice; otherwise CartPublished is raised |
| CsAggregate.PublishFailedSpec | Shopping.Cart/Domain/CartAggregate.cs:146-149 | `PublishFailed`: CartPublicationFailed is raised with no guard |
| CsAggregate.ApplyItemAdded | Shopping.Cart/Domain/CartAggregate.cs:52-56 | ItemAdded throws iff the ItemId is already present (`Dictionary.Add`); otherwise it appends the item and sets its product's price |
| CsAggregate.ApplyRetires | Shopping.Cart/Domain/CartAggregate.cs:68-94 | ItemRemoved and ItemArchived throw iff the item is absent; otherwise only that item and its product's price go |
| CsAggregate.ApplyClears | Shopping.Cart/Domain/CartAggregate.cs:79-83 | CartCleared empties items and prices; CartClearedCommand matches no case and changes nothing |
| CsAggregate.ApplyFlagsStick | Shopping.Cart/Domain/CartAggregate.cs:170-199 | no applied event resets a flag |
| CsAggregate.AddItemOnFresh | Shopping.Cart/Domain/CartAggregate.cs:25-45 | on a fresh aggregate AddItem records CartCreated then ItemAdded and holds the one item |
| CsAggregate.AddItemTooMany | Shopping.Cart/Domain/CartAggregate.cs:32-35 | at three items AddItem throws with the cart id it has by then, and a CartCreated raised before the check stays recorded |
| CsAggregate.AddItemBelowMax | Shopping.Cart/Domain/CartAggregate.cs:25-45 | below three items ItemAdded is recorded last, after CartCreated when there is no id; it succeeds iff the ItemId is new |
| CsAggregate.RemoveItemRejectsAbsent | Shopping.Cart/Domain/CartAggregate.cs:58-66 | RemoveItem throws iff the item is absent, recording nothing; otherwise it records ItemRemoved and the item is gone |
| CsAggregate.ClearKeepsItems | Shopping.Cart/Domain/CartAggregate.cs:74-77 | Clear records CartClearedCommand for the aggregate's id and keeps items and prices; without an id it throws before recording |
| CsAggregate.ArchiveItemByProductId | Shopping.Cart/Domain/CartAggregate.cs:85-88 | ArchiveItem records an ItemArchived whose ItemId is the command's ProductId; it throws unless some item has that id |
| CsAggregate.SubmitCartGuards | Shopping.Cart/Domain/CartAggregate.cs:96-119 | empty, then already submitted, are rejected without effect; it succeeds iff there is an id and every product is priced, recording one CartSubmitted with the items' (product, price) in order and their sum |
| CsAggregate.PublishGuards | Shopping.Cart/Domain/CartAggregate.cs:126-139 | unsubmitted, then already published, are rejected without effect; otherwise CartPublished is recorded and the cart is published |
| CsAggregate.PublishFailedRecords | Shopping.Cart/Domain/CartAggregate.cs:146-154 | PublishFailed records CartPublicationFailed and sets that flag |
| CsAggregate.HydrateAppend | Shopping.Cart/Domain/CartAggregate.cs:162-168 | hydrating a concatenation continues from the first part's state, and a throw ends it |
| CsAggregate.HydrateOne | Shopping.Cart/Domain/CartAggregate.cs:162-168 | hydrating one event is applying it |
| CsAggregate.RaiseReplays | Shopping.Cart/Domain/CartAggregate.cs:156-160 | the recorded event, hydrated from the prior state, gives the new state, or throws the same fault |
| CsAggregate.ThenReplays | Shopping.Cart/Domain/CartAggregate.cs:156-160 | raising one more event keeps the recorded events replayable |
| CsAggregate.AddItemReplays | Shopping.Cart/Domain/CartAggregate.cs:25-45 | AddItem's recorded events replay to its resulting state |
| CsAggregate.CommandsReplay | Shopping.Cart/Domain/CartAggregate.cs:58-154 | the recorded events of every other command replay to its resulting state |
| CsAggregate.CartAggregate.constructor | Shopping.Cart/Domain/CartAggregate.cs:7-18 | a new aggregate has no cart, items, prices or flags and nothing recorded |
| CsAggregate.CartAggregate.Apply | Shopping.Cart/Domain/CartAggregate.cs:170-199 | the fields become the applied state, or stay as they were when the apply throws; nothing is recorded |
| CsAggregate.CartAggregate.RemoveEntry | Shopping.Cart/Domain/CartAggregate.cs:68-72 | the fields lose the item and its price, or stay when the indexer throws |
| CsAggregate.CartAggregate.RaiseEvent | Shopping.Cart/Domain/CartAggregate.cs:156-160 | the event is recorded, then applied |
| CsAggregate.CartAggregate.Hydrate | Shopping.Cart/Domain/CartAggregate.cs:162-168 | the loop leaves the hydrated state, or reports the fault of the first throwing event; nothing is recorded |
| CsAggregate.CartAggregate.AddItem | Shopping.Cart/Domain/CartAggregate.cs:25-45 | records and applies exactly what the AddItem outcome says |
| CsAggregate.CartAggregate.RemoveItem | Shopping.Cart/Domain/CartAggregate.cs:58-66 | records and applies exactly what the RemoveItem outcome says |
| CsAggregate.CartAggregate.Clear | Shopping.Cart/Domain/CartAggregate.cs:74-77 | records and applies exactly what the Clear outcome says |
| CsAggregate.CartAggregate.ArchiveItem | Shopping.Cart/Domain/CartAggregate.cs:85-88 | records and applies exactly what the ArchiveItem outcome says |
| CsAggregate.CartAggregate.SubmitCart | Shopping.Cart/Domain/CartAggregate.cs:96-119 | records and applies exactly what the SubmitCart outcome says |
| CsAggregate.CartAggregate.Publish | Shopping.Cart/Domain/CartAggregate.cs:126-139 | records and applies exactly what the Publish outcome says |
| CsAggregate.CartAggregate.PublishFailed | Shopping.Cart/Domain/CartAggregate.cs:146-149 | records and applies CartPublicationFailed |
| CsAggregate.HydrateCreatedAndItem | Shopping.Cart.Tests/RemoveItemCommandTests.cs:14-17 | CartCreated and one item hydrate to a cart with that item priced 10 |
| CsAggregate.CartSessionCreatedAutomatically | Shopping.Cart.Tests/UnitTest1.cs:6-24 | AddItem on an empty stream records two events, CartCreated first |
| CsAggregate.AddFreshItem | Shopping.Cart/Domain/CartAggregate.cs:52-56 | hydrating an item with a new id appends it priced 10 |
| CsAggregate.HydrateSnoc | Shopping.Cart/Domain/CartAggregate.cs:162-168 | hydrating one more event continues from the state so far |
| CsAggregate.HydrateTwoItems | Shopping.Cart/Domain/CartAggregate.cs:162-168 | CartCreated and two items hydrate to that two-item cart |
| CsAggregate.HydrateThreeItems | Shopping.Cart.Tests/UnitTest1.cs:31-36 | CartCreated and three items hydrate to a cart with an id and three items |
| CsAggregate.AddsMaximum3Items | Shopping.Cart.Tests/UnitTest1.cs:27-51 | with three items hydrated AddItem throws TooManyItemsInCart and records nothing |
| CsAggregate.RemoveItemTest | Shopping.Cart.Tests/RemoveItemCommandTests.cs:9-22 | removing a hydrated item records exactly ItemRemoved |
| CsAggregate.RemoveItemWhichWasAlreadyRemovedThrows | Shopping.Cart.Tests/RemoveItemCommandTests.cs:25-44 | removing an item already removed throws ItemCanNotBeRemoved and records nothing |
| CsCartsWithProducts.ClearedItemIds | Shopping.Cart/Slices/CartsWithProductsSV.cs:45-55 | `ClearItemIds` as written: for each pair of the cleared cart in turn, every index entry whose product is that pair's product goes, whichever cart its item is in; ClearedItemIdsMembers states what is left |
| CsCartsWithProducts.RetireItem | Shopping.Cart/Slices/CartsWithProductsSV.cs:24-31 | ItemRemoved and ItemArchived: when the event's cart has a pair, an unknown item throws KeyNotFound and a known one drops the pair of that cart and product; the index entry goes in either case. RetireItemOutcome states the cases |
| CsCartsWithProducts.Step | Shopping.Cart/Slices/CartsWithProductsSV.cs:15-37 | one event of the `Aggregate`: ItemAdded adds its pair when new and indexes the item; the removals are RetireItem; CartClearedCommand drops the cart's pairs and runs ClearedItemIds over them; other events change nothing. ApplyEvent is proved equal to it |
| CsCartsWithProducts.ViewOf | Shopping.Cart/Slices/CartsWithProductsSV.cs:13-40 | the fold of Step over the stream from the empty view, the first throw ending it; ViewSnoc and ViewErrSticks state its laws |
| CsCartsWithProducts.CartsWithProducts | Shopping.Cart/Slices/CartsWithProductsSV.cs:9-43 | the list `Project` returns, or the fault that ended the fold; Project is proved equal to it and CartsWithProductsDistinct states it holds no pair twice |
| CsCartsWithProducts.RemovePair | Shopping.Cart/Slices/CartsWithProductsSV.cs:25 | `RemoveAll` of one pair keeps exactly the other pairs and keeps them distinct |
| CsCartsWithProducts.RemoveCartPairs | Shopping.Cart/Slices/CartsWithProductsSV.cs:34 | `RemoveAll` of a cart keeps exactly the pairs of other carts and keeps them distinct |
| CsCartsWithProducts.PairsOf | Shopping.Cart/Slices/CartsWithProductsSV.cs:33 | the `Where` list holds exactly the pairs of the cleared cart |
| CsCartsWithProducts.ClearStep | Shopping.Cart/Slices/CartsWithProductsSV.cs:49-53 | visiting one entry of the enumerated snapshot extends the filtered prefix by that entry |
| CsCartsWithProducts.ClearItemIds | Shopping.Cart/Slices/CartsWithProductsSV.cs:45-55 | the nested loops leave the dictionary the specification function `ClearedItemIds` describes |
| CsCartsWithProducts.ClearedItemIdsMembers | Shopping.Cart/Slices/CartsWithProductsSV.cs:45-55 | an entry survives `ClearItemIds` iff it was present and its value is none of the pairs' products, whichever cart its item was in |
| CsCartsWithProducts.ApplyEvent | Shopping.Cart/Slices/CartsWithProductsSV.cs:13-40 | the `Aggregate` lambda computes the step function, including the KeyNotFound exception |
| CsCartsWithProducts.RemoveItem | Shopping.Cart/Slices/CartsWithProductsSV.cs:24-31 | ItemRemoved/ItemArchived as a method agree with `RetireItem` |
| CsCartsWithProducts.Project | Shopping.Cart/Slices/CartsWithProductsSV.cs:9-43 | the loop over the stream returns the fold's list, or the exception that ended it |
| CsCartsWithProducts.ViewSnoc | Shopping.Cart/Slices/CartsWithProductsSV.cs:13-40 | folding one more event applies one step to the previous view, or keeps the exception |
| CsCartsWithProducts.ViewErrSticks | Shopping.Cart/Slices/CartsWithProductsSV.cs:13-40 | an exception in a prefix is the outcome of the whole projection |
| CsCartsWithProducts.AddedItemRecorded | Shopping.Cart/Slices/CartsWithProductsSV.cs:17-23 | ItemAdded never throws, lists its (cart, product) pair once, keeps every other pair and indexes the item under its product |
| CsCartsWithProducts.RetireItemOutcome | Shopping.Cart/Slices/CartsWithProductsSV.cs:24-31 | removal throws KeyNotFound iff the cart has a pair and the item is unindexed; otherwise the item is unindexed and only the pair of its product in that cart goes |
| CsCartsWithProducts.ClearRemovesCart | Shopping.Cart/Slices/CartsWithProductsSV.cs:32-36 | CartClearedCommand drops exactly the cart's pairs and unindexes every item whose product is one of them |
| CsCartsWithProducts.OtherEventsIgnored | Shopping.Cart/Slices/CartsWithProductsSV.cs:15-37 | events without a case leave the view unchanged |
| CsCartsWithProducts.ViewDistinct | Shopping.Cart/Slices/CartsWithProductsSV.cs:18-21 | the `Any` check keeps every pair listed at most once, over any stream |
| CsCartsWithProducts.ViewPairsAdded | Shopping.Cart/Slices/CartsWithProductsSV.cs:17-21 | every listed pair was put there by an ItemAdded of the stream |
| CsCartsWithProducts.StepPairsFrom | Shopping.Cart/Slices/CartsWithProductsSV.cs:15-56 | a pair listed after one event was listed before it or is that ItemAdded's (cart, product) |
| CsCartsWithProducts.CartsWithProductsDistinct | Shopping.Cart/Slices/CartsWithProductsSV.cs:9-43 | a projection that completes lists distinct pairs, each added by the stream |
| CsCartsWithProducts.AddedItemState | Shopping.Cart.Tests/CartWithProductsSVTests.cs:9-24 | CartCreated then ItemAdded gives one pair and one index entry |
| CsCartsWithProducts.CartShouldContainProductIdOfAddedItem | Shopping.Cart.Tests/CartWithProductsSVTests.cs:9-24 | the added item's product is listed for its cart |
| CsCartsWithProducts.RetireOnlyItem | Shopping.Cart/Slices/CartsWithProductsSV.cs:24-31 | retiring the only item of the only cart leaves an empty list and index |
| CsCartsWithProducts.ArchivedItemsShouldBeRemovedFromList | Shopping.Cart.Tests/CartWithProductsSVTests.cs:27-44 | archiving the added item empties the list |
| CsCartsWithProducts.RemovedItemsShouldBeRemovedFromList | Shopping.Cart.Tests/CartWithProductsSVTests.cs:47-64 | removing the added item empties the list |
| CsCartsWithProducts.ClearOnlyCart | Shopping.Cart/Slices/CartsWithProductsSV.cs:34 | clearing the cart that holds every pair leaves none |
| CsCartsWithProducts.TwoAddedState | Shopping.Cart.Tests/CartWithProductsSVTests.cs:67-83 | two ItemAdded events for one cart leave only pairs of that cart |
| CsCartsWithProducts.ClearOnlyCartStep | Shopping.Cart/Slices/CartsWithProductsSV.cs:32-36 | clearing the one cart of a view empties the list |
| CsCartsWithProducts.CartClearedShouldRemoveItemsFromList | Shopping.Cart.Tests/CartWithProductsSVTests.cs:67-83 | two items then CartClearedCommand leave an empty list |
| CsCartsWithProducts.SharedClearedState | Shopping.Cart/Slices/CartsWithProductsSV.cs:45-55 | with one product in carts a and b, clearing a also unindexes b's item |
| CsCartsWithProducts.ClearOfOtherCartCrashesRemoval | Shopping.Cart/Slices/CartsWithProductsSV.cs:49 | as written: after clearing cart a, removing the still-live item of cart b throws KeyNotFound |
| CsCartsWithProductsFixed.TrackedSnoc | Shopping.Cart/Slices/CartsWithProductsSV.cs:13-40 | the corrected fold applies one step per event, or keeps the exception |
| CsCartsWithProductsFixed.StepKeepsLiveEntry | Shopping.Cart/Slices/CartsWithProductsSV.cs:15-37 | an event that does not retire an item keeps its index entry in the corrected view |
| CsCartsWithProductsFixed.LiveItemIndexed | Shopping.Cart/Slices/CartsWithProductsSV.cs:45-55 | corrected: every item added and not retired since is indexed under the pair it was added with |
| CsCartsWithProductsFixed.RemoveLiveItem | Shopping.Cart/Slices/CartsWithProductsSV.cs:24-27 | corrected: removing a live item of its own cart never throws and drops its pair |
| CsCartsWithProductsFixed.ClearAgrees | Shopping.Cart/Slices/CartsWithProductsSV.cs:32-36 | clearing keeps the corrected view in agreement with the view as written |
| CsCartsWithProductsFixed.AddAgrees | Shopping.Cart/Slices/CartsWithProductsSV.cs:17-23 | ItemAdded keeps the two views in agreement |
| CsCartsWithProductsFixed.RetireAgrees | Shopping.Cart/Slices/CartsWithProductsSV.cs:24-31 | wherever removal succeeds as written it succeeds corrected, keeping agreement |
| CsCartsWithProductsFixed.StepAgrees | Shopping.Cart/Slices/CartsWithProductsSV.cs:13-40 | every step that succeeds as written succeeds corrected, keeping agreement |
| CsCartsWithProductsFixed.FixKeepsOutcomes | Shopping.Cart/Slices/CartsWithProductsSV.cs:9-43 | wherever the projection as written completes, the corrected one completes with the same list |
| CsCartsWithProductsFixed.ClearOfOtherCartThenRemoval | Shopping.Cart/Slices/CartsWithProductsSV.cs:49 | corrected: the stream that throws as written removes b's pair |
| CsCartItems.NewItem | Shopping.Cart/Slices/CartItemsSV.cs:37-45 | the item an ItemAdded event adds: its cart, description, image, price, item id and product id |
| CsCartItems.Step | Shopping.Cart/Slices/CartItemsSV.cs:31-59 | one event of the `Aggregate`: CartCreated sets the id; ItemAdded appends the item and adds its price; ItemRemoved removes the first match and subtracts its price; ItemArchived removes the first match and keeps the total; CartClearedCommand empties the list and keeps the total; a missing match throws. The outcome lemmas state each case |
| CsCartItems.CartItemsOf | Shopping.Cart/Slices/CartItemsSV.cs:29-62 | the fold of Step over the stream from the empty view, the first throw ending it; Projects is proved equal to it |
| CsCartItems.SumPrices | Shopping.Cart/Slices/CartItemsSV.cs:46-50 | the sum of the items' prices, the reference value for the running total; TotalIsSumOfItems and StepKeepsSum relate the two |
| CsCartItems.FirstMatch | Shopping.Cart/Slices/CartItemsSV.cs:49 | `First` finds the lowest position with the id, and finds none iff no item has it |
| CsCartItems.RemoveAt | Shopping.Cart/Slices/CartItemsSV.cs:51 | `List.Remove` of the found element drops that one position and shifts the rest, order kept |
| CsCartItems.CartItemsSnoc | Shopping.Cart/Slices/CartItemsSV.cs:29-62 | folding one more event applies one step to the previous view, or keeps the exception |
| CsCartItems.CartItemsErrSticks | Shopping.Cart/Slices/CartItemsSV.cs:29-62 | an exception in a prefix is the outcome of the whole projection |
| CsCartItems.Projects | Shopping.Cart/Slices/CartItemsSV.cs:26-63 | the loop over the read events returns the fold's view, or the exception that ended it |
| CsCartItems.CartCreatedSetsId | Shopping.Cart/Slices/CartItemsSV.cs:33-35 | CartCreated sets the cart id and nothing else |
| CsCartItems.ItemAddedAppends | Shopping.Cart/Slices/CartItemsSV.cs:36-47 | ItemAdded never throws, appends an item with the event's fields and adds its price to the total |
| CsCartItems.ItemRemovedOutcome | Shopping.Cart/Slices/CartItemsSV.cs:48-52 | ItemRemoved throws iff no item has the id; otherwise the first such item goes, the rest stay in order, and its price leaves the total |
| CsCartItems.ItemArchivedOutcome | Shopping.Cart/Slices/CartItemsSV.cs:56-58 | ItemArchived throws iff no item has the id; otherwise the first such item goes and the total is unchanged |
| CsCartItems.ClearKeepsTotal | Shopping.Cart/Slices/CartItemsSV.cs:53-55 | CartClearedCommand empties the list and keeps the id and the total |
| CsCartItems.OtherEventsIgnored | Shopping.Cart/Slices/CartItemsSV.cs:31-59 | events without a case leave the view unchanged |
| CsCartItems.SumPricesAppend | Shopping.Cart/Slices/CartItemsSV.cs:46 | the sum of prices distributes over concatenation |
| CsCartItems.SumPricesRemoveAt | Shopping.Cart/Slices/CartItemsSV.cs:50-51 | taking out one item lowers the sum by its price |
| CsCartItems.TotalIsSumOfItems | Shopping.Cart/Slices/CartItemsSV.cs:36-52 | over a stream without CartClearedCommand or ItemArchived, a completed projection's total is the sum of its items' prices |
| CsCartItems.StepKeepsSum | Shopping.Cart/Slices/CartItemsSV.cs:36-52 | an add or remove that completes keeps the total equal to the sum of the listed prices |
| CsCartItems.ClearedTotalSurvives | Shopping.Cart/Slices/CartItemsSV.cs:46-54 | after an add and a clear the list is empty but the total still holds the added price |
| CsEventStore.Serialize | Shopping.Cart/EventStore/EventSerializer.cs:9-10 | `Serialize`: the event stored with its position and its type name |
| CsEventStore.InsertAfter | Shopping.Cart/EventStore/InMemoryEventStore.cs:38 | one insertion step of the stable sort: the entry goes after every entry whose position is not larger; InsertAfterSorted, InsertAfterMultiset and InsertAfterFacts state its laws |
| CsEventStore.SortByPosition | Shopping.Cart/EventStore/InMemoryEventStore.cs:38 | `OrderBy(e => e.GlobalPosition)` as a stable sort; SortByPositionFacts states it is a sorted permutation, and SortSortedIsIdentity that it leaves a sorted list as it is |
| CsEventStore.StoreInv | Shopping.Cart/EventStore/InMemoryEventStore.cs:5-29 | the store invariant: the append log is numbered 1 to N, the sequence counter is N, every stream that owns a logged event has a dictionary entry, and each stream holds exactly its own logged events in order; AppendKeepsInv states that appending keeps it |
| CsEventStore.Known | Shopping.Cart/EventStore/EventSerializer.cs:12-20 | every event a read yields was stored under a type name the mapping knows |
| CsEventStore.KnownAppend | Shopping.Cart/EventStore/InMemoryEventStore.cs:41-44 | deserializing and dropping nulls distributes over concatenation |
| CsEventStore.InsertAfterMultiset | Shopping.Cart/EventStore/InMemoryEventStore.cs:38 | inserting keeps every entry and adds the new one |
| CsEventStore.InsertAfterSorted | Shopping.Cart/EventStore/InMemoryEventStore.cs:38 | inserting into a sequence in position order keeps it in position order |
| CsEventStore.InsertAfterFacts | Shopping.Cart/EventStore/InMemoryEventStore.cs:38 | inserting one entry keeps the entries (as a multiset) and keeps position order |
| CsEventStore.SortByPositionFacts | Shopping.Cart/EventStore/InMemoryEventStore.cs:38 | `OrderBy(GlobalPosition)` is a permutation in position order |
| CsEventStore.SortSortedIsIdentity | Shopping.Cart/EventStore/InMemoryEventStore.cs:54 | sorting a stream already in position order changes nothing |
| CsEventStore.SortedUnique | Shopping.Cart/EventStore/InMemoryEventStore.cs:36-39 | a sequence sorted by distinct positions is determined by its elements |
| CsEventStore.StreamOf | Shopping.Cart/EventStore/InMemoryEventStore.cs:14-29 | a stream holds only entries of the log |
| CsEventStore.StreamOfAppend | Shopping.Cart/EventStore/InMemoryEventStore.cs:29 | the stream of a longer log is the old stream followed by the new part's entries for it |
| CsEventStore.StreamOfAbsent | Shopping.Cart/EventStore/InMemoryEventStore.cs:51-52 | an id nothing was appended to has an empty stream |
| CsEventStore.StreamOfOthers | Shopping.Cart/EventStore/InMemoryEventStore.cs:29 | appending to one stream leaves every other stream as it was |
| CsEventStore.StreamOfOwn | Shopping.Cart/EventStore/InMemoryEventStore.cs:29 | entries all appended to one stream form that stream |
| CsEventStore.NumberedIncreasing | Shopping.Cart/EventStore/InMemoryEventStore.cs:20 | positions 1, 2, 3, … in append order strictly increase |
| CsEventStore.StreamOfIncreasing | Shopping.Cart/EventStore/InMemoryEventStore.cs:20-29 | every stream is in strictly increasing position order |
| CsEventStore.ConcatIsConcatOf | Shopping.Cart/EventStore/InMemoryEventStore.cs:36-37 | `SelectMany` over the dictionary concatenates the streams of its keys in order |
| CsEventStore.ConcatOfSnoc | Shopping.Cart/EventStore/InMemoryEventStore.cs:36-37 | one more logged entry adds exactly that entry to the concatenation |
| CsEventStore.ConcatOfIsLog | Shopping.Cart/EventStore/InMemoryEventStore.cs:36-37 | with every owner a key and keys distinct, the concatenation holds every logged entry exactly once |
| CsEventStore.ConcatOfEmpty | Shopping.Cart/EventStore/InMemoryEventStore.cs:36-37 | an empty log concatenates to nothing |
| CsEventStore.CreateKeepsStreams | Shopping.Cart/EventStore/InMemoryEventStore.cs:14-15 | creating the missing stream keeps every stream matching the log |
| CsEventStore.AppendKeepsStreams | Shopping.Cart/EventStore/InMemoryEventStore.cs:29 | `AddRange` keeps every stream matching the longer log |
| CsEventStore.Positioned | Shopping.Cart/EventStore/InMemoryEventStore.cs:17-26 | the i-th new event is serialized with position start + i + 1 |
| CsEventStore.Repeat | Shopping.Cart/EventStore/InMemoryEventStore.cs:29 | every appended entry belongs to the stream appended to |
| CsEventStore.NumberedAppend | Shopping.Cart/EventStore/InMemoryEventStore.cs:17-26 | numbering from the current sequence keeps the log numbered 1..N |
| CsEventStore.WithStream | Shopping.Cart/EventStore/InMemoryEventStore.cs:14-15 | after the creation step the stream id is present |
| CsEventStore.CreateKeepsInv | Shopping.Cart/EventStore/InMemoryEventStore.cs:14-15 | creating a missing stream keeps the store invariant |
| CsEventStore.AppendExistingKeepsInv | Shopping.Cart/EventStore/InMemoryEventStore.cs:17-29 | appending the numbered events to an existing stream keeps the store invariant for the longer log |
| CsEventStore.AppendedDictionary | Shopping.Cart/EventStore/InMemoryEventStore.cs:14-29 | appending changes only the target stream and adds its id at the end when it was missing |
| CsEventStore.AppendKeepsInv | Shopping.Cart/EventStore/InMemoryEventStore.cs:9-32 | an append keeps the store invariant for the log extended by the numbered new entries |
| CsEventStore.InMemoryEventStore.constructor | Shopping.Cart/EventStore/InMemoryEventStore.cs:3-7 | a new store is empty with sequence 0 and satisfies the invariant |
| CsEventStore.InMemoryEventStore.NumberEvents | Shopping.Cart/EventStore/InMemoryEventStore.cs:17-26 | the `Select` advances the sequence by the number of events and numbers them consecutively, nothing else changes |
| CsEventStore.InMemoryEventStore.AppendToStream | Shopping.Cart/EventStore/InMemoryEventStore.cs:9-32 | the dictionary becomes the one `Appended` describes (the stream created when missing, the numbered events at its end), the log grows by exactly those entries, and the invariant holds |
| CsEventStore.InMemoryEventStore.ReadStream | Shopping.Cart/EventStore/InMemoryEventStore.cs:49-62 | a read yields the stream's known events in append order; an unknown stream reads as empty |
| CsEventStore.InMemoryEventStore.ReadAll | Shopping.Cart/EventStore/InMemoryEventStore.cs:34-47 | reading all streams yields every known event of the store in global append order |
| CsEventStore.ReadAfterAppend | Shopping.Cart/EventStore/InMemoryEventStore.cs:9-62 | after an append a stream reads as before followed by the known new events, and other streams read as before |

## Left out

The submit-cart code and its description of the system disagree:

- Where they disagree, the model follows the code. The description and the `ShouldSubmit` test say CartSubmitted is the last event. The decider pushes the InventoryChanged events after it, so CartSubmitted comes first (`TsSubmit.SubmitCartLastEvent` states the order as written).

I/O, the runtime and things outside the core:

- HTTP routes, the frontend, `server.ts` and both `Program.cs` files are left out. They are transport and UI wiring.
- `getStore`, `createStorage`, the store helpers and the BoundlessDB package are left out. They are I/O over a package whose conditional-append semantics are not part of this model. Only the static consistency-key table is modelled.
- Background processors, timers and their semaphores are left out because they are concurrency. The archive loop of `runArchiveProcessor` is kept as a function of the events it reads.
- The external Kafka publish is a boolean input `publishSucceeds`. The fake publisher's random mode is nondeterministic.
- The inventory view handed to the submit deciders is an input map.
- `await` is modelled as a synchronous call.
  - `CartItemsProjector.Projects` takes the events returned by `eventStore.ReadStream(cartId)` as its input.
  - `ReadStream` and `ReadAll` of the store return their arrays directly.

Serialization and types:

- The JSON serializer and `EventTypeMapping` (reflection) are abstract.
  - A stored event keeps its type name and the event itself.
  - A read gives an event back exactly when its type name is in the store's `knownTypes` set. This stands for `Deserialize` returning null on an unknown type.
- A Guid is modelled as `nat`, which has no structure and no `NewGuid`. Tests that use fresh Guids take them as parameters, with distinctness preconditions.
- `double` prices are modelled as `int` (whole cents), so floating-point rounding is not modelled.
- TypeScript `number` prices, quantities and inventory counts are modelled as unbounded `int`. Fractions, `NaN`, infinities and the loss of precision above 2^53 are not modelled.
- CsAggregate.CartAggregate.AddItem: `CartAggregate.AddItem` (Shopping.Cart/Domain/CartAggregate.cs:37-44) passes a seventh, positional argument `"not yet implemented"` to `ItemAdded`. The `ItemAdded` record it refers to (Shopping.Cart/Slices/AddItemCommand.cs:54-60) declares only six fields, cart id, description, image, price, item id and product id, and no code reads a seventh. The model keeps those six fields and drops the extra argument.
- CsEventStore.InMemoryEventStore.NumberEvents: `Interlocked.Increment` is a plain increment of an unbounded integer. Thread safety and the `long` overflow after 2^63 appends are not modelled.
- .NET `Dictionary` enumeration order is not specified by the platform. The model fixes it as insertion order: removal deletes the entry in place and an update keeps its position.
- CsCartsWithProducts.ClearItemIds: removing entries while enumerating the `Where` is modelled as enumerating the snapshot taken when the inner loop starts. For `Dictionary.Remove` this matches what .NET Core 3 and later do.

Modelling choices:

- Exceptions are not .NET exceptions.
  - Exceptions thrown inside folds and commands are `Err`/`Fault` outcomes.
  - A rejected command in the TypeScript port is a typed rejection value.
  - `CartAggregate` commands return an outcome, and the aggregate keeps the state the source leaves behind when it throws. For example, AddItem on a full fresh aggregate has already recorded CartCreated.
- The constructor of `CartAggregate` that takes a stream is the empty constructor followed by `Hydrate`. Dafny constructors cannot call methods on the object under construction.
- `CartAggregate.Clear` raises CartClearedCommand and `ApplyEvent` ignores it. This is as written and stated in the model, not corrected.
- `ArchiveItem` passes the product id where the item id is expected. This is as written.
- TsCart.Evolve: the `if (productId)` guard of the source means a removed item whose product id is the empty string keeps its price. The model follows that.
- The duplicate copies of the cart logic in the 01/02 variants and the trivial archive and clear deciders of the decider model are not modelled separately. These are `Shopping.Cart/Domain/Cart.cs`, `AddItemCommand.cs` and the command-handler slices. The modelled files above carry the same logic.
- Test files are evidence only. Several of their scenarios are stated as lemmas named after the test.

Where the model uses the corrected code:

All three corrections are listed under Findings. Each as-written member is kept and proved to show the discrepancy.

- CsCart.Evolve is the corrected step, and the deciders and every lemma about a built cart use it. Two things change:
  - ItemArchived looks the item up before removing it.
  - A retired item's product keeps its price while another item of the cart still refers to it.
- TsCartsWithProducts.CartsWithProducts deduplicates on the (cartId, productId) pair itself, not on the joined string key.
- CsCartsWithProductsFixed restricts `ClearItemIds` to the cleared cart.

## Findings

| source | as written | input that shows it | evidently intended | confidence | as-written member | corrected member |
|---|---|---|---|---|---|---|
| 03-decider-model/Shopping.Cart/Domain/Cart.cs:42-55 | ItemArchived removes the item from the dictionary and then looks it up in the new dictionary, so the lookup always throws KeyNotFound | any state and any `ItemArchived(cartId, itemId)`, including an item that is in the cart | look the item up before removing it, as ItemRemoved does, and throw only for an absent item | high (not executed) | CsCart.ArchivedAlwaysThrows | CsCart.EvolveRetires |
| 03-decider-model/Shopping.Cart/Domain/Cart.cs:28-41 | ItemRemoved deletes the product's price even when another item of the cart has the same product; SubmitCartDecider (03-decider-model/Shopping.Cart/Slices/SubmitCartDecider.cs:31-35) then indexes the missing price, for the ordered product and again for the total, and throws | CartCreated(c), ItemAdded(i1, p), ItemAdded(i2, p), ItemRemoved(i1, c), then SubmitCart with p in stock | keep the price while an item of that product remains, so that submitting a cart built from events never throws | medium (not executed) | CsDeciders.SharedProductRemovalCrashesSubmit | CsDeciders.SubmitBuiltCartNeverCrashes |
| 04-boundless-typescript/src/slices/carts-with-products.ts:47 | pairs are deduplicated on the string `${cartId}:${productId}`, which joins different pairs when an id contains ':' | live items of cart "a:b" with product "c" and of cart "a" with product "b:c": both give the key "a:b:c" and the second pair is lost | deduplicate on the pair itself, so that the view lists exactly the (cart, product) pairs of the live items; the string key gives the same view whenever it is injective on the pairs (TsCartsWithProducts.AsWrittenAgreesWhenKeysInjective) | medium (not executed) | TsCartsWithProducts.PairKeyCollision | TsCartsWithProducts.PairsAreLiveItems |
| Shopping.Cart/Slices/CartsWithProductsSV.cs:45-55 | `ClearItemIds` drops every index entry whose product is a product of the cleared cart, including items of other carts; a later removal of such an item throws KeyNotFound | ItemAdded(a, i1, p), ItemAdded(b, i2, p), CartClearedCommand(a), ItemRemoved(i2, b) | drop only the index entries of the cleared cart, so that removing an item that is still in its cart never throws | high (not executed) | CsCartsWithProducts.ClearOfOtherCartCrashesRemoval | CsCartsWithProductsFixed.RemoveLiveItem |
