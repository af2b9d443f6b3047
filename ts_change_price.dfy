/**
 * The price-change slice of the TypeScript port: the translation of the external message into a
 * PriceChanged event, the map of changed prices, the search for carts that hold items of a changed
 * product, and the archive loop that emits one ItemArchived per such item.
 */
module TsChangePrice {
  import opened Wrappers
  import opened OrderedMap
  import opened TsEvents
  import opened TsCart
  import opened TsItemIndex
  import opened LastWrite

  // Translation.

  /** The body of the external price-changed message. */
  datatype PriceChangeRequest = PriceChangeRequest(productId: string, oldPrice: int, newPrice: int)

  function TranslatePriceChanged(body: PriceChangeRequest): (e: Event)
    ensures e.PriceChanged? && TypeName(e) == "PriceChanged"
    ensures e.productId == body.productId && e.oldPrice == body.oldPrice && e.newPrice == body.newPrice
  {
    PriceChanged(body.productId, body.oldPrice, body.newPrice)
  }

  // The changed-prices map.

  datatype PriceInfo = PriceInfo(oldPrice: int, newPrice: int)

  /** What an event writes into the changed-prices map: only PriceChanged writes. */
  function PriceWrite(e: Event): Option<(string, PriceInfo)> {
    if e.PriceChanged? then Some((e.productId, PriceInfo(e.oldPrice, e.newPrice))) else None
  }

  function ChangedPrices(events: seq<Event>): map<string, PriceInfo> {
    Replay(events, PriceWrite)
  }

  method BuildChangedPricesMap(events: seq<Event>) returns (m: map<string, PriceInfo>)
    ensures m == ChangedPrices(events)
  {
    m := map[];
    for i := 0 to |events|
      invariant m == ChangedPrices(events[..i])
    {
      var e := events[i];
      assert events[..i + 1] == events[..i] + [e];
      ReplaySnoc(events[..i], e, PriceWrite);
      if e.PriceChanged? {
        m := m[e.productId := PriceInfo(e.oldPrice, e.newPrice)];
      }
    }
    assert events[..|events|] == events;
  }

  /** A translated message, once stored, is what the changed-prices map records for its product. */
  lemma TranslateThenBuild(body: PriceChangeRequest)
    ensures ChangedPrices([TranslatePriceChanged(body)]) == map[body.productId := PriceInfo(body.oldPrice, body.newPrice)]
  {
    var e := TranslatePriceChanged(body);
    assert [e] == [] + [e];
    ReplaySnoc([], e, PriceWrite);
  }

  /** The keys are exactly the products of PriceChanged events. */
  lemma ChangedPricesKeys(events: seq<Event>, p: string)
    ensures p in ChangedPrices(events)
      <==> exists k | 0 <= k < |events| :: events[k].PriceChanged? && events[k].productId == p
  {
    ReplayKeys(events, PriceWrite, p);
    if p in ChangedPrices(events) {
      var k :| 0 <= k < |events| && Writes(PriceWrite, events[k], p);
      assert events[k].PriceChanged? && events[k].productId == p;
    }
    if k :| 0 <= k < |events| && events[k].PriceChanged? && events[k].productId == p {
      assert Writes(PriceWrite, events[k], p);
    }
  }

  /** The entry of a product is taken from its last PriceChanged event. */
  lemma ChangedPricesLastWins(events: seq<Event>, k: nat)
    requires k < |events| && events[k].PriceChanged?
    requires forall j | k < j < |events| :: !(events[j].PriceChanged? && events[j].productId == events[k].productId)
    ensures events[k].productId in ChangedPrices(events)
    ensures ChangedPrices(events)[events[k].productId] == PriceInfo(events[k].oldPrice, events[k].newPrice)
  {
    forall j | k < j < |events| ensures !Writes(PriceWrite, events[j], events[k].productId) {
    }
    ReplayLastWins(events, PriceWrite, k);
  }

  /** Events other than PriceChanged do not affect the map, wherever they occur. */
  lemma ChangedPricesIgnoreOthers(a: seq<Event>, e: Event, b: seq<Event>)
    requires !e.PriceChanged?
    ensures ChangedPrices(a + [e] + b) == ChangedPrices(a + b)
  {
    ReplayIgnores(a, e, b, PriceWrite);
  }

  // The affected carts.

  /** The item index of `findAffectedCarts`: ItemAdded, ItemRemoved and ItemArchived only. */
  function AffectedIndex(events: seq<Event>): ItemIndex
    decreases |events|
  {
    if events == [] then [] else IndexStep(AffectedIndex(events[..|events| - 1]), events[|events| - 1])
  }

  type Affected = OMap<string, set<string>>

  /** The products already recorded for a cart, none when the cart has no entry yet. */
  function ProductsOf(affected: Affected, cartId: string): set<string> {
    match Get(affected, cartId)
    case Some(ps) => ps
    case None => {}
  }

  /** One step of the grouping loop: an item of a changed product adds its product to its cart's set. */
  function GroupStep(affected: Affected, item: ItemRef, changed: set<string>): Affected {
    if item.productId in changed then Set(affected, item.cartId, ProductsOf(affected, item.cartId) + {item.productId})
    else affected
  }

  /** Groups the (cart, product) pairs of the live items by cart, keeping only changed products. */
  function Group(items: seq<ItemRef>, changed: set<string>): Affected
    decreases |items|
  {
    if items == [] then [] else GroupStep(Group(items[..|items| - 1], changed), items[|items| - 1], changed)
  }

  function AffectedCarts(events: seq<Event>, changed: set<string>): Affected {
    Group(Values(AffectedIndex(events)), changed)
  }

  /** The first loop of `findAffectedCarts`: the item map built from the whole log. */
  method IndexAffectingItems(allEvents: seq<Event>) returns (itemMap: ItemIndex)
    ensures itemMap == AffectedIndex(allEvents)
  {
    itemMap := [];
    for i := 0 to |allEvents|
      invariant itemMap == AffectedIndex(allEvents[..i])
    {
      assert allEvents[..i + 1][..i] == allEvents[..i];
      match allEvents[i] {
        case ItemAdded(cartId, itemId, productId, _, _, _) =>
          itemMap := Set(itemMap, itemId, ItemRef(cartId, productId));
        case ItemRemoved(itemId, _) =>
          itemMap := Delete(itemMap, itemId);
        case ItemArchived(_, itemId) =>
          itemMap := Delete(itemMap, itemId);
        case _ =>
      }
    }
    assert allEvents[..|allEvents|] == allEvents;
  }

  method FindAffectedCarts(allEvents: seq<Event>, changed: set<string>) returns (affected: Affected)
    ensures affected == AffectedCarts(allEvents, changed)
  {
    var itemMap := IndexAffectingItems(allEvents);
    var items := Values(itemMap);
    affected := [];
    for j := 0 to |items|
      invariant affected == Group(items[..j], changed)
    {
      assert items[..j + 1][..j] == items[..j];
      var item := items[j];
      if item.productId in changed {
        AddProductStep(affected, item, changed);
        var products := Get(affected, item.cartId);
        if products.None? {
          affected := Set(affected, item.cartId, {});
        }
        affected := Set(affected, item.cartId, ProductsOf(affected, item.cartId) + {item.productId});
      }
    }
    assert items[..|items|] == items;
  }

  /** Creating the empty set first and then adding to it is one step of the grouping. */
  lemma AddProductStep(a: Affected, item: ItemRef, changed: set<string>)
    requires item.productId in changed
    ensures var a1 := if Get(a, item.cartId).None? then Set(a, item.cartId, {}) else a;
      Set(a1, item.cartId, ProductsOf(a1, item.cartId) + {item.productId}) == GroupStep(a, item, changed)
  {
    var c, p := item.cartId, item.productId;
    if Get(a, c).None? {
      var a1 := Set(a, c, {});
      assert ProductsOf(a1, c) + {p} == {p};
      assert ProductsOf(a, c) + {p} == {p};
      SetTwice(a, c, {}, {p});
    } else {
      assert GroupStep(a, item, changed) == Set(a, c, ProductsOf(a, c) + {p});
    }
  }

  lemma GroupStepHas(a: Affected, item: ItemRef, changed: set<string>, c: string)
    ensures Has(GroupStep(a, item, changed), c) <==> Has(a, c) || (item.cartId == c && item.productId in changed)
  {
  }

  lemma GroupStepProducts(a: Affected, item: ItemRef, changed: set<string>, c: string, p: string)
    ensures p in ProductsOf(GroupStep(a, item, changed), c)
      <==> p in ProductsOf(a, c) || (item == ItemRef(c, p) && p in changed)
  {
  }

  /** A cart is recorded exactly when one of its items refers to a changed product. */
  lemma {:induction false} GroupHas(items: seq<ItemRef>, changed: set<string>, c: string)
    ensures Has(Group(items, changed), c)
      <==> exists k | 0 <= k < |items| :: items[k].cartId == c && items[k].productId in changed
    decreases |items|
  {
    if items != [] {
      var n := |items| - 1;
      var front := items[..n];
      GroupHas(front, changed, c);
      GroupStepHas(Group(front, changed), items[n], changed, c);
      assert forall k | 0 <= k < n :: front[k] == items[k];
    }
  }

  /** The products recorded for a cart are exactly the changed products of that cart's items. */
  lemma {:induction false} GroupProducts(items: seq<ItemRef>, changed: set<string>, c: string, p: string)
    ensures p in ProductsOf(Group(items, changed), c)
      <==> p in changed && exists k | 0 <= k < |items| :: items[k] == ItemRef(c, p)
    decreases |items|
  {
    if items != [] {
      var n := |items| - 1;
      var front := items[..n];
      GroupProducts(front, changed, c, p);
      GroupStepProducts(Group(front, changed), items[n], changed, c, p);
      assert forall k | 0 <= k < n :: front[k] == items[k];
    }
  }

  /** Every recorded cart has at least one product. */
  lemma {:induction false} GroupNonEmpty(items: seq<ItemRef>, changed: set<string>, c: string)
    requires Has(Group(items, changed), c)
    ensures ProductsOf(Group(items, changed), c) != {}
  {
    GroupHas(items, changed, c);
    var k :| 0 <= k < |items| && items[k].cartId == c && items[k].productId in changed;
    GroupProducts(items, changed, c, items[k].productId);
    assert items[k] == ItemRef(c, items[k].productId);
  }

  /**
   * A product is recorded for a cart exactly when it changed and some item still live after the
   * scan belongs to that cart and refers to that product.
   */
  lemma AffectedCartsContents(events: seq<Event>, changed: set<string>, c: string, p: string)
    ensures p in ProductsOf(AffectedCarts(events, changed), c)
      <==> p in changed && exists itemId :: Get(AffectedIndex(events), itemId) == Some(ItemRef(c, p))
  {
    var m := AffectedIndex(events);
    GroupProducts(Values(m), changed, c, p);
    ValuesGet(m, ItemRef(c, p));
  }

  /** No cart is returned with an empty product set. */
  lemma AffectedCartsNonEmpty(events: seq<Event>, changed: set<string>, c: string)
    requires Has(AffectedCarts(events, changed), c)
    ensures ProductsOf(AffectedCarts(events, changed), c) != {}
  {
    GroupNonEmpty(Values(AffectedIndex(events)), changed, c);
  }

  /** CartCleared does not retire items here: only ItemRemoved and ItemArchived do. */
  lemma AffectedIgnoresCartCleared(events: seq<Event>, c: string)
    ensures AffectedIndex(events + [CartCleared(c)]) == AffectedIndex(events)
  {
    assert (events + [CartCleared(c)])[..|events|] == events;
  }

  // The archive loop.

  /** One ItemArchived per entry of `cartItems` whose product is affected, in entry order. */
  function ArchiveEvents(cartId: string, cartItems: seq<(string, string)>, products: set<string>): seq<Event>
    decreases |cartItems|
  {
    if cartItems == [] then []
    else
      var n := |cartItems| - 1;
      ArchiveEvents(cartId, cartItems[..n], products)
        + (if cartItems[n].1 in products then [ItemArchived(cartId, cartItems[n].0)] else [])
  }

  method ArchiveBatch(cartId: string, cartItems: OMap<string, string>, products: set<string>)
    returns (archiveEvents: seq<Event>)
    ensures archiveEvents == ArchiveEvents(cartId, cartItems, products)
  {
    archiveEvents := [];
    for i := 0 to |cartItems|
      invariant archiveEvents == ArchiveEvents(cartId, cartItems[..i], products)
    {
      assert cartItems[..i + 1][..i] == cartItems[..i];
      var (itemId, productId) := cartItems[i];
      if productId in products {
        archiveEvents := archiveEvents + [ItemArchived(cartId, itemId)];
      }
    }
    assert cartItems[..|cartItems|] == cartItems;
  }

  /** The batches the processor appends, one per affected cart that has something to archive. */
  function Batches(affected: seq<(string, set<string>)>, readCart: string -> seq<Event>): seq<seq<Event>>
    decreases |affected|
  {
    if affected == [] then []
    else
      var n := |affected| - 1;
      var (cartId, products) := affected[n];
      var evs := ArchiveEvents(cartId, BuildState(readCart(cartId)).cartItems, products);
      Batches(affected[..n], readCart) + (if |evs| > 0 then [evs] else [])
  }

  function ArchiveOutcome(priceEvents: seq<Event>, allEvents: seq<Event>, readCart: string -> seq<Event>): seq<seq<Event>> {
    var changed := ChangedPrices(priceEvents);
    if |changed| == 0 then [] else Batches(AffectedCarts(allEvents, changed.Keys), readCart)
  }

  /**
   * `runArchiveProcessor` with the reads as inputs: `priceEvents` and `allEvents` are what the
   * store returns, `readCart` gives the events of one cart; the result is the appended batches.
   */
  method RunArchiveProcessor(priceEvents: seq<Event>, allEvents: seq<Event>, readCart: string -> seq<Event>)
    returns (appended: seq<seq<Event>>)
    ensures appended == ArchiveOutcome(priceEvents, allEvents, readCart)
  {
    var changedPrices := BuildChangedPricesMap(priceEvents);
    if |changedPrices| == 0 {
      return [];
    }
    var affectedCarts := FindAffectedCarts(allEvents, changedPrices.Keys);
    appended := [];
    for i := 0 to |affectedCarts|
      invariant appended == Batches(affectedCarts[..i], readCart)
    {
      assert affectedCarts[..i + 1][..i] == affectedCarts[..i];
      var (cartId, affectedProductIds) := affectedCarts[i];
      var state := BuildState(readCart(cartId));
      var archiveEvents := ArchiveBatch(cartId, state.cartItems, affectedProductIds);
      if |archiveEvents| > 0 {
        appended := appended + [archiveEvents];
      }
    }
    assert affectedCarts[..|affectedCarts|] == affectedCarts;
  }

  /** With no PriceChanged event there is nothing to archive. */
  lemma NoPriceChangesNoArchive(priceEvents: seq<Event>, allEvents: seq<Event>, readCart: string -> seq<Event>)
    requires forall k | 0 <= k < |priceEvents| :: !priceEvents[k].PriceChanged?
    ensures ArchiveOutcome(priceEvents, allEvents, readCart) == []
  {
    if |ChangedPrices(priceEvents)| != 0 {
      var p :| p in ChangedPrices(priceEvents);
      ChangedPricesKeys(priceEvents, p);
    }
  }

  /**
   * The archive events of a cart name exactly its items whose product is affected: each event
   * archives one such item of that cart, and each such item has an event.
   */
  lemma {:induction false} ArchiveEventsContents(cartId: string, cartItems: seq<(string, string)>, products: set<string>, e: Event)
    ensures e in ArchiveEvents(cartId, cartItems, products)
      <==> e.ItemArchived? && e.cartId == cartId && exists k | 0 <= k < |cartItems| :: cartItems[k].0 == e.itemId && cartItems[k].1 in products
    decreases |cartItems|
  {
    if cartItems != [] {
      var n := |cartItems| - 1;
      ArchiveEventsContents(cartId, cartItems[..n], products, e);
      assert forall k | 0 <= k < n :: cartItems[..n][k] == cartItems[k];
    }
  }

  /**
   * Folding a cart's archive events into its state retires exactly the affected items: an item
   * of an affected product is gone, every other item keeps its product.
   */
  lemma ArchiveRetiresAffected(state: CartState, cartId: string, products: set<string>, itemId: string)
    ensures var t := Fold(state, ArchiveEvents(cartId, state.cartItems, products));
      Get(t.cartItems, itemId) == if Get(state.cartItems, itemId).Some? && Get(state.cartItems, itemId).value in products
        then None else Get(state.cartItems, itemId)
  {
    var m := state.cartItems;
    ArchivePrefix(state, cartId, products, |m|, itemId);
    assert m[..|m|] == m;
  }

  /** One archive event forgets its item and keeps every other item's product. */
  lemma ArchiveStepItems(t: CartState, cartId: string, itemId: string, x: string)
    ensures Get(Evolve(t, ItemArchived(cartId, itemId)).cartItems, x) == if x == itemId then None else Get(t.cartItems, x)
  {
    EvolveItemRetired(t, ItemArchived(cartId, itemId));
  }

  lemma {:induction false} ArchivePrefix(state: CartState, cartId: string, products: set<string>, j: nat, x: string)
    requires j <= |state.cartItems|
    ensures var t := Fold(state, ArchiveEvents(cartId, state.cartItems[..j], products));
      Get(t.cartItems, x) == if x in Keys(state.cartItems[..j]) && Get(state.cartItems, x).value in products
        then None else Get(state.cartItems, x)
    decreases j
  {
    var m := state.cartItems;
    if j == 0 {
      assert m[..0] == [];
    } else {
      var n := j - 1;
      ArchivePrefix(state, cartId, products, n, x);
      var front := ArchiveEvents(cartId, m[..n], products);
      var t := Fold(state, front);
      ArchiveEventsPrefix(cartId, m, products, n);
      KeysPrefix(m, n, x);
      GetEntry(m, n);
      if m[n].1 in products {
        var e := ItemArchived(cartId, m[n].0);
        FoldAppend(state, front, [e]);
        assert Fold(t, [e]) == Evolve(t, e);
        ArchiveStepItems(t, cartId, m[n].0, x);
      } else {
        assert ArchiveEvents(cartId, m[..j], products) == front;
      }
    }
  }

  /** The archive events of one more entry: those of the shorter prefix, then that entry's if it is affected. */
  lemma ArchiveEventsPrefix(cartId: string, m: seq<(string, string)>, products: set<string>, n: nat)
    requires n < |m|
    ensures ArchiveEvents(cartId, m[..n + 1], products)
      == ArchiveEvents(cartId, m[..n], products) + (if m[n].1 in products then [ItemArchived(cartId, m[n].0)] else [])
  {
    assert m[..n + 1][..n] == m[..n];
    assert m[..n + 1][n] == m[n];
  }

  lemma KeysPrefix(m: seq<(string, string)>, n: nat, x: string)
    requires n < |m|
    ensures Keys(m[..n + 1]) == Keys(m[..n]) + [m[n].0]
    ensures x in Keys(m[..n + 1]) <==> x in Keys(m[..n]) || x == m[n].0
  {
    assert Keys(m[..n + 1]) == Keys(m[..n]) + [m[n].0];
  }
}
