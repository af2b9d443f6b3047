/**
 * The cart-items read model of the TypeScript port (`projectCartItems`): the items of one cart
 * with their quantities, the cart id and the total price.
 */
module TsCartItems {
  import opened Wrappers
  import opened TsEvents

  datatype CartItem = CartItem(
    cartId: string, itemId: string, productId: string,
    description: Option<string>, image: Option<string>, price: int, quantity: int)

  datatype CartItemsView = CartItemsView(cartId: string, totalPrice: int, items: seq<CartItem>)

  /** `items.filter(i => i.itemId !== itemId)`. */
  function WithoutItem(items: seq<CartItem>, itemId: string): (r: seq<CartItem>)
    ensures forall x :: x in r <==> x in items && x.itemId != itemId
    ensures forall k | 0 <= k < |r| :: r[k].itemId != itemId
    ensures |r| <= |items|
    ensures (forall k | 0 <= k < |items| :: items[k].itemId != itemId) ==> r == items
  {
    if items == [] then []
    else
      var rest := WithoutItem(items[1..], itemId);
      assert items == [items[0]] + items[1..];
      if items[0].itemId == itemId then rest else [items[0]] + rest
  }

  /** The filter keeps order: filtering a concatenation concatenates the filtered parts. */
  lemma {:induction false} WithoutItemAppend(xs: seq<CartItem>, ys: seq<CartItem>, itemId: string)
    ensures WithoutItem(xs + ys, itemId) == WithoutItem(xs, itemId) + WithoutItem(ys, itemId)
    decreases |xs|
  {
    if xs != [] {
      assert (xs + ys)[0] == xs[0];
      assert (xs + ys)[1..] == xs[1..] + ys;
      WithoutItemAppend(xs[1..], ys, itemId);
    } else {
      assert xs + ys == ys;
    }
  }

  /** A single item is kept exactly when its itemId is not the removed one. */
  lemma WithoutItemSingle(x: CartItem, itemId: string)
    ensures WithoutItem([x], itemId) == if x.itemId == itemId then [] else [x]
  {
    assert [x][1..] == [];
  }

  /** `items.find(i => i.itemId === itemId)`, as the index of the first match. */
  function FindItem(items: seq<CartItem>, itemId: string): (r: Option<nat>)
    ensures r.None? <==> forall k | 0 <= k < |items| :: items[k].itemId != itemId
    ensures r.Some? ==> r.value < |items| && items[r.value].itemId == itemId
    ensures r.Some? ==> forall j | 0 <= j < r.value :: items[j].itemId != itemId
  {
    if items == [] then None
    else if items[0].itemId == itemId then Some(0)
    else
      match FindItem(items[1..], itemId)
      case None => None
      case Some(k) => Some(k + 1)
  }

  /** The effect of one event on the item list, as the loop body of `projectCartItems` performs it. */
  function ItemsStep(items: seq<CartItem>, e: Event): seq<CartItem> {
    match e
    case ItemAdded(cartId, itemId, productId, description, image, price) =>
      items + [CartItem(cartId, itemId, productId, description, image, price, 1)]
    case ItemRemoved(itemId, _) => WithoutItem(items, itemId)
    case ItemArchived(_, itemId) => WithoutItem(items, itemId)
    case ItemQuantityChanged(_, itemId, newQuantity) =>
      (match FindItem(items, itemId)
       case Some(k) => items[k := items[k].(quantity := newQuantity)]
       case None => items)
    case CartCleared(_) => []
    case _ => items
  }

  function ItemsAfter(events: seq<Event>): seq<CartItem>
    decreases |events|
  {
    if events == [] then [] else ItemsStep(ItemsAfter(events[..|events| - 1]), events[|events| - 1])
  }

  /** `events.find(e => e.type === 'CartCreated')?.data.cartId`. */
  function FirstCartCreated(events: seq<Event>): (r: Option<string>)
    ensures r.None? <==> forall k | 0 <= k < |events| :: !events[k].CartCreated?
    ensures r.Some? ==>
      exists k | 0 <= k < |events| ::
        events[k] == CartCreated(r.value) && forall j | 0 <= j < k :: !events[j].CartCreated?
  {
    if events == [] then None
    else if events[0].CartCreated? then Some(events[0].cartId)
    else
      var r := FirstCartCreated(events[1..]);
      assert forall k | 1 <= k < |events| :: events[1..][k - 1] == events[k];
      if r.Some? then
        var k :| 0 <= k < |events[1..]| && events[1..][k] == CartCreated(r.value)
          && forall j | 0 <= j < k :: !events[1..][j].CartCreated?;
        assert events[k + 1] == CartCreated(r.value);
        r
      else r
  }

  /** The sum of price times quantity over the items (`reduce` from 0). */
  function TotalPrice(items: seq<CartItem>): int
    decreases |items|
  {
    if items == [] then 0 else TotalPrice(items[..|items| - 1]) + items[|items| - 1].price * items[|items| - 1].quantity
  }

  function CartIdOf(events: seq<Event>, items: seq<CartItem>): string {
    match FirstCartCreated(events)
    case Some(c) => c
    case None => if |items| > 0 then items[0].cartId else ""
  }

  function CartItemsOf(events: seq<Event>): CartItemsView {
    var items := ItemsAfter(events);
    CartItemsView(CartIdOf(events, items), TotalPrice(items), items)
  }

  /** The `switch` of the loop: one event applied to the item list. */
  method ApplyToItems(items: seq<CartItem>, event: Event) returns (r: seq<CartItem>)
    ensures r == ItemsStep(items, event)
  {
    r := items;
    match event {
      case ItemAdded(cartId, itemId, productId, description, image, price) =>
        r := items + [CartItem(cartId, itemId, productId, description, image, price, 1)];
      case ItemRemoved(itemId, _) =>
        r := WithoutItem(items, itemId);
      case ItemArchived(_, itemId) =>
        r := WithoutItem(items, itemId);
      case ItemQuantityChanged(_, itemId, newQuantity) =>
        var found := FindItem(items, itemId);
        if found.Some? {
          var k := found.value;
          r := items[k := items[k].(quantity := newQuantity)];
        }
      case CartCleared(_) =>
        r := [];
      case _ =>
    }
  }

  method ProjectCartItems(events: seq<Event>) returns (view: CartItemsView)
    ensures view == CartItemsOf(events)
  {
    var items: seq<CartItem> := [];
    for i := 0 to |events|
      invariant items == ItemsAfter(events[..i])
    {
      assert events[..i + 1][..i] == events[..i];
      items := ApplyToItems(items, events[i]);
    }
    assert events[..|events|] == events;
    var cartId := match FirstCartCreated(events)
      case Some(c) => c
      case None => if |items| > 0 then items[0].cartId else "";
    view := CartItemsView(cartId, TotalPrice(items), items);
  }

  /** ItemAdded appends one item of quantity 1 after the ones already there. */
  lemma ItemAddedAppends(events: seq<Event>, e: Event)
    requires e.ItemAdded?
    ensures var before := ItemsAfter(events); var after := ItemsAfter(events + [e]);
      && |after| == |before| + 1 && after[..|before|] == before
      && after[|before|] == CartItem(e.cartId, e.itemId, e.productId, e.description, e.image, e.price, 1)
  {
    assert (events + [e])[..|events|] == events;
  }

  /** ItemRemoved and ItemArchived drop every item with that itemId and keep all others, in order. */
  lemma ItemRetiredDropsAll(events: seq<Event>, e: Event)
    requires e.ItemRemoved? || e.ItemArchived?
    ensures var before := ItemsAfter(events); var after := ItemsAfter(events + [e]);
      && after == WithoutItem(before, e.itemId)
      && (forall x :: x in after <==> x in before && x.itemId != e.itemId)
  {
    assert (events + [e])[..|events|] == events;
  }

  /** ItemQuantityChanged sets the quantity of the first item with that itemId; an absent item is a no-op. */
  lemma QuantityChangedSetsFirst(events: seq<Event>, e: Event)
    requires e.ItemQuantityChanged?
    ensures var before := ItemsAfter(events); var after := ItemsAfter(events + [e]);
      && |after| == |before|
      && ((forall k | 0 <= k < |before| :: before[k].itemId != e.itemId) ==> after == before)
      && forall k | 0 <= k < |before| ::
           after[k] == if FindItem(before, e.itemId) == Some(k) then before[k].(quantity := e.newQuantity) else before[k]
  {
    assert (events + [e])[..|events|] == events;
  }

  lemma CartClearedEmpties(events: seq<Event>, e: Event)
    requires e.CartCleared?
    ensures ItemsAfter(events + [e]) == [] && TotalPrice(ItemsAfter(events + [e])) == 0
  {
    assert (events + [e])[..|events|] == events;
  }

  /** The cart id is the first CartCreated's, else the first item's, else empty. */
  lemma CartIdPrecedence(events: seq<Event>, k: nat)
    ensures k < |events| && events[k].CartCreated? && (forall j | 0 <= j < k :: !events[j].CartCreated?)
      ==> CartItemsOf(events).cartId == events[k].cartId
    ensures (forall j | 0 <= j < |events| :: !events[j].CartCreated?) ==>
      CartItemsOf(events).cartId == (if |ItemsAfter(events)| > 0 then ItemsAfter(events)[0].cartId else "")
  {
    if k < |events| && events[k].CartCreated? && (forall j | 0 <= j < k :: !events[j].CartCreated?) {
      var c := FirstCartCreated(events);
      var m :| 0 <= m < |events| && events[m] == CartCreated(c.value) && forall j | 0 <= j < m :: !events[j].CartCreated?;
      assert m == k;
    }
  }

  /** The total of a concatenation is the sum of the totals. */
  lemma {:induction false} TotalPriceAppend(a: seq<CartItem>, b: seq<CartItem>)
    ensures TotalPrice(a + b) == TotalPrice(a) + TotalPrice(b)
    decreases |b|
  {
    if b == [] {
      assert a + b == a;
    } else {
      var n := |b| - 1;
      assert (a + b)[..|a + b| - 1] == a + b[..n];
      TotalPriceAppend(a, b[..n]);
    }
  }

  lemma ItemsAfterSnoc(events: seq<Event>, e: Event)
    ensures ItemsAfter(events + [e]) == ItemsStep(ItemsAfter(events), e)
  {
    assert (events + [e])[..|events|] == events;
  }

  // The given/when/then scenarios.

  lemma IsEmptyInBeginning(c: string)
    ensures CartItemsOf([CartCreated(c)]) == CartItemsView(c, 0, [])
  {
    ItemsAfterSnoc([], CartCreated(c));
    assert [] + [CartCreated(c)] == [CartCreated(c)];
  }

  lemma Has1Item(c: string, i: string, p: string)
    ensures var view := CartItemsOf([CartCreated(c), ItemAdded(c, i, p, Some("Description"), Some("Image"), 10)]);
      view.cartId == c && |view.items| == 1 && view.items[0].itemId == i && view.items[0].productId == p
  {
    var added := ItemAdded(c, i, p, Some("Description"), Some("Image"), 10);
    ItemsAfterSnoc([], CartCreated(c));
    ItemsAfterSnoc([CartCreated(c)], added);
    assert [] + [CartCreated(c)] == [CartCreated(c)];
    assert [CartCreated(c)] + [added] == [CartCreated(c), added];
  }

  lemma QuantityChangeUpdatesTotalPrice(c: string, i: string, p: string)
    ensures var view := CartItemsOf([CartCreated(c), ItemAdded(c, i, p, Some("Description"), Some("Image"), 10),
                                     ItemQuantityChanged(c, i, 3)]);
      |view.items| == 1 && view.items[0].quantity == 3 && view.totalPrice == 30
  {
    var added := ItemAdded(c, i, p, Some("Description"), Some("Image"), 10);
    var changed := ItemQuantityChanged(c, i, 3);
    ItemsAfterSnoc([], CartCreated(c));
    ItemsAfterSnoc([CartCreated(c)], added);
    ItemsAfterSnoc([CartCreated(c), added], changed);
    assert [] + [CartCreated(c)] == [CartCreated(c)];
    assert [CartCreated(c)] + [added] == [CartCreated(c), added];
    assert [CartCreated(c), added] + [changed] == [CartCreated(c), added, changed];
    var items := ItemsAfter([CartCreated(c), added, changed]);
    assert items == [CartItem(c, i, p, Some("Description"), Some("Image"), 10, 3)];
    assert items[..|items| - 1] == [];
    assert TotalPrice(items) == 30;
  }

  lemma Has2Items(c: string, i1: string, p1: string, i2: string, p2: string)
    ensures var view := CartItemsOf([CartCreated(c), ItemAdded(c, i1, p1, Some("Description"), Some("Image"), 10),
                                     ItemAdded(c, i2, p2, Some("Description"), Some("Image"), 10)]);
      && view.cartId == c && |view.items| == 2
      && view.items[0].itemId == i1 && view.items[0].productId == p1
      && view.items[1].itemId == i2 && view.items[1].productId == p2
  {
    var a1 := ItemAdded(c, i1, p1, Some("Description"), Some("Image"), 10);
    var a2 := ItemAdded(c, i2, p2, Some("Description"), Some("Image"), 10);
    ItemsAfterSnoc([], CartCreated(c));
    ItemsAfterSnoc([CartCreated(c)], a1);
    ItemsAfterSnoc([CartCreated(c), a1], a2);
    assert [] + [CartCreated(c)] == [CartCreated(c)];
    assert [CartCreated(c)] + [a1] == [CartCreated(c), a1];
    assert [CartCreated(c), a1] + [a2] == [CartCreated(c), a1, a2];
  }
}
