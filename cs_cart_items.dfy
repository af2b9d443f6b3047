/**
 * The cart-items state view of the root project (`CartItemsProjector.Projects`): the events of
 * one cart's stream folded into its id, its item list and a running total. The list and the
 * total are updated in place by each event.
 */
module CsCartItems {
  import opened Wrappers
  import opened CsEvents

  datatype CartItem = CartItem(cartId: Guid, description: Option<string>, image: Option<string>,
                               price: int, itemId: Guid, productId: Guid)

  /** `CartItemsStateView`; a fresh one has the empty Guid (0 here), total 0 and no items. */
  datatype CartItemsView = CartItemsView(cartId: Guid, totalPrice: int, cartItems: seq<CartItem>)

  const EmptyView := CartItemsView(0, 0, [])

  /** The position of the first item with the given id (`First(x => x.ItemId == itemId)`). */
  function FirstMatch(items: seq<CartItem>, itemId: Guid): (r: Option<nat>)
    ensures r.None? <==> forall i | 0 <= i < |items| :: items[i].itemId != itemId
    ensures r.Some? ==> r.value < |items| && items[r.value].itemId == itemId
    ensures r.Some? ==> forall i | 0 <= i < r.value :: items[i].itemId != itemId
    decreases |items|
  {
    if items == [] then None
    else if items[0].itemId == itemId then Some(0)
    else
      match FirstMatch(items[1..], itemId)
      case None => None
      case Some(i) => Some(i + 1)
  }

  /** `List.Remove` of the element `First` found: the list without position `i`. */
  function RemoveAt(items: seq<CartItem>, i: nat): (r: seq<CartItem>)
    requires i < |items|
    ensures |r| == |items| - 1
    ensures forall j | 0 <= j < i :: r[j] == items[j]
    ensures forall j | i <= j < |r| :: r[j] == items[j + 1]
  {
    items[..i] + items[i + 1..]
  }

  function NewItem(e: Event): CartItem
    requires e.ItemAdded?
  {
    CartItem(e.cartId, e.description, e.image, e.price, e.itemId, e.productId)
  }

  /** One event applied to the view; `First` without a match throws. */
  function Step(v: CartItemsView, e: Event): Result<CartItemsView, Fault> {
    match e
    case CartCreated(cartId) => Ok(v.(cartId := cartId))
    case ItemAdded(_, _, _, price, _, _) =>
      Ok(v.(cartItems := v.cartItems + [NewItem(e)], totalPrice := v.totalPrice + price))
    case ItemRemoved(itemId, _) =>
      (match FirstMatch(v.cartItems, itemId)
       case None => Err(NoMatchingElement(itemId))
       case Some(i) =>
         Ok(v.(totalPrice := v.totalPrice - v.cartItems[i].price, cartItems := RemoveAt(v.cartItems, i))))
    case CartClearedCommand(_) => Ok(v.(cartItems := []))
    case ItemArchived(_, itemId) =>
      (match FirstMatch(v.cartItems, itemId)
       case None => Err(NoMatchingElement(itemId))
       case Some(i) => Ok(v.(cartItems := RemoveAt(v.cartItems, i))))
    case _ => Ok(v)
  }

  /** The fold over the stream in order; the first exception ends it. */
  function CartItemsOf(events: seq<Event>): Result<CartItemsView, Fault>
    decreases |events|
  {
    if events == [] then Ok(EmptyView)
    else
      match CartItemsOf(events[..|events| - 1])
      case Err(f) => Err(f)
      case Ok(v) => Step(v, events[|events| - 1])
  }

  lemma CartItemsSnoc(s: seq<Event>, e: Event)
    ensures CartItemsOf(s + [e]) == match CartItemsOf(s) case Err(f) => Err(f) case Ok(v) => Step(v, e)
  {
    assert (s + [e])[..|s|] == s;
  }

  lemma {:induction false} CartItemsErrSticks(events: seq<Event>, k: nat)
    requires k <= |events| && CartItemsOf(events[..k]).Err?
    ensures CartItemsOf(events) == CartItemsOf(events[..k])
    decreases |events| - k
  {
    if k < |events| {
      var n := |events| - 1;
      assert events[..n][..k] == events[..k];
      CartItemsErrSticks(events[..n], k);
    } else {
      assert events[..k] == events;
    }
  }

  /**
   * The lambda of `Projects` over the events read from the cart's stream; the read itself is
   * the caller's (`events` is what `ReadStream(cartId)` returned).
   */
  method Projects(events: seq<Event>) returns (result: Result<CartItemsView, Fault>)
    ensures result == CartItemsOf(events)
  {
    var cartId: Guid, totalPrice: int, cartItems: seq<CartItem> := 0, 0, [];
    for n := 0 to |events|
      invariant CartItemsOf(events[..n]) == Ok(CartItemsView(cartId, totalPrice, cartItems))
    {
      assert events[..n + 1][..n] == events[..n];
      var e := events[n];
      match e {
        case CartCreated(id) =>
          cartId := id;
        case ItemAdded(_, _, _, price, _, _) =>
          cartItems := cartItems + [NewItem(e)];
          totalPrice := totalPrice + price;
        case ItemRemoved(itemId, _) =>
          var i := FirstMatch(cartItems, itemId);
          if i.None? {
            CartItemsErrSticks(events, n + 1);
            return Err(NoMatchingElement(itemId));
          }
          totalPrice := totalPrice - cartItems[i.value].price;
          cartItems := RemoveAt(cartItems, i.value);
        case CartClearedCommand(_) =>
          cartItems := [];
        case ItemArchived(_, itemId) =>
          var i := FirstMatch(cartItems, itemId);
          if i.None? {
            CartItemsErrSticks(events, n + 1);
            return Err(NoMatchingElement(itemId));
          }
          cartItems := RemoveAt(cartItems, i.value);
        case _ =>
      }
    }
    assert events[..|events|] == events;
    result := Ok(CartItemsView(cartId, totalPrice, cartItems));
  }

  // ----- One event at a time -----

  lemma CartCreatedSetsId(v: CartItemsView, cartId: Guid)
    ensures Step(v, CartCreated(cartId)) == Ok(CartItemsView(cartId, v.totalPrice, v.cartItems))
  {
  }

  /** ItemAdded appends the item with the event's fields and adds its price to the total. */
  lemma ItemAddedAppends(v: CartItemsView, e: Event)
    requires e.ItemAdded?
    ensures Step(v, e).Ok?
    ensures var r := Step(v, e).value;
      && r.cartId == v.cartId
      && |r.cartItems| == |v.cartItems| + 1
      && r.cartItems[..|v.cartItems|] == v.cartItems
      && r.cartItems[|v.cartItems|] == CartItem(e.cartId, e.description, e.image, e.price, e.itemId, e.productId)
      && r.totalPrice == v.totalPrice + e.price
  {
    assert (v.cartItems + [NewItem(e)])[..|v.cartItems|] == v.cartItems;
  }

  /**
   * ItemRemoved throws when no item has the id; otherwise it takes out the first item with that
   * id, leaving the others in order, and subtracts that item's price from the total.
   */
  lemma ItemRemovedOutcome(v: CartItemsView, itemId: Guid, cartId: Guid)
    ensures Step(v, ItemRemoved(itemId, cartId)).Err? <==> forall i | 0 <= i < |v.cartItems| :: v.cartItems[i].itemId != itemId
    ensures Step(v, ItemRemoved(itemId, cartId)).Err? ==> Step(v, ItemRemoved(itemId, cartId)).error == NoMatchingElement(itemId)
    ensures Step(v, ItemRemoved(itemId, cartId)).Ok? ==>
      exists i | 0 <= i < |v.cartItems| ::
        && v.cartItems[i].itemId == itemId
        && (forall j | 0 <= j < i :: v.cartItems[j].itemId != itemId)
        && Step(v, ItemRemoved(itemId, cartId)) ==
           Ok(CartItemsView(v.cartId, v.totalPrice - v.cartItems[i].price, v.cartItems[..i] + v.cartItems[i + 1..]))
  {
    var e := ItemRemoved(itemId, cartId);
    var m := FirstMatch(v.cartItems, itemId);
    if m.Some? {
      var i := m.value;
      var rest := v.cartItems[..i] + v.cartItems[i + 1..];
      assert RemoveAt(v.cartItems, i) == rest;
      assert Step(v, e) == Ok(CartItemsView(v.cartId, v.totalPrice - v.cartItems[i].price, rest));
    } else {
      assert Step(v, e) == Err(NoMatchingElement(itemId));
    }
  }

  /** ItemArchived takes out the first item with the id like ItemRemoved, but leaves the total. */
  lemma ItemArchivedOutcome(v: CartItemsView, cartId: Guid, itemId: Guid)
    ensures Step(v, ItemArchived(cartId, itemId)).Err? <==> forall i | 0 <= i < |v.cartItems| :: v.cartItems[i].itemId != itemId
    ensures Step(v, ItemArchived(cartId, itemId)).Ok? ==>
      exists i | 0 <= i < |v.cartItems| ::
        && v.cartItems[i].itemId == itemId
        && (forall j | 0 <= j < i :: v.cartItems[j].itemId != itemId)
        && Step(v, ItemArchived(cartId, itemId)) == Ok(CartItemsView(v.cartId, v.totalPrice, v.cartItems[..i] + v.cartItems[i + 1..]))
  {
    var e := ItemArchived(cartId, itemId);
    var m := FirstMatch(v.cartItems, itemId);
    if m.Some? {
      var i := m.value;
      var rest := v.cartItems[..i] + v.cartItems[i + 1..];
      assert RemoveAt(v.cartItems, i) == rest;
      assert Step(v, e) == Ok(CartItemsView(v.cartId, v.totalPrice, rest));
    } else {
      assert Step(v, e) == Err(NoMatchingElement(itemId));
    }
  }

  /** CartClearedCommand empties the list and leaves the total as it was. */
  lemma ClearKeepsTotal(v: CartItemsView, cartId: Guid)
    ensures Step(v, CartClearedCommand(cartId)) == Ok(CartItemsView(v.cartId, v.totalPrice, []))
  {
  }

  lemma OtherEventsIgnored(v: CartItemsView, e: Event)
    requires !e.CartCreated? && !e.ItemAdded? && !e.ItemRemoved? && !e.CartClearedCommand? && !e.ItemArchived?
    ensures Step(v, e) == Ok(v)
  {
  }

  // ----- The total is the sum of the items' prices while nothing is cleared or archived -----

  function SumPrices(items: seq<CartItem>): int
    decreases |items|
  {
    if items == [] then 0 else SumPrices(items[..|items| - 1]) + items[|items| - 1].price
  }

  lemma {:induction false} SumPricesAppend(a: seq<CartItem>, b: seq<CartItem>)
    ensures SumPrices(a + b) == SumPrices(a) + SumPrices(b)
    decreases |b|
  {
    if b == [] {
      assert a + b == a;
    } else {
      var n := |b| - 1;
      assert (a + b)[..|a + b| - 1] == a + b[..n];
      SumPricesAppend(a, b[..n]);
    }
  }

  /** Taking out one item lowers the sum by its price. */
  lemma SumPricesRemoveAt(items: seq<CartItem>, i: nat)
    requires i < |items|
    ensures SumPrices(items[..i] + items[i + 1..]) == SumPrices(items) - items[i].price
  {
    var front, mid, back := items[..i], [items[i]], items[i + 1..];
    assert items == front + (mid + back);
    SumPricesAppend(front, mid + back);
    SumPricesAppend(mid, back);
    SumPricesAppend(front, back);
    assert SumPrices(mid) == items[i].price by { assert mid[..0] == []; }
  }

  /** The events that can make the total and the list disagree. */
  predicate Drops(e: Event) {
    e.CartClearedCommand? || e.ItemArchived?
  }

  /** An event other than CartClearedCommand and ItemArchived keeps the total equal to the sum. */
  lemma StepKeepsSum(v: CartItemsView, e: Event)
    requires !Drops(e) && v.totalPrice == SumPrices(v.cartItems) && Step(v, e).Ok?
    ensures Step(v, e).value.totalPrice == SumPrices(Step(v, e).value.cartItems)
  {
    match e
    case ItemAdded(_, _, _, _, _, _) =>
      assert (v.cartItems + [NewItem(e)])[..|v.cartItems|] == v.cartItems;
    case ItemRemoved(itemId, _) =>
      var i := FirstMatch(v.cartItems, itemId);
      SumPricesRemoveAt(v.cartItems, i.value);
    case _ =>
  }

  /** With no CartClearedCommand and no ItemArchived, TotalPrice is the sum of the listed items' prices. */
  lemma {:induction false} TotalIsSumOfItems(events: seq<Event>)
    requires forall k | 0 <= k < |events| :: !Drops(events[k])
    ensures CartItemsOf(events).Ok? ==> CartItemsOf(events).value.totalPrice == SumPrices(CartItemsOf(events).value.cartItems)
    decreases |events|
  {
    if events != [] {
      var n := |events| - 1;
      var s, e := events[..n], events[n];
      assert events == s + [e];
      CartItemsSnoc(s, e);
      assert forall k | 0 <= k < |s| :: s[k] == events[k];
      TotalIsSumOfItems(s);
      if CartItemsOf(s).Ok? && Step(CartItemsOf(s).value, e).Ok? {
        StepKeepsSum(CartItemsOf(s).value, e);
      }
    }
  }

  /** A clear right after an add keeps the added price in the total with an empty list. */
  lemma ClearedTotalSurvives(v: CartItemsView, e: Event, cartId: Guid)
    requires e.ItemAdded?
    ensures var r := Step(Step(v, e).value, CartClearedCommand(cartId));
      r == Ok(CartItemsView(v.cartId, v.totalPrice + e.price, []))
  {
  }
}
