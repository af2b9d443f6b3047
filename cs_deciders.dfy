/**
 * The per-command deciders of the C# decider model: AddItem, RemoveItem, SubmitCart and
 * PublishCart. A decider reads the folded `Cart` and the command and returns the new events;
 * each exception it throws becomes a `Rejection`. The Kafka publish of PublishCart is not
 * modelled: whether it succeeds is an input.
 */
module CsDeciders {
  import opened Wrappers
  import opened OrderedMap
  import opened CsEvents
  import opened CsCart
  import opened CsInventories

  datatype Rejection =
    | TooManyItemsInCart(cartId: Option<Guid>, itemId: Guid)
    | ItemCanNotBeRemoved(itemId: Guid)
    | NotEnoughInStock
    | CannotSubmitEmptyCart
    | CartCannotBeSubmittedTwice
    /** A runtime exception of the decider itself (a missing price, a null cart id). */
    | Crashed(fault: Fault)

  const MaxItems: nat := 3

  datatype AddItemCommand = AddItemCommand(
    cartId: Guid, description: Option<string>, image: Option<string>,
    price: int, itemId: Guid, productId: Guid)

  datatype RemoveItemCommand = RemoveItemCommand(itemId: Guid, cartId: Guid)

  datatype SubmitCartCommand = SubmitCartCommand(cartId: Guid, orderedProducts: seq<PricedProduct>)

  datatype PublishCartCommand = PublishCartCommand(cartId: Guid, orderedProducts: seq<PricedProduct>, totalPrice: int)

  /** The message handed to the publisher: copied from the command. */
  datatype ExternalCartPublished = ExternalCartPublished(cartId: Guid, orderedProducts: seq<PricedProduct>, totalPrice: int)

  /** What the publish handler did: the message it tried to publish and the events it returns. */
  datatype PublishOutcome = PublishOutcome(sent: ExternalCartPublished, events: seq<Event>)

  // ----- AddItem -----

  function AddItem(state: Cart, command: AddItemCommand): (r: Result<seq<Event>, Rejection>)
    ensures r.Err? <==> |state.cartItems| >= MaxItems
    ensures r.Err? ==> r.error == TooManyItemsInCart(state.cartId, command.itemId)
    ensures r.Ok? ==> |r.value| == (if state.cartId.None? then 2 else 1)
    ensures r.Ok? && state.cartId.None? ==> r.value[0] == CartCreated(command.cartId)
    ensures r.Ok? ==> r.value[|r.value| - 1] == ItemAdded(command.cartId, command.description,
      command.image, command.price, command.itemId, command.productId)
  {
    var created := if state.cartId == None then [CartCreated(command.cartId)] else [];
    if |state.cartItems| >= MaxItems then Err(TooManyItemsInCart(state.cartId, command.itemId))
    else Ok(created + [ItemAdded(command.cartId, command.description, command.image,
                                 command.price, command.itemId, command.productId)])
  }

  /** Whatever the state, folding the accepted events records the item and its price. */
  lemma AddItemThenEvolve(state: Cart, command: AddItemCommand)
    requires AddItem(state, command).Ok?
    ensures var next := FoldWith(Evolve, state, AddItem(state, command).value);
      && next.Ok?
      && next.value.cartId.Some?
      && Get(next.value.cartItems, command.itemId) == Some(command.productId)
      && command.productId in next.value.productPrice
      && next.value.productPrice[command.productId] == command.price
  {
    var evs := AddItem(state, command).value;
    var added := ItemAdded(command.cartId, command.description, command.image,
                           command.price, command.itemId, command.productId);
    if state.cartId.None? {
      var created := state.(cartId := Some(command.cartId));
      assert evs == [CartCreated(command.cartId), added];
      assert evs[1..] == [added];
      EvolveItemAdded(created, added);
      FoldOne(Evolve, created, added);
    } else {
      assert evs == [added];
      EvolveItemAdded(state, added);
      FoldOne(Evolve, state, added);
    }
  }

  // ----- RemoveItem -----

  function RemoveItem(state: Cart, command: RemoveItemCommand): (r: Result<seq<Event>, Rejection>)
    ensures r.Err? <==> !Has(state.cartItems, command.itemId)
    ensures r.Err? ==> r.error == ItemCanNotBeRemoved(command.itemId)
    ensures r.Ok? ==> r.value == [ItemRemoved(command.itemId, command.cartId)]
  {
    if !Has(state.cartItems, command.itemId) then Err(ItemCanNotBeRemoved(command.itemId))
    else Ok([ItemRemoved(command.itemId, command.cartId)])
  }

  /** The decision depends on nothing but whether the item is in the cart. */
  lemma RemoveItemOnlyReadsMembership(s1: Cart, s2: Cart, command: RemoveItemCommand)
    requires Has(s1.cartItems, command.itemId) == Has(s2.cartItems, command.itemId)
    ensures RemoveItem(s1, command) == RemoveItem(s2, command)
  {
  }

  /** Folding the accepted event removes the item, so a second removal is rejected. */
  lemma RemoveItemThenEvolve(state: Cart, command: RemoveItemCommand)
    requires RemoveItem(state, command).Ok?
    ensures var next := FoldWith(Evolve, state, RemoveItem(state, command).value);
      && next.Ok?
      && !Has(next.value.cartItems, command.itemId)
      && RemoveItem(next.value, command) == Err(ItemCanNotBeRemoved(command.itemId))
  {
    var e := ItemRemoved(command.itemId, command.cartId);
    EvolveRetires(state, e);
    assert [e][1..] == [];
  }

  // ----- SubmitCart -----

  /** `CheckInventory`: every item's product is in the inventory view with a positive count. */
  function CheckInventory(items: seq<(Guid, Guid)>, inventories: map<Guid, int>): (ok: bool)
    ensures ok <==> forall i | 0 <= i < |items| :: items[i].1 in inventories && inventories[items[i].1] > 0
    decreases |items|
  {
    if items == [] then true
    else
      var tail := CheckInventory(items[1..], inventories);
      assert forall i | 1 <= i < |items| :: items[1..][i - 1] == items[i];
      items[0].1 in inventories && inventories[items[0].1] > 0 && tail
  }

  /**
   * `CartItems.Select(i => (i.Value, productPrice[i.Value]))` evaluated in enumeration order:
   * the first product without a price throws.
   */
  function PricesOf(items: seq<(Guid, Guid)>, prices: map<Guid, int>): (r: Result<seq<PricedProduct>, Fault>)
    ensures r.Ok? <==> forall i | 0 <= i < |items| :: items[i].1 in prices
    ensures r.Ok? ==> |r.value| == |items|
    ensures r.Ok? ==> forall i | 0 <= i < |items| :: r.value[i] == PricedProduct(items[i].1, prices[items[i].1])
    ensures r.Err? ==> exists i | 0 <= i < |items| :: items[i].1 !in prices && r.error == KeyNotFound(items[i].1)
    decreases |items|
  {
    if items == [] then Ok([])
    else if items[0].1 !in prices then Err(KeyNotFound(items[0].1))
    else
      var rest := PricesOf(items[1..], prices);
      assert forall i | 1 <= i < |items| :: items[1..][i - 1] == items[i];
      match rest
      case Err(f) => Err(f)
      case Ok(ps) => Ok([PricedProduct(items[0].1, prices[items[0].1])] + ps)
  }

  /** `Sum` of the prices. */
  function Total(ps: seq<PricedProduct>): int
    decreases |ps|
  {
    if ps == [] then 0 else Total(ps[..|ps| - 1]) + ps[|ps| - 1].price
  }

  /**
   * The submit decider. The inventory check comes first, then emptiness, then double
   * submission; the command's ordered products are not read, the event's products and total
   * come from the state.
   */
  function SubmitCart(state: Cart, inventories: map<Guid, int>, command: SubmitCartCommand): (r: Result<seq<Event>, Rejection>)
    ensures !CheckInventory(state.cartItems, inventories) <==> r == Err(NotEnoughInStock)
    ensures CheckInventory(state.cartItems, inventories) && |state.cartItems| == 0 ==> r == Err(CannotSubmitEmptyCart)
    ensures CheckInventory(state.cartItems, inventories) && |state.cartItems| > 0 && state.isSubmitted
      ==> r == Err(CartCannotBeSubmittedTwice)
    ensures r.Err? && r.error.Crashed? ==> state.cartId.None? || !PricesCovered(state)
    ensures (CheckInventory(state.cartItems, inventories) && |state.cartItems| > 0 && !state.isSubmitted
      && state.cartId.Some? && PricesCovered(state)) ==> r.Ok?
    ensures r.Ok? ==>
      && CheckInventory(state.cartItems, inventories) && |state.cartItems| > 0 && !state.isSubmitted
      && state.cartId.Some? && PricesCovered(state)
      && |r.value| == 1 && r.value[0].CartSubmitted?
      && r.value[0].cartId == state.cartId.value
      && |r.value[0].orderedProducts| == |state.cartItems|
      && (forall i | 0 <= i < |state.cartItems| :: r.value[0].orderedProducts[i]
            == PricedProduct(state.cartItems[i].1, state.productPrice[state.cartItems[i].1]))
      && r.value[0].totalPrice == Total(r.value[0].orderedProducts)
  {
    if !CheckInventory(state.cartItems, inventories) then Err(NotEnoughInStock)
    else if |state.cartItems| == 0 then Err(CannotSubmitEmptyCart)
    else if state.isSubmitted then Err(CartCannotBeSubmittedTwice)
    else if state.cartId.None? then Err(Crashed(NullValue))
    else
      match PricesOf(state.cartItems, state.productPrice)
      case Err(f) => Err(Crashed(f))
      case Ok(ps) => Ok([CartSubmitted(state.cartId.value, ps, Total(ps))])
  }

  /** The submit decider never reads the command. */
  lemma SubmitIgnoresCommand(state: Cart, inventories: map<Guid, int>, c1: SubmitCartCommand, c2: SubmitCartCommand)
    ensures SubmitCart(state, inventories, c1) == SubmitCart(state, inventories, c2)
  {
  }

  /**
   * A cart rebuilt by the corrected fold, once created, never crashes the submit decider:
   * every item's product has a price.
   */
  lemma SubmitBuiltCartNeverCrashes(events: seq<Event>, inventories: map<Guid, int>, command: SubmitCartCommand)
    requires Build(events).Ok? && Build(events).value.cartId.Some?
    ensures var r := SubmitCart(Build(events).value, inventories, command); !(r.Err? && r.error.Crashed?)
  {
    BuildPricesCovered(events);
  }

  /** The stream of the counterexample: cart c gets items i1 and i2, both of product p; i1 is removed. */
  function SharedProductStream(c: Guid, i1: Guid, i2: Guid, p: Guid): seq<Event> {
    [CartCreated(c), ItemAdded(c, None, None, 10, i1, p), ItemAdded(c, None, None, 10, i2, p), ItemRemoved(i1, c)]
  }

  function SharedOne(c: Guid, i1: Guid, p: Guid): Cart {
    Cart(Some(c), [(i1, p)], map[p := 10], false, false, false)
  }

  function SharedTwo(c: Guid, i1: Guid, i2: Guid, p: Guid): Cart
    requires i1 != i2
  {
    Cart(Some(c), [(i1, p), (i2, p)], map[p := 10], false, false, false)
  }

  function SharedAfterRemoval(c: Guid, i2: Guid, p: Guid): Cart {
    Cart(Some(c), [(i2, p)], map[], false, false, false)
  }

  lemma SharedFirstStep(c: Guid, i1: Guid, p: Guid)
    ensures EvolveAsWritten(Initial, CartCreated(c)) == Ok(Initial.(cartId := Some(c)))
    ensures EvolveAsWritten(Initial.(cartId := Some(c)), ItemAdded(c, None, None, 10, i1, p)) == Ok(SharedOne(c, i1, p))
  {
    var c0 := Initial.(cartId := Some(c));
    assert Keys(c0.cartItems) == [];
    EvolveFreshItem(c0, ItemAdded(c, None, None, 10, i1, p));
  }

  lemma SharedSecondStep(c: Guid, i1: Guid, i2: Guid, p: Guid)
    requires i1 != i2
    ensures EvolveAsWritten(SharedOne(c, i1, p), ItemAdded(c, None, None, 10, i2, p)) == Ok(SharedTwo(c, i1, i2, p))
  {
    var c1 := SharedOne(c, i1, p);
    assert Keys(c1.cartItems) == [i1];
    EvolveFreshItem(c1, ItemAdded(c, None, None, 10, i2, p));
    assert c1.cartItems + [(i2, p)] == SharedTwo(c, i1, i2, p).cartItems;
    assert c1.productPrice[p := 10] == SharedTwo(c, i1, i2, p).productPrice;
  }

  lemma SharedRemoveStep(c: Guid, i1: Guid, i2: Guid, p: Guid)
    requires i1 != i2
    ensures EvolveAsWritten(SharedTwo(c, i1, i2, p), ItemRemoved(i1, c)) == Ok(SharedAfterRemoval(c, i2, p))
  {
    var c2 := SharedTwo(c, i1, i2, p);
    GetEntry(c2.cartItems, 0);
    EvolveRemovedAsWrittenValue(c2, i1, c);
    DeleteAt(c2.cartItems, 0);
    assert c2.cartItems[..0] + c2.cartItems[1..] == [(i2, p)];
    assert c2.productPrice - {p} == map[];
  }

  /** As written, the counterexample stream folds to a cart whose one item has no price. */
  lemma SharedProductState(c: Guid, i1: Guid, i2: Guid, p: Guid)
    requires i1 != i2
    ensures BuildAsWritten(SharedProductStream(c, i1, i2, p)) == Ok(SharedAfterRemoval(c, i2, p))
  {
    var stream := SharedProductStream(c, i1, i2, p);
    SharedFirstStep(c, i1, p);
    SharedSecondStep(c, i1, i2, p);
    SharedRemoveStep(c, i1, i2, p);
    FoldFour(EvolveAsWritten, Initial, stream[0], Initial.(cartId := Some(c)), stream[1], SharedOne(c, i1, p),
      stream[2], SharedTwo(c, i1, i2, p), stream[3], SharedAfterRemoval(c, i2, p));
  }

  /**
   * As written, two items of one product and the removal of one of them lose the product's
   * price, and the submit decider then throws KeyNotFound although the product is in stock.
   */
  lemma SharedProductRemovalCrashesSubmit(c: Guid, i1: Guid, i2: Guid, p: Guid, stock: int)
    requires i1 != i2 && stock > 0
    ensures var s := BuildAsWritten(SharedProductStream(c, i1, i2, p));
      && s.Ok? && s.value.cartItems == [(i2, p)] && p !in s.value.productPrice
      && SubmitCart(s.value, map[p := stock], SubmitCartCommand(c, [])) == Err(Crashed(KeyNotFound(p)))
  {
    SharedProductState(c, i1, i2, p);
    var c3 := SharedAfterRemoval(c, i2, p);
    assert CheckInventory(c3.cartItems, map[p := stock]) by {
      assert c3.cartItems[0].1 == p;
    }
    assert PricesOf(c3.cartItems, c3.productPrice) == Err(KeyNotFound(p));
  }

  // ----- PublishCart -----

  /**
   * The publish handler: the publish is attempted first, whatever the state; any failure, the
   * publisher's or the state's (not submitted, already published), becomes CartPublicationFailed.
   */
  function PublishCart(state: Cart, command: PublishCartCommand, publishSucceeds: bool): (r: PublishOutcome)
    ensures r.sent == ExternalCartPublished(command.cartId, command.orderedProducts, command.totalPrice)
    ensures |r.events| == 1
    ensures r.events == [CartPublished(command.cartId)] <==> publishSucceeds && state.isSubmitted && !state.isPublished
    ensures r.events == [CartPublicationFailed(command.cartId)] <==> !publishSucceeds || !state.isSubmitted || state.isPublished
  {
    var sent := ExternalCartPublished(command.cartId, command.orderedProducts, command.totalPrice);
    if !publishSucceeds || !state.isSubmitted || state.isPublished then
      PublishOutcome(sent, [CartPublicationFailed(command.cartId)])
    else PublishOutcome(sent, [CartPublished(command.cartId)])
  }

  /** Once a publication is folded in, every further publish fails, even with a working publisher. */
  lemma PublishThenPublish(state: Cart, command: PublishCartCommand)
    requires state.isSubmitted && !state.isPublished
    ensures var evs := PublishCart(state, command, true).events;
      && FoldWith(Evolve, state, evs).Ok?
      && PublishCart(FoldWith(Evolve, state, evs).value, command, true).events == [CartPublicationFailed(command.cartId)]
  {
    var evs := PublishCart(state, command, true).events;
    assert evs[1..] == [];
  }

  // ----- The given/when/then scenarios (cart c, items i1, i2, i3, products p1, p2, p3) -----

  function TwoItemStream(c: Guid, i1: Guid, p1: Guid, i2: Guid, p2: Guid): seq<Event> {
    [CartCreated(c),
     ItemAdded(c, Some("Description"), Some("Image"), 10, i1, p1),
     ItemAdded(c, Some("Description"), Some("Image"), 10, i2, p2)]
  }

  function TwoItemCart(c: Guid, i1: Guid, p1: Guid, i2: Guid, p2: Guid): Cart
    requires i1 != i2
  {
    Cart(Some(c), [(i1, p1), (i2, p2)], map[p1 := 10, p2 := 10], false, false, false)
  }

  /** The cart after CartCreated(c) and the first item. */
  function OneItemCart(c: Guid, i1: Guid, p1: Guid): Cart {
    Cart(Some(c), [(i1, p1)], map[p1 := 10], false, false, false)
  }

  lemma FirstItemStep(c: Guid, i1: Guid, p1: Guid)
    ensures Evolve(Initial, CartCreated(c)) == Ok(Initial.(cartId := Some(c)))
    ensures Evolve(Initial.(cartId := Some(c)), ItemAdded(c, Some("Description"), Some("Image"), 10, i1, p1))
      == Ok(OneItemCart(c, i1, p1))
  {
    var c0 := Initial.(cartId := Some(c));
    assert Keys(c0.cartItems) == [];
    EvolveFreshItem(c0, ItemAdded(c, Some("Description"), Some("Image"), 10, i1, p1));
  }

  lemma SecondItemStep(c: Guid, i1: Guid, p1: Guid, i2: Guid, p2: Guid)
    requires i1 != i2
    ensures Evolve(OneItemCart(c, i1, p1), ItemAdded(c, Some("Description"), Some("Image"), 10, i2, p2))
      == Ok(TwoItemCart(c, i1, p1, i2, p2))
  {
    var c1 := OneItemCart(c, i1, p1);
    assert Keys(c1.cartItems) == [i1];
    EvolveFreshItem(c1, ItemAdded(c, Some("Description"), Some("Image"), 10, i2, p2));
    assert c1.cartItems + [(i2, p2)] == TwoItemCart(c, i1, p1, i2, p2).cartItems;
  }

  lemma TwoItemState(c: Guid, i1: Guid, p1: Guid, i2: Guid, p2: Guid)
    requires i1 != i2
    ensures Build(TwoItemStream(c, i1, p1, i2, p2)) == Ok(TwoItemCart(c, i1, p1, i2, p2))
  {
    FirstItemStep(c, i1, p1);
    SecondItemStep(c, i1, p1, i2, p2);
    var stream := TwoItemStream(c, i1, p1, i2, p2);
    FoldThree(Evolve, Initial, stream[0], Initial.(cartId := Some(c)), stream[1], OneItemCart(c, i1, p1),
      stream[2], TwoItemCart(c, i1, p1, i2, p2));
  }

  /** The two-item stream followed by more events folds those events from the two-item cart. */
  lemma TwoItemThen(c: Guid, i1: Guid, p1: Guid, i2: Guid, p2: Guid, more: seq<Event>)
    requires i1 != i2
    ensures Build(TwoItemStream(c, i1, p1, i2, p2) + more) == FoldWith(Evolve, TwoItemCart(c, i1, p1, i2, p2), more)
  {
    TwoItemState(c, i1, p1, i2, p2);
    FoldAppend(Evolve, Initial, TwoItemStream(c, i1, p1, i2, p2), more);
  }

  /** A state with no cart yet: the decider creates the cart, then adds the item. */
  lemma CartSessionCreatedAutomatically(command: AddItemCommand)
    ensures AddItem(Initial, command) == Ok([CartCreated(command.cartId), ItemAdded(command.cartId,
      command.description, command.image, command.price, command.itemId, command.productId)])
  {
    var added := ItemAdded(command.cartId, command.description, command.image, command.price, command.itemId, command.productId);
    assert [CartCreated(command.cartId)] + [added] == [CartCreated(command.cartId), added];
  }

  lemma AddsMaximum3Items(c: Guid, i1: Guid, p1: Guid, i2: Guid, p2: Guid, i3: Guid, p3: Guid, i4: Guid, p4: Guid)
    requires i1 != i2 && i3 != i1 && i3 != i2
    ensures var s := Build(TwoItemStream(c, i1, p1, i2, p2) + [ItemAdded(c, Some("Description"), Some("Image"), 10, i3, p3)]);
      && s.Ok?
      && AddItem(s.value, AddItemCommand(c, Some("Description"), Some("Image"), 10, i4, p4))
           == Err(TooManyItemsInCart(Some(c), i4))
  {
    var e3 := ItemAdded(c, Some("Description"), Some("Image"), 10, i3, p3);
    var two := TwoItemCart(c, i1, p1, i2, p2);
    TwoItemThen(c, i1, p1, i2, p2, [e3]);
    FoldOne(Evolve, two, e3);
    assert Keys(two.cartItems) == [i1, i2];
    EvolveFreshItem(two, e3);
  }

  lemma RemoveItemTest(c: Guid, i1: Guid, p1: Guid, i2: Guid, p2: Guid)
    requires i1 != i2
    ensures var s := Build(TwoItemStream(c, i1, p1, i2, p2));
      s.Ok? && RemoveItem(s.value, RemoveItemCommand(i1, c)) == Ok([ItemRemoved(i1, c)])
  {
    TwoItemState(c, i1, p1, i2, p2);
    assert TwoItemCart(c, i1, p1, i2, p2).cartItems[0].0 == i1;
  }

  lemma RemoveItemWhichWasAlreadyRemovedThrows(c: Guid, i1: Guid, p1: Guid, i2: Guid, p2: Guid)
    requires i1 != i2
    ensures var s := Build(TwoItemStream(c, i1, p1, i2, p2) + [ItemRemoved(i1, c)]);
      s.Ok? && RemoveItem(s.value, RemoveItemCommand(i1, c)) == Err(ItemCanNotBeRemoved(i1))
  {
    var two := TwoItemCart(c, i1, p1, i2, p2);
    TwoItemThen(c, i1, p1, i2, p2, [ItemRemoved(i1, c)]);
    FoldOne(Evolve, two, ItemRemoved(i1, c));
    GetEntry(two.cartItems, 0);
    EvolveRetires(two, ItemRemoved(i1, c));
  }

  lemma CantSubmitNoProductsInStock(c: Guid, i1: Guid, p1: Guid, i2: Guid, p2: Guid)
    requires i1 != i2
    ensures var s := Build(TwoItemStream(c, i1, p1, i2, p2));
      s.Ok? && SubmitCart(s.value, Inventories([]), SubmitCartCommand(c, [PricedProduct(p1, 10), PricedProduct(p2, 5)]))
        == Err(NotEnoughInStock)
  {
    var two := TwoItemCart(c, i1, p1, i2, p2);
    TwoItemState(c, i1, p1, i2, p2);
    var none: map<Guid, int> := map[];
    assert !CheckInventory(two.cartItems, none) by {
      assert two.cartItems[0].1 !in none;
    }
  }

  lemma CantSubmitNoQuantity(c: Guid, i1: Guid, p1: Guid, i2: Guid, p2: Guid)
    requires i1 != i2 && p1 != p2
    ensures var s := Build(TwoItemStream(c, i1, p1, i2, p2));
      s.Ok? && SubmitCart(s.value, Inventories([InventoryChanged(0, p1), InventoryChanged(0, p2)]),
        SubmitCartCommand(c, [PricedProduct(p1, 10), PricedProduct(p2, 5)])) == Err(NotEnoughInStock)
  {
    var two := TwoItemCart(c, i1, p1, i2, p2);
    TwoItemState(c, i1, p1, i2, p2);
    InventoriesOfTwo(p1, 0, p2, 0);
    assert !CheckInventory(two.cartItems, map[p1 := 0, p2 := 0]) by {
      assert two.cartItems[0].1 == p1;
    }
  }

  function SubmittedEvent(c: Guid, p1: Guid, p2: Guid): Event {
    CartSubmitted(c, [PricedProduct(p1, 10), PricedProduct(p2, 10)], 20)
  }

  lemma CantSubmitCartTwice(c: Guid, i1: Guid, p1: Guid, i2: Guid, p2: Guid)
    requires i1 != i2 && p1 != p2
    ensures var s := Build(TwoItemStream(c, i1, p1, i2, p2) + [SubmittedEvent(c, p1, p2)]);
      s.Ok? && SubmitCart(s.value, Inventories([InventoryChanged(1, p1), InventoryChanged(1, p2)]),
        SubmitCartCommand(c, [PricedProduct(p1, 10), PricedProduct(p2, 5)])) == Err(CartCannotBeSubmittedTwice)
  {
    var two := TwoItemCart(c, i1, p1, i2, p2);
    TwoItemThen(c, i1, p1, i2, p2, [SubmittedEvent(c, p1, p2)]);
    FoldOne(Evolve, two, SubmittedEvent(c, p1, p2));
    InventoriesOfTwo(p1, 1, p2, 1);
    assert CheckInventory(two.cartItems, map[p1 := 1, p2 := 1]) by {
      assert two.cartItems[0].1 == p1 && two.cartItems[1].1 == p2;
    }
  }

  lemma ShouldSubmit(c: Guid, i1: Guid, p1: Guid, i2: Guid, p2: Guid)
    requires i1 != i2 && p1 != p2
    ensures var s := Build(TwoItemStream(c, i1, p1, i2, p2));
      && s.Ok?
      && SubmitCart(s.value, Inventories([InventoryChanged(1, p1), InventoryChanged(2, p2)]),
           SubmitCartCommand(c, [PricedProduct(p1, 10), PricedProduct(p2, 5)]))
         == Ok([SubmittedEvent(c, p1, p2)])
  {
    var two := TwoItemCart(c, i1, p1, i2, p2);
    TwoItemState(c, i1, p1, i2, p2);
    InventoriesOfTwo(p1, 1, p2, 2);
    var r := SubmitCart(two, map[p1 := 1, p2 := 2], SubmitCartCommand(c, [PricedProduct(p1, 10), PricedProduct(p2, 5)]));
    assert two.cartItems[0].1 == p1 && two.cartItems[1].1 == p2;
    assert CheckInventory(two.cartItems, map[p1 := 1, p2 := 2]);
    assert PricesCovered(two);
    assert r.Ok?;
    var ps := [PricedProduct(p1, 10), PricedProduct(p2, 10)];
    assert r.value[0].orderedProducts == ps by {
      var ops := r.value[0].orderedProducts;
      assert |ops| == 2;
      assert ops[0] == PricedProduct(two.cartItems[0].1, two.productPrice[two.cartItems[0].1]);
      assert ops[1] == PricedProduct(two.cartItems[1].1, two.productPrice[two.cartItems[1].1]);
    }
    assert Total(ps) == 20 by {
      var first := ps[..|ps| - 1];
      assert first == [PricedProduct(p1, 10)];
      assert first[..|first| - 1] == [];
      assert Total(first) == 10;
    }
  }

  lemma SubmitEmptyCartFails(c: Guid, i1: Guid, p1: Guid, i2: Guid, p2: Guid)
    requires i1 != i2 && p1 != p2
    ensures var s := Build(TwoItemStream(c, i1, p1, i2, p2) + [CartCleared(c)]);
      s.Ok? && SubmitCart(s.value, Inventories([InventoryChanged(1, p1), InventoryChanged(2, p2)]),
        SubmitCartCommand(c, [])) == Err(CannotSubmitEmptyCart)
  {
    var two := TwoItemCart(c, i1, p1, i2, p2);
    TwoItemThen(c, i1, p1, i2, p2, [CartCleared(c)]);
    FoldOne(Evolve, two, CartCleared(c));
    InventoriesOfTwo(p1, 1, p2, 2);
  }

  lemma PublishesCart(c: Guid, i1: Guid, p1: Guid, i2: Guid, p2: Guid)
    requires i1 != i2
    ensures var s := Build(TwoItemStream(c, i1, p1, i2, p2) + [SubmittedEvent(c, p1, p2)]);
      && s.Ok?
      && PublishCart(s.value, PublishCartCommand(c, [PricedProduct(p1, 10), PricedProduct(p2, 5)], 15), true).events
           == [CartPublished(c)]
      && PublishCart(s.value, PublishCartCommand(c, [PricedProduct(p1, 10), PricedProduct(p2, 5)], 15), false).events
           == [CartPublicationFailed(c)]
  {
    var two := TwoItemCart(c, i1, p1, i2, p2);
    TwoItemThen(c, i1, p1, i2, p2, [SubmittedEvent(c, p1, p2)]);
    FoldOne(Evolve, two, SubmittedEvent(c, p1, p2));
  }

  lemma CannotPublishTwice(c: Guid, i1: Guid, p1: Guid, i2: Guid, p2: Guid)
    requires i1 != i2
    ensures var s := Build(TwoItemStream(c, i1, p1, i2, p2) + [SubmittedEvent(c, p1, p2), CartPublished(c)]);
      && s.Ok?
      && PublishCart(s.value, PublishCartCommand(c, [PricedProduct(p1, 10), PricedProduct(p2, 5)], 15), true).events
           == [CartPublicationFailed(c)]
  {
    var two := TwoItemCart(c, i1, p1, i2, p2);
    var submitted := two.(isSubmitted := true);
    TwoItemThen(c, i1, p1, i2, p2, [SubmittedEvent(c, p1, p2), CartPublished(c)]);
    assert [SubmittedEvent(c, p1, p2), CartPublished(c)][1..] == [CartPublished(c)];
    FoldOne(Evolve, submitted, CartPublished(c));
  }
}
