/**
 * The cart state of the C# decider model (`Cart` record, `Initial`, `Evolve`). `Evolve` can
 * throw (a dictionary indexer on a missing item), so a step and a fold yield a `Result`; a
 * throw ends the fold, as it ends `Aggregate` in the source.
 *
 * `EvolveAsWritten` is the code as it stands. `Evolve` is the corrected step that the rest of
 * the model uses; it differs in two places (see the README's findings):
 *  - ItemArchived looks the item up before removing it, as ItemRemoved does;
 *  - a retired item's product keeps its price while another item of the cart still refers to it.
 */
module CsCart {
  import opened Wrappers
  import opened OrderedMap
  import opened CsEvents

  /**
   * `cartItems` maps ItemId to ProductId in insertion order (the submit decider enumerates
   * it); `productPrice` maps ProductId to price and is only looked up.
   */
  datatype Cart = Cart(
    cartId: Option<Guid>,
    cartItems: OMap<Guid, Guid>,
    productPrice: map<Guid, int>,
    isSubmitted: bool,
    isPublished: bool,
    publicationFailed: bool)

  const Initial: Cart := Cart(None, [], map[], false, false, false)

  /** The step as written: ItemArchived removes the item first and then looks it up. */
  function EvolveAsWritten(state: Cart, event: Event): Result<Cart, Fault> {
    match event
    case CartCreated(cartId) => Ok(state.(cartId := Some(cartId)))
    case ItemAdded(_, _, _, price, itemId, productId) =>
      Ok(state.(cartItems := Set(state.cartItems, itemId, productId),
                productPrice := state.productPrice[productId := price]))
    case ItemRemoved(itemId, _) =>
      (match Get(state.cartItems, itemId)
       case None => Err(KeyNotFound(itemId))
       case Some(productId) =>
         Ok(state.(cartItems := Delete(state.cartItems, itemId),
                   productPrice := state.productPrice - {productId})))
    case ItemArchived(_, itemId) =>
      var newCartItems := Delete(state.cartItems, itemId);
      (match Get(newCartItems, itemId)
       case None => Err(KeyNotFound(itemId))
       case Some(productId) =>
         Ok(state.(cartItems := newCartItems, productPrice := state.productPrice - {productId})))
    case CartSubmitted(_, _, _) => Ok(state.(isSubmitted := true))
    case CartCleared(_) => Ok(state.(cartItems := []))
    case CartPublished(_) => Ok(state.(isPublished := true))
    case CartPublicationFailed(_) => Ok(state.(publicationFailed := true))
    case _ => Ok(state)
  }

  /** Removes an item; its product's price goes only when no remaining item refers to it. */
  function RetireItem(state: Cart, itemId: Guid): Result<Cart, Fault> {
    match Get(state.cartItems, itemId)
    case None => Err(KeyNotFound(itemId))
    case Some(productId) =>
      var newCartItems := Delete(state.cartItems, itemId);
      Ok(state.(cartItems := newCartItems,
                productPrice := if productId in Values(newCartItems) then state.productPrice
                                else state.productPrice - {productId}))
  }

  /** The corrected step. */
  function Evolve(state: Cart, event: Event): Result<Cart, Fault> {
    match event
    case ItemRemoved(itemId, _) => RetireItem(state, itemId)
    case ItemArchived(_, itemId) => RetireItem(state, itemId)
    case _ => EvolveAsWritten(state, event)
  }

  /** `events.Aggregate(state, step)`: applies the events left to right; the first throw ends it. */
  function FoldWith(step: (Cart, Event) -> Result<Cart, Fault>, state: Cart, events: seq<Event>): Result<Cart, Fault>
    decreases |events|
  {
    if events == [] then Ok(state)
    else
      match step(state, events[0])
      case Err(f) => Err(f)
      case Ok(next) => FoldWith(step, next, events[1..])
  }

  function BuildAsWritten(events: seq<Event>): Result<Cart, Fault> {
    FoldWith(EvolveAsWritten, Initial, events)
  }

  function Build(events: seq<Event>): Result<Cart, Fault> {
    FoldWith(Evolve, Initial, events)
  }

  /** Folding no events yields `Initial`: no cart id, no items, no prices, no flags. */
  lemma BuildEmpty()
    ensures Build([]) == Ok(Initial) && BuildAsWritten([]) == Ok(Initial)
    ensures Initial.cartId.None? && |Initial.cartItems| == 0 && Initial.productPrice == map[]
    ensures !Initial.isSubmitted && !Initial.isPublished && !Initial.publicationFailed
  {
  }

  /** Folding a concatenation folds the second part from the state the first part reached. */
  lemma {:induction false} FoldAppend(step: (Cart, Event) -> Result<Cart, Fault>, state: Cart, a: seq<Event>, b: seq<Event>)
    ensures FoldWith(step, state, a + b)
      == match FoldWith(step, state, a) case Ok(mid) => FoldWith(step, mid, b) case Err(f) => Err(f)
    decreases |a|
  {
    if a == [] {
      assert a + b == b;
    } else {
      assert (a + b)[0] == a[0];
      assert (a + b)[1..] == a[1..] + b;
      match step(state, a[0])
      case Err(f) =>
      case Ok(next) => FoldAppend(step, next, a[1..], b);
    }
  }

  /** Folding one event more is one step more. */
  lemma FoldSnoc(step: (Cart, Event) -> Result<Cart, Fault>, state: Cart, events: seq<Event>, e: Event)
    ensures FoldWith(step, state, events + [e])
      == match FoldWith(step, state, events) case Ok(mid) => step(mid, e) case Err(f) => Err(f)
  {
    FoldAppend(step, state, events, [e]);
    assert [e][1..] == [];
  }

  /** Folding one event is one step. */
  lemma FoldOne(step: (Cart, Event) -> Result<Cart, Fault>, state: Cart, e: Event)
    ensures FoldWith(step, state, [e]) == step(state, e)
  {
    assert [e][1..] == [];
  }

  /** Three successful steps in a row fold to the last state. */
  lemma FoldThree(step: (Cart, Event) -> Result<Cart, Fault>, s0: Cart, e0: Event, s1: Cart, e1: Event, s2: Cart, e2: Event, s3: Cart)
    requires step(s0, e0) == Ok(s1) && step(s1, e1) == Ok(s2) && step(s2, e2) == Ok(s3)
    ensures FoldWith(step, s0, [e0, e1, e2]) == Ok(s3)
  {
    assert [e0, e1, e2][1..] == [e1, e2];
    assert [e1, e2][1..] == [e2];
    FoldOne(step, s2, e2);
  }

  lemma FoldFour(step: (Cart, Event) -> Result<Cart, Fault>, s0: Cart, e0: Event, s1: Cart, e1: Event, s2: Cart,
                 e2: Event, s3: Cart, e3: Event, s4: Cart)
    requires step(s0, e0) == Ok(s1) && step(s1, e1) == Ok(s2) && step(s2, e2) == Ok(s3) && step(s3, e3) == Ok(s4)
    ensures FoldWith(step, s0, [e0, e1, e2, e3]) == Ok(s4)
  {
    assert [e0, e1, e2, e3][1..] == [e1, e2, e3];
    FoldThree(step, s1, e1, s2, e2, s3, e3, s4);
  }

  /** ItemAdded maps ItemId to ProductId and ProductId to Price; nothing else changes. */
  lemma EvolveItemAdded(state: Cart, e: Event)
    requires e.ItemAdded?
    ensures Evolve(state, e) == EvolveAsWritten(state, e)
    ensures Evolve(state, e).Ok?
    ensures var next := Evolve(state, e).value;
      && Get(next.cartItems, e.itemId) == Some(e.productId)
      && (forall x | x != e.itemId :: Get(next.cartItems, x) == Get(state.cartItems, x))
      && next.productPrice == state.productPrice[e.productId := e.price]
      && next.cartId == state.cartId
      && next.isSubmitted == state.isSubmitted && next.isPublished == state.isPublished
      && next.publicationFailed == state.publicationFailed
  {
  }

  /** Adding an item id the cart does not hold appends it at the end. */
  lemma EvolveFreshItem(state: Cart, e: Event)
    requires e.ItemAdded? && e.itemId !in Keys(state.cartItems)
    ensures Evolve(state, e) == EvolveAsWritten(state, e)
      == Ok(state.(cartItems := state.cartItems + [(e.itemId, e.productId)],
                   productPrice := state.productPrice[e.productId := e.price]))
  {
  }

  /**
   * As written, ItemRemoved throws for an absent item; otherwise it removes the item and the
   * price of its product, whichever other items still refer to that product.
   */
  lemma EvolveItemRemovedAsWritten(state: Cart, itemId: Guid, cartId: Guid)
    ensures var r := EvolveAsWritten(state, ItemRemoved(itemId, cartId));
      && (r.Err? <==> !Has(state.cartItems, itemId))
      && (r.Err? ==> r.error == KeyNotFound(itemId))
      && (r.Ok? ==>
            && !Has(r.value.cartItems, itemId)
            && (forall x | x != itemId :: Get(r.value.cartItems, x) == Get(state.cartItems, x))
            && Get(state.cartItems, itemId).value !in r.value.productPrice)
  {
  }

  /** As written, removing a present item deletes it and its product's price. */
  lemma EvolveRemovedAsWrittenValue(state: Cart, itemId: Guid, cartId: Guid)
    requires Has(state.cartItems, itemId)
    ensures EvolveAsWritten(state, ItemRemoved(itemId, cartId))
      == Ok(state.(cartItems := Delete(state.cartItems, itemId),
                   productPrice := state.productPrice - {Get(state.cartItems, itemId).value}))
  {
  }

  /** As written, ItemArchived throws on every state: the item is gone before it is looked up. */
  lemma ArchivedAlwaysThrows(state: Cart, cartId: Guid, itemId: Guid)
    ensures EvolveAsWritten(state, ItemArchived(cartId, itemId)) == Err(KeyNotFound(itemId))
  {
  }

  /** Hence, as written, no event sequence containing an ItemArchived can be folded. */
  lemma {:induction false} ArchivedBreaksFold(state: Cart, events: seq<Event>, k: nat)
    requires k < |events| && events[k].ItemArchived?
    ensures FoldWith(EvolveAsWritten, state, events).Err?
    decreases |events|
  {
    if k == 0 {
      ArchivedAlwaysThrows(state, events[0].cartId, events[0].itemId);
    } else {
      match EvolveAsWritten(state, events[0])
      case Err(_) =>
      case Ok(next) =>
        assert events[1..][k - 1] == events[k];
        ArchivedBreaksFold(next, events[1..], k - 1);
    }
  }

  /**
   * Corrected, ItemRemoved and ItemArchived both throw exactly for an absent item; otherwise the
   * item is gone, the other items are unchanged, and the product's price goes only when no
   * remaining item refers to it.
   */
  lemma EvolveRetires(state: Cart, e: Event)
    requires e.ItemRemoved? || e.ItemArchived?
    ensures var r := Evolve(state, e);
      && (r.Err? <==> !Has(state.cartItems, e.itemId))
      && (r.Err? ==> r.error == KeyNotFound(e.itemId))
      && (r.Ok? ==>
            var productId := Get(state.cartItems, e.itemId).value;
            && !Has(r.value.cartItems, e.itemId)
            && (forall x | x != e.itemId :: Get(r.value.cartItems, x) == Get(state.cartItems, x))
            && (productId in r.value.productPrice <==> productId in state.productPrice && productId in Values(r.value.cartItems))
            && (forall p | p != productId :: p in r.value.productPrice <==> p in state.productPrice)
            && r.value.cartId == state.cartId
            && r.value.isSubmitted == state.isSubmitted && r.value.isPublished == state.isPublished)
  {
  }

  /** CartCleared empties the items only: prices, cart id and flags stay. */
  lemma EvolveCartCleared(state: Cart, cartId: Guid)
    ensures Evolve(state, CartCleared(cartId)) == Ok(state.(cartItems := []))
    ensures EvolveAsWritten(state, CartCleared(cartId)) == Ok(state.(cartItems := []))
  {
  }

  /** CartSubmitted, CartPublished and CartPublicationFailed each set their own flag and nothing else. */
  lemma EvolveFlags(state: Cart, e: Event)
    ensures e.CartSubmitted? ==> Evolve(state, e) == Ok(state.(isSubmitted := true))
    ensures e.CartPublished? ==> Evolve(state, e) == Ok(state.(isPublished := true))
    ensures e.CartPublicationFailed? ==> Evolve(state, e) == Ok(state.(publicationFailed := true))
  {
  }

  /** Events outside the switch leave the state unchanged. */
  lemma EvolveOthers(state: Cart, e: Event)
    requires e.CartClearedCommand? || e.InventoryChanged? || e.PriceChanged?
    ensures Evolve(state, e) == Ok(state) && EvolveAsWritten(state, e) == Ok(state)
  {
  }

  /** The two steps agree everywhere but on ItemArchived and on removing an item whose product is shared. */
  lemma EvolveAgrees(state: Cart, e: Event)
    requires !e.ItemArchived?
    requires e.ItemRemoved? && Has(state.cartItems, e.itemId) ==>
      Get(state.cartItems, e.itemId).value !in Values(Delete(state.cartItems, e.itemId))
    ensures Evolve(state, e) == EvolveAsWritten(state, e)
  {
  }

  /** Every product an item refers to has a price: what the submit decider relies on. */
  predicate PricesCovered(state: Cart) {
    forall i | 0 <= i < |state.cartItems| :: state.cartItems[i].1 in state.productPrice
  }

  /** The corrected step keeps every item's product priced. */
  lemma EvolveKeepsPricesCovered(state: Cart, e: Event)
    requires PricesCovered(state) && Evolve(state, e).Ok?
    ensures PricesCovered(Evolve(state, e).value)
  {
    match e
    case ItemAdded(_, _, _, price, itemId, productId) => AddKeepsPricesCovered(state, itemId, productId, price);
    case ItemRemoved(itemId, _) => RetireKeepsPricesCovered(state, itemId);
    case ItemArchived(_, itemId) => RetireKeepsPricesCovered(state, itemId);
    case _ =>
  }

  lemma AddKeepsPricesCovered(state: Cart, itemId: Guid, productId: Guid, price: int)
    requires PricesCovered(state)
    ensures PricesCovered(state.(cartItems := Set(state.cartItems, itemId, productId),
                                 productPrice := state.productPrice[productId := price]))
  {
    var next := state.(cartItems := Set(state.cartItems, itemId, productId),
                       productPrice := state.productPrice[productId := price]);
    forall i | 0 <= i < |next.cartItems| ensures next.cartItems[i].1 in next.productPrice {
      SetMembers(state.cartItems, itemId, productId, next.cartItems[i]);
      if next.cartItems[i] in state.cartItems {
        var j :| 0 <= j < |state.cartItems| && state.cartItems[j] == next.cartItems[i];
      }
    }
  }

  lemma RetireKeepsPricesCovered(state: Cart, itemId: Guid)
    requires PricesCovered(state) && RetireItem(state, itemId).Ok?
    ensures PricesCovered(RetireItem(state, itemId).value)
  {
    var productId := Get(state.cartItems, itemId).value;
    var next := RetireItem(state, itemId).value;
    forall i | 0 <= i < |next.cartItems| ensures next.cartItems[i].1 in next.productPrice {
      DeleteMembers(state.cartItems, itemId, next.cartItems[i]);
      var j :| 0 <= j < |state.cartItems| && state.cartItems[j] == next.cartItems[i];
      assert Values(next.cartItems)[i] == next.cartItems[i].1;
    }
  }

  /** Every state the corrected fold reaches from a covered state is covered. */
  lemma {:induction false} FoldKeepsPricesCovered(state: Cart, events: seq<Event>)
    requires PricesCovered(state) && FoldWith(Evolve, state, events).Ok?
    ensures PricesCovered(FoldWith(Evolve, state, events).value)
    decreases |events|
  {
    if events != [] {
      EvolveKeepsPricesCovered(state, events[0]);
      FoldKeepsPricesCovered(Evolve(state, events[0]).value, events[1..]);
    }
  }

  /** Every cart rebuilt from its stream by the corrected fold has a price for each item's product. */
  lemma BuildPricesCovered(events: seq<Event>)
    requires Build(events).Ok?
    ensures PricesCovered(Build(events).value)
  {
    FoldKeepsPricesCovered(Initial, events);
  }

  /** No event of the corrected fold resets a flag. */
  lemma EvolveFlagsStick(state: Cart, e: Event)
    requires Evolve(state, e).Ok?
    ensures state.isSubmitted ==> Evolve(state, e).value.isSubmitted
    ensures state.isPublished ==> Evolve(state, e).value.isPublished
    ensures state.publicationFailed ==> Evolve(state, e).value.publicationFailed
  {
  }
}
