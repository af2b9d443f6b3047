/**
 * The cart state of the TypeScript port and the fold that rebuilds it from a cart's events
 * (`evolve`, `buildState`). A state is an immutable value: every step yields a fresh one.
 */
module TsCart {
  import opened Wrappers
  import opened OrderedMap
  import opened TsEvents

  /**
   * `cartItems` maps itemId to productId in insertion order (it is iterated by the submit
   * decider and the archive processor); `productPrices` maps productId to price and is only
   * ever looked up, so a plain map stands for it.
   */
  datatype CartState = CartState(
    cartId: Option<string>,
    cartItems: OMap<string, string>,
    productPrices: map<string, int>,
    isSubmitted: bool,
    isPublished: bool,
    publicationFailed: bool)

  const InitialCart: CartState := CartState(None, [], map[], false, false, false)

  /** Drops the price of the product `itemId` pointed at; an empty productId is falsy and keeps its price. */
  function DropPriceOf(prices: map<string, int>, productId: Option<string>): map<string, int> {
    if productId.Some? && productId.value != "" then prices - {productId.value} else prices
  }

  function Evolve(state: CartState, event: Event): CartState {
    match event
    case CartCreated(cartId) => state.(cartId := Some(cartId))
    case ItemAdded(_, itemId, productId, _, _, price) =>
      state.(cartItems := Set(state.cartItems, itemId, productId),
             productPrices := state.productPrices[productId := price])
    case ItemRemoved(itemId, _) =>
      state.(cartItems := Delete(state.cartItems, itemId),
             productPrices := DropPriceOf(state.productPrices, Get(state.cartItems, itemId)))
    case ItemArchived(_, itemId) =>
      state.(cartItems := Delete(state.cartItems, itemId),
             productPrices := DropPriceOf(state.productPrices, Get(state.cartItems, itemId)))
    case CartSubmitted(_, _) => state.(isSubmitted := true)
    case CartCleared(_) => state.(cartItems := [])
    case CartPublished(_) => state.(isPublished := true)
    case CartPublicationFailed(_, _) => state.(publicationFailed := true)
    case _ => state
  }

  /** `events.reduce(evolve, state)`: applies the events left to right. */
  function Fold(state: CartState, events: seq<Event>): CartState
    decreases |events|
  {
    if events == [] then state else Fold(Evolve(state, events[0]), events[1..])
  }

  function BuildState(events: seq<Event>): CartState {
    Fold(InitialCart, events)
  }

  lemma BuildStateEmpty()
    ensures BuildState([]) == InitialCart
    ensures BuildState([]).cartId == None && BuildState([]).cartItems == []
  {
  }

  lemma {:induction false} FoldAppend(state: CartState, a: seq<Event>, b: seq<Event>)
    ensures Fold(state, a + b) == Fold(Fold(state, a), b)
    decreases |a|
  {
    if a == [] {
      assert a + b == b;
    } else {
      assert (a + b)[0] == a[0];
      assert (a + b)[1..] == a[1..] + b;
      FoldAppend(Evolve(state, a[0]), a[1..], b);
    }
  }

  /** Rebuilding from a concatenation is folding the second part onto the state of the first. */
  lemma BuildStateAppend(a: seq<Event>, b: seq<Event>)
    ensures BuildState(a + b) == Fold(BuildState(a), b)
  {
    FoldAppend(InitialCart, a, b);
  }

  lemma BuildStateSnoc(events: seq<Event>, e: Event)
    ensures BuildState(events + [e]) == Evolve(BuildState(events), e)
  {
    BuildStateAppend(events, [e]);
  }

  lemma EvolveItemAdded(s: CartState, e: Event)
    requires e.ItemAdded?
    ensures var t := Evolve(s, e);
      && Get(t.cartItems, e.itemId) == Some(e.productId)
      && (forall i | i != e.itemId :: Get(t.cartItems, i) == Get(s.cartItems, i))
      && e.productId in t.productPrices && t.productPrices[e.productId] == e.price
      && (forall p | p != e.productId :: (p in t.productPrices <==> p in s.productPrices))
      && (forall p | p != e.productId && p in s.productPrices :: t.productPrices[p] == s.productPrices[p])
      && t.cartId == s.cartId
      && t.isSubmitted == s.isSubmitted && t.isPublished == s.isPublished
      && t.publicationFailed == s.publicationFailed
  {
  }

  /**
   * ItemRemoved and ItemArchived take the item out and drop the price of its product
   * (when that productId is non-empty); every other price stays, and an unknown item leaves
   * cartItems and prices as they were.
   */
  lemma EvolveItemRetired(s: CartState, e: Event)
    requires e.ItemRemoved? || e.ItemArchived?
    ensures var t := Evolve(s, e);
      && !Has(t.cartItems, e.itemId)
      && (forall i | i != e.itemId :: Get(t.cartItems, i) == Get(s.cartItems, i))
      && (Has(s.cartItems, e.itemId) && Get(s.cartItems, e.itemId).value != "" ==>
            Get(s.cartItems, e.itemId).value !in t.productPrices)
      && (forall p | p in t.productPrices :: p in s.productPrices && t.productPrices[p] == s.productPrices[p])
      && (forall p | p in s.productPrices ::
            p in t.productPrices <==> !(Has(s.cartItems, e.itemId) && p == Get(s.cartItems, e.itemId).value && p != ""))
      && (!Has(s.cartItems, e.itemId) ==> t.cartItems == s.cartItems && t.productPrices == s.productPrices)
      && t.cartId == s.cartId
      && t.isSubmitted == s.isSubmitted && t.isPublished == s.isPublished
      && t.publicationFailed == s.publicationFailed
  {
  }

  lemma EvolveCartCleared(s: CartState, e: Event)
    requires e.CartCleared?
    ensures var t := Evolve(s, e);
      t.cartItems == [] && t.productPrices == s.productPrices && t.cartId == s.cartId
      && t.isSubmitted == s.isSubmitted && t.isPublished == s.isPublished
      && t.publicationFailed == s.publicationFailed
  {
  }

  /** CartSubmitted, CartPublished and CartPublicationFailed each raise their own flag only. */
  lemma EvolveFlags(s: CartState, e: Event)
    requires e.CartSubmitted? || e.CartPublished? || e.CartPublicationFailed?
    ensures var t := Evolve(s, e);
      && t.cartId == s.cartId && t.cartItems == s.cartItems && t.productPrices == s.productPrices
      && t.isSubmitted == (s.isSubmitted || e.CartSubmitted?)
      && t.isPublished == (s.isPublished || e.CartPublished?)
      && t.publicationFailed == (s.publicationFailed || e.CartPublicationFailed?)
  {
  }

  /** Event types `evolve` has no case for fall through to `default` and change nothing. */
  lemma EvolveUnlisted(s: CartState, e: Event)
    requires e.ItemQuantityChanged? || e.InventoryChanged? || e.PriceChanged?
    ensures Evolve(s, e) == s
  {
  }

  predicate FlagsLeq(s: CartState, t: CartState) {
    (s.isSubmitted ==> t.isSubmitted) && (s.isPublished ==> t.isPublished)
      && (s.publicationFailed ==> t.publicationFailed)
  }

  /** No sequence of events ever resets a flag to false. */
  lemma {:induction false} FoldFlagsMonotone(s: CartState, events: seq<Event>)
    ensures FlagsLeq(s, Fold(s, events))
    decreases |events|
  {
    if events != [] {
      var t := Evolve(s, events[0]);
      assert FlagsLeq(s, t);
      FoldFlagsMonotone(t, events[1..]);
    }
  }

  /** Once a CartSubmitted is among the events, the rebuilt state is submitted. */
  lemma {:induction false} SubmittedSticks(events: seq<Event>, k: nat)
    requires k < |events| && events[k].CartSubmitted?
    ensures BuildState(events).isSubmitted
  {
    assert events == events[..k + 1] + events[k + 1..];
    assert events[..k + 1] == events[..k] + [events[k]];
    BuildStateSnoc(events[..k], events[k]);
    BuildStateAppend(events[..k + 1], events[k + 1..]);
    FoldFlagsMonotone(BuildState(events[..k + 1]), events[k + 1..]);
  }
}
