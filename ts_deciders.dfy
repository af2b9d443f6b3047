/**
 * The command deciders of the TypeScript port that need no loop: each looks at the cart state
 * rebuilt from the cart's events and either yields the new events or rejects the command
 * (a thrown `Error` in the source, an `Err` here).
 */
module TsDeciders {
  import opened Wrappers
  import opened OrderedMap
  import opened TsEvents
  import opened TsCart

  /** Why a command was rejected; one constructor per distinct `throw` of the deciders. */
  datatype Rejection =
    | TooManyItems(cartId: string, itemId: string)
    | ItemCanNotBeRemoved(itemId: string)
    | CartDoesNotExist(cartId: string)
    | ItemNotFound(itemId: string)
    | QuantityTooSmall
    | OutOfStock(productId: string)
    | EmptyCart
    | AlreadySubmitted

  datatype AddItemCommand = AddItemCommand(
    cartId: string, itemId: string, productId: string,
    description: Option<string>, image: Option<string>, price: int)

  datatype RemoveItemCommand = RemoveItemCommand(itemId: string, cartId: string)

  datatype ClearCartCommand = ClearCartCommand(cartId: string)

  datatype ChangeItemQuantityCommand = ChangeItemQuantityCommand(cartId: string, itemId: string, newQuantity: int)

  /** The cart is capped at three items; a cart not created yet is created by its first item. */
  const MaxItems: nat := 3

  function AddItemDecider(state: CartState, cmd: AddItemCommand): (r: Result<seq<Event>, Rejection>)
    ensures r.Err? <==> |state.cartItems| >= MaxItems
    ensures r.Err? ==> r.error == TooManyItems(cmd.cartId, cmd.itemId)
    ensures r.Ok? ==> |r.value| == (if state.cartId.None? then 2 else 1)
    ensures r.Ok? && state.cartId.None? ==> r.value[0] == CartCreated(cmd.cartId)
    ensures r.Ok? ==>
      r.value[|r.value| - 1] == ItemAdded(cmd.cartId, cmd.itemId, cmd.productId, cmd.description, cmd.image, cmd.price)
  {
    var created := if state.cartId.None? then [CartCreated(cmd.cartId)] else [];
    if |state.cartItems| >= MaxItems then Err(TooManyItems(cmd.cartId, cmd.itemId))
    else Ok(created + [ItemAdded(cmd.cartId, cmd.itemId, cmd.productId, cmd.description, cmd.image, cmd.price)])
  }

  /** Folding an accepted AddItem's events into the state puts the item (and its price) in the cart. */
  lemma AddItemThenEvolve(state: CartState, cmd: AddItemCommand)
    requires AddItemDecider(state, cmd).Ok?
    ensures var t := Fold(state, AddItemDecider(state, cmd).value);
      && Get(t.cartItems, cmd.itemId) == Some(cmd.productId)
      && cmd.productId in t.productPrices && t.productPrices[cmd.productId] == cmd.price
      && t.cartId == (if state.cartId.None? then Some(cmd.cartId) else state.cartId)
      && |t.cartItems| <= |state.cartItems| + 1
  {
    var evs := AddItemDecider(state, cmd).value;
    if state.cartId.None? {
      var s1 := Evolve(state, evs[0]);
      assert evs[1..] == [evs[1]];
      assert Fold(state, evs) == Fold(s1, evs[1..]);
      assert Fold(s1, [evs[1]]) == Evolve(s1, evs[1]);
    } else {
      assert Fold(state, evs) == Evolve(state, evs[0]);
    }
  }

  /** An empty state yields exactly CartCreated followed by ItemAdded. */
  lemma AddItemToEmptyCart(cmd: AddItemCommand)
    ensures AddItemDecider(InitialCart, cmd)
      == Ok([CartCreated(cmd.cartId),
             ItemAdded(cmd.cartId, cmd.itemId, cmd.productId, cmd.description, cmd.image, cmd.price)])
  {
    var added := ItemAdded(cmd.cartId, cmd.itemId, cmd.productId, cmd.description, cmd.image, cmd.price);
    assert [CartCreated(cmd.cartId)] + [added] == [CartCreated(cmd.cartId), added];
  }

  /** A fourth item added to a cart of three is rejected. */
  lemma AddFourthItemRejected(c: string, p: string, cmd: AddItemCommand)
    ensures var evs := [CartCreated(c),
                        ItemAdded(c, "i1", p, None, None, 10),
                        ItemAdded(c, "i2", p, None, None, 10),
                        ItemAdded(c, "i3", p, None, None, 10)];
      AddItemDecider(BuildState(evs), cmd) == Err(TooManyItems(cmd.cartId, cmd.itemId))
  {
    var evs := [CartCreated(c),
                ItemAdded(c, "i1", p, None, None, 10),
                ItemAdded(c, "i2", p, None, None, 10),
                ItemAdded(c, "i3", p, None, None, 10)];
    ThreeItems(c, p, evs);
  }

  lemma ThreeItems(c: string, p: string, evs: seq<Event>)
    requires evs == [CartCreated(c),
                     ItemAdded(c, "i1", p, None, None, 10),
                     ItemAdded(c, "i2", p, None, None, 10),
                     ItemAdded(c, "i3", p, None, None, 10)]
    ensures |BuildState(evs).cartItems| == 3
  {
    var s0 := Evolve(InitialCart, evs[0]);
    assert s0.cartItems == [];
    var s1 := AddFresh(s0, evs[1]);
    assert "i2" != "i1" by { assert "i2"[1] != "i1"[1]; }
    var s2 := AddFresh(s1, evs[2]);
    assert "i3" != "i1" && "i3" != "i2" by { assert "i3"[1] != "i1"[1] && "i3"[1] != "i2"[1]; }
    var s3 := AddFresh(s2, evs[3]);
    assert Fold(s3, evs[4..]) == s3;
    assert Fold(s2, evs[3..]) == s3;
    assert Fold(s1, evs[2..]) == s3;
    assert Fold(s0, evs[1..]) == s3;
  }

  /** An ItemAdded for an item not yet in the cart grows the cart by one. */
  lemma AddFresh(s: CartState, e: Event) returns (t: CartState)
    requires e.ItemAdded? && !Has(s.cartItems, e.itemId)
    ensures t == Evolve(s, e) && |t.cartItems| == |s.cartItems| + 1
    ensures forall x :: Has(t.cartItems, x) <==> Has(s.cartItems, x) || x == e.itemId
  {
    t := Evolve(s, e);
  }

  function RemoveItemDecider(state: CartState, cmd: RemoveItemCommand): (r: Result<seq<Event>, Rejection>)
    ensures r.Err? <==> !Has(state.cartItems, cmd.itemId)
    ensures r.Err? ==> r.error == ItemCanNotBeRemoved(cmd.itemId)
    ensures r.Ok? ==> r.value == [ItemRemoved(cmd.itemId, cmd.cartId)]
  {
    if !Has(state.cartItems, cmd.itemId) then Err(ItemCanNotBeRemoved(cmd.itemId))
    else Ok([ItemRemoved(cmd.itemId, cmd.cartId)])
  }

  /** After the emitted ItemRemoved is folded in the item is gone, so removing it again is rejected. */
  lemma RemoveItemThenEvolve(state: CartState, cmd: RemoveItemCommand)
    requires RemoveItemDecider(state, cmd).Ok?
    ensures var t := Fold(state, RemoveItemDecider(state, cmd).value);
      && !Has(t.cartItems, cmd.itemId)
      && |t.cartItems| == |state.cartItems| - 1
      && RemoveItemDecider(t, cmd) == Err(ItemCanNotBeRemoved(cmd.itemId))
  {
    assert Fold(state, [ItemRemoved(cmd.itemId, cmd.cartId)]) == Evolve(state, ItemRemoved(cmd.itemId, cmd.cartId));
  }

  /** Only membership of the item matters to RemoveItem. */
  lemma RemoveItemDependsOnMembership(s1: CartState, s2: CartState, cmd: RemoveItemCommand)
    requires Has(s1.cartItems, cmd.itemId) == Has(s2.cartItems, cmd.itemId)
    ensures RemoveItemDecider(s1, cmd) == RemoveItemDecider(s2, cmd)
  {
  }

  function ClearCartDecider(state: CartState, cmd: ClearCartCommand): (r: Result<seq<Event>, Rejection>)
    ensures r.Err? <==> state.cartId.None?
    ensures r.Err? ==> r.error == CartDoesNotExist(cmd.cartId)
    ensures r.Ok? ==> r.value == [CartCleared(state.cartId.value)]
  {
    if state.cartId.None? then Err(CartDoesNotExist(cmd.cartId))
    else Ok([CartCleared(state.cartId.value)])
  }

  /** Folding the accepted CartCleared in empties the items and keeps the prices and flags. */
  lemma ClearCartThenEvolve(state: CartState, cmd: ClearCartCommand)
    requires ClearCartDecider(state, cmd).Ok?
    ensures var t := Fold(state, ClearCartDecider(state, cmd).value);
      t.cartItems == [] && t.productPrices == state.productPrices && FlagsLeq(state, t) && FlagsLeq(t, state)
  {
    var e := CartCleared(state.cartId.value);
    assert Fold(state, [e]) == Evolve(state, e);
  }

  /** ClearCart depends on the cart id alone, neither on the items nor on the flags. */
  lemma ClearCartDependsOnCartId(s1: CartState, s2: CartState, cmd: ClearCartCommand)
    requires s1.cartId == s2.cartId
    ensures ClearCartDecider(s1, cmd) == ClearCartDecider(s2, cmd)
  {
  }

  function ChangeItemQuantityDecider(state: CartState, cmd: ChangeItemQuantityCommand): (r: Result<seq<Event>, Rejection>)
    ensures r.Ok? <==> Has(state.cartItems, cmd.itemId) && cmd.newQuantity >= 1
    ensures !Has(state.cartItems, cmd.itemId) ==> r == Err(ItemNotFound(cmd.itemId))
    ensures Has(state.cartItems, cmd.itemId) && cmd.newQuantity < 1 ==> r == Err(QuantityTooSmall)
    ensures r.Ok? ==> r.value == [ItemQuantityChanged(cmd.cartId, cmd.itemId, cmd.newQuantity)]
  {
    if !Has(state.cartItems, cmd.itemId) then Err(ItemNotFound(cmd.itemId))
    else if cmd.newQuantity < 1 then Err(QuantityTooSmall)
    else Ok([ItemQuantityChanged(cmd.cartId, cmd.itemId, cmd.newQuantity)])
  }

  /** ChangeItemQuantity reads the items only: neither the cart id, the prices nor the flags. */
  lemma ChangeItemQuantityIgnoresFlags(s1: CartState, s2: CartState, cmd: ChangeItemQuantityCommand)
    requires s1.cartItems == s2.cartItems
    ensures ChangeItemQuantityDecider(s1, cmd) == ChangeItemQuantityDecider(s2, cmd)
  {
  }

  /** The accepted ItemQuantityChanged does not change the cart state (evolve has no case for it). */
  lemma ChangeItemQuantityThenEvolve(state: CartState, cmd: ChangeItemQuantityCommand)
    requires ChangeItemQuantityDecider(state, cmd).Ok?
    ensures Fold(state, ChangeItemQuantityDecider(state, cmd).value) == state
  {
    var e := ItemQuantityChanged(cmd.cartId, cmd.itemId, cmd.newQuantity);
    assert Fold(state, [e]) == Evolve(state, e);
  }
}
