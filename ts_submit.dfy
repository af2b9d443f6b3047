/**
 * The submit-cart slice of the TypeScript port: the inventory map built from InventoryChanged
 * events, the stock check, and the decider that emits CartSubmitted followed by one inventory
 * decrement per cart item.
 */
module TsSubmit {
  import opened Wrappers
  import opened OrderedMap
  import opened TsEvents
  import opened TsCart
  import opened TsDeciders
  import opened TsInventories

  datatype SubmitCartCommand = SubmitCartCommand(cartId: string, orderedProducts: seq<OrderedProduct>)

  /** `inventories.get(productId) ?? 0`. */
  function StockOf(inventories: map<string, int>, productId: string): int {
    if productId in inventories then inventories[productId] else 0
  }

  predicate InStock(inventories: map<string, int>, productId: string) {
    StockOf(inventories, productId) > 0
  }

  /** `buildInventories`: every input event is an InventoryChanged (the parameter's type). */
  method BuildInventories(inventoryEvents: seq<Event>) returns (inventories: map<string, int>)
    requires forall i | 0 <= i < |inventoryEvents| :: inventoryEvents[i].InventoryChanged?
    ensures inventories == InventoriesView(inventoryEvents)
  {
    inventories := map[];
    for i := 0 to |inventoryEvents|
      invariant inventories == InventoriesView(inventoryEvents[..i])
    {
      var e := inventoryEvents[i];
      assert inventoryEvents[..i + 1] == inventoryEvents[..i] + [e];
      LastWrite.ReplaySnoc(inventoryEvents[..i], e, InventoryWrite);
      inventories := inventories[e.productId := e.inventory];
    }
    assert inventoryEvents[..|inventoryEvents|] == inventoryEvents;
  }

  /** The first product, in cart order, that is not in stock. */
  function FirstOutOfStock(products: seq<string>, inventories: map<string, int>): (r: Option<string>)
    ensures r.None? <==> forall k | 0 <= k < |products| :: InStock(inventories, products[k])
    ensures r.Some? ==> !InStock(inventories, r.value)
    ensures r.Some? ==>
      exists k | 0 <= k < |products| ::
        products[k] == r.value && forall j | 0 <= j < k :: InStock(inventories, products[j])
  {
    if products == [] then None
    else if !InStock(inventories, products[0]) then Some(products[0])
    else
      var r := FirstOutOfStock(products[1..], inventories);
      assert forall k | 1 <= k < |products| :: products[1..][k - 1] == products[k];
      if r.Some? then
        var k :| 0 <= k < |products[1..]| && products[1..][k] == r.value
          && forall j | 0 <= j < k :: InStock(inventories, products[1..][j]);
        assert products[k + 1] == r.value;
        r
      else r
  }

  /** `checkInventory`: rejects the first cart product whose inventory is missing or not positive. */
  function CheckInventory(state: CartState, inventories: map<string, int>): (r: Result<(), Rejection>)
    ensures r.Ok? <==> forall i | 0 <= i < |state.cartItems| :: InStock(inventories, state.cartItems[i].1)
    ensures r.Err? ==> r.error.OutOfStock?
    ensures r.Err? ==> r.error.productId in Values(state.cartItems) && !InStock(inventories, r.error.productId)
  {
    match FirstOutOfStock(Values(state.cartItems), inventories)
    case None => Ok(())
    case Some(p) => Err(OutOfStock(p))
  }

  /** One InventoryChanged per product, each lowering that product's inventory by one. */
  function Decrements(products: seq<string>, inventories: map<string, int>): (evs: seq<Event>)
    ensures |evs| == |products|
    ensures forall k | 0 <= k < |products| ::
      evs[k] == InventoryChanged(products[k], StockOf(inventories, products[k]) - 1)
    decreases |products|
  {
    if products == [] then []
    else
      var n := |products| - 1;
      Decrements(products[..n], inventories) + [InventoryChanged(products[n], StockOf(inventories, products[n]) - 1)]
  }

  /** The outcome of `submitCartDecider`, with the checks in the order the source makes them. */
  function SubmitCart(state: CartState, inventories: map<string, int>, cmd: SubmitCartCommand): (r: Result<seq<Event>, Rejection>)
    ensures CheckInventory(state, inventories).Err? ==> r == Err(CheckInventory(state, inventories).error)
    ensures CheckInventory(state, inventories).Ok? && |state.cartItems| == 0 ==> r == Err(EmptyCart)
    ensures CheckInventory(state, inventories).Ok? && |state.cartItems| > 0 && state.isSubmitted ==> r == Err(AlreadySubmitted)
    ensures r.Ok? <==> CheckInventory(state, inventories).Ok? && |state.cartItems| > 0 && !state.isSubmitted
    ensures r.Ok? ==> |r.value| == 1 + |state.cartItems|
    ensures r.Ok? ==> r.value[0] == CartSubmitted(cmd.cartId, cmd.orderedProducts)
    ensures r.Ok? ==>
      forall k | 0 <= k < |state.cartItems| ::
        r.value[k + 1] == InventoryChanged(state.cartItems[k].1, StockOf(inventories, state.cartItems[k].1) - 1)
  {
    match CheckInventory(state, inventories)
    case Err(e) => Err(e)
    case Ok(_) =>
      if |state.cartItems| == 0 then Err(EmptyCart)
      else if state.isSubmitted then Err(AlreadySubmitted)
      else Ok(SubmitEvents(state, inventories, cmd))
  }

  /** CartSubmitted, then one decrement per cart item in cart order. */
  function SubmitEvents(state: CartState, inventories: map<string, int>, cmd: SubmitCartCommand): (evs: seq<Event>)
    ensures |evs| == 1 + |state.cartItems|
    ensures evs[0] == CartSubmitted(cmd.cartId, cmd.orderedProducts)
    ensures forall k | 0 <= k < |state.cartItems| ::
      evs[k + 1] == InventoryChanged(state.cartItems[k].1, StockOf(inventories, state.cartItems[k].1) - 1)
  {
    var ds := Decrements(Values(state.cartItems), inventories);
    var evs := [CartSubmitted(cmd.cartId, cmd.orderedProducts)] + ds;
    assert forall k | 0 <= k < |state.cartItems| :: evs[k + 1] == ds[k];
    evs
  }

  /** `submitCartDecider`: checks, then CartSubmitted, then one decrement per item pushed in cart order. */
  method SubmitCartDecider(state: CartState, inventories: map<string, int>, cmd: SubmitCartCommand)
    returns (r: Result<seq<Event>, Rejection>)
    ensures r == SubmitCart(state, inventories, cmd)
  {
    var check := CheckInventory(state, inventories);
    if check.Err? {
      return Err(check.error);
    }
    if |state.cartItems| == 0 {
      return Err(EmptyCart);
    }
    if state.isSubmitted {
      return Err(AlreadySubmitted);
    }
    var decrements := PushDecrements(state.cartItems, inventories);
    r := Ok([CartSubmitted(cmd.cartId, cmd.orderedProducts)] + decrements);
  }

  /** The loop of `submitCartDecider`: one InventoryChanged per cart entry, in entry order. */
  method PushDecrements(cartItems: seq<(string, string)>, inventories: map<string, int>) returns (events: seq<Event>)
    ensures events == Decrements(Values(cartItems), inventories)
  {
    var products := Values(cartItems);
    events := [];
    for i := 0 to |cartItems|
      invariant events == Decrements(products[..i], inventories)
    {
      var productId := cartItems[i].1;
      var current := StockOf(inventories, productId);
      assert products[..i + 1][..i] == products[..i];
      events := events + [InventoryChanged(productId, current - 1)];
    }
    assert products[..|cartItems|] == products;
  }

  /** The event sequence of a successful submit ends with an InventoryChanged, not with CartSubmitted. */
  lemma SubmitCartLastEvent(state: CartState, inventories: map<string, int>, cmd: SubmitCartCommand)
    requires SubmitCart(state, inventories, cmd).Ok?
    ensures var evs := SubmitCart(state, inventories, cmd).value;
      evs[|evs| - 1].InventoryChanged? && evs[|evs| - 1].productId == state.cartItems[|state.cartItems| - 1].1
  {
  }

  /** Folding a successful submit's events in marks the cart submitted, so submitting again is rejected. */
  lemma SubmitThenSubmitAgain(state: CartState, inventories: map<string, int>, cmd: SubmitCartCommand)
    requires SubmitCart(state, inventories, cmd).Ok?
    ensures var t := Fold(state, SubmitCart(state, inventories, cmd).value);
      t.isSubmitted && t.cartItems == state.cartItems && SubmitCart(t, inventories, cmd) == Err(AlreadySubmitted)
  {
    var evs := SubmitCart(state, inventories, cmd).value;
    var s1 := Evolve(state, evs[0]);
    UnlistedFold(s1, evs[1..]);
    assert evs[1..] == Decrements(Values(state.cartItems), inventories);
  }

  lemma {:induction false} UnlistedFold(s: CartState, evs: seq<Event>)
    requires forall k | 0 <= k < |evs| :: evs[k].InventoryChanged?
    ensures Fold(s, evs) == s
    decreases |evs|
  {
    if evs != [] {
      EvolveUnlisted(s, evs[0]);
      UnlistedFold(s, evs[1..]);
    }
  }

  // The given/when/then scenarios: a cart with two items of two products.

  function TwoItemEvents(c: string): seq<Event> {
    [CartCreated(c), ItemAdded(c, "i1", "p1", Some("Description"), Some("Image"), 10),
                     ItemAdded(c, "i2", "p2", Some("Description"), Some("Image"), 10)]
  }

  const Ordered: seq<OrderedProduct> := [OrderedProduct("p1", 10), OrderedProduct("p2", 5)]

  lemma TwoItemState(c: string)
    ensures BuildState(TwoItemEvents(c)).cartItems == [("i1", "p1"), ("i2", "p2")]
    ensures !BuildState(TwoItemEvents(c)).isSubmitted
  {
    var evs := TwoItemEvents(c);
    assert evs[..1] == [] + [evs[0]] && evs[..2] == evs[..1] + [evs[1]] && evs == evs[..2] + [evs[2]];
    BuildStateSnoc([], evs[0]);
    BuildStateSnoc(evs[..1], evs[1]);
    BuildStateSnoc(evs[..2], evs[2]);
    TwoItemMap();
  }

  lemma TwoItemMap()
    ensures var m0: OMap<string, string> := [];
      Set(Set(m0, "i1", "p1"), "i2", "p2") == [("i1", "p1"), ("i2", "p2")]
  {
    var m0: OMap<string, string> := [];
    var m1 := Set(m0, "i1", "p1");
    assert m1 == [("i1", "p1")];
    assert Keys(m1) == ["i1"];
    assert "i2" != "i1" by { assert "i2"[1] != "i1"[1]; }
  }

  lemma TwoWrites(p1: string, v1: int, p2: string, v2: int)
    ensures InventoriesView([InventoryChanged(p1, v1), InventoryChanged(p2, v2)]) == map[p1 := v1][p2 := v2]
  {
    var ws := [InventoryChanged(p1, v1), InventoryChanged(p2, v2)];
    assert ws[..1] == [] + [ws[0]] && ws == ws[..1] + [ws[1]];
    LastWrite.ReplaySnoc([], ws[0], InventoryWrite);
    LastWrite.ReplaySnoc(ws[..1], ws[1], InventoryWrite);
  }

  lemma CantSubmitNoProductsInStock(c: string)
    ensures SubmitCart(BuildState(TwoItemEvents(c)), InventoriesView([]), SubmitCartCommand(c, Ordered))
      == Err(OutOfStock("p1"))
  {
    TwoItemState(c);
    assert Values(BuildState(TwoItemEvents(c)).cartItems) == ["p1", "p2"];
  }

  lemma CantSubmitNoQuantity(c: string)
    ensures var inventories := InventoriesView([InventoryChanged("p1", 0), InventoryChanged("p2", 0)]);
      SubmitCart(BuildState(TwoItemEvents(c)), inventories, SubmitCartCommand(c, Ordered)) == Err(OutOfStock("p1"))
  {
    TwoItemState(c);
    var ws := [InventoryChanged("p1", 0), InventoryChanged("p2", 0)];
    TwoWrites("p1", 0, "p2", 0);
    assert Values(BuildState(TwoItemEvents(c)).cartItems) == ["p1", "p2"];
  }

  lemma CantSubmitCartTwice(c: string)
    ensures var inventories := InventoriesView([InventoryChanged("p1", 1), InventoryChanged("p2", 1)]);
      var evs := TwoItemEvents(c) + [CartSubmitted(c, [OrderedProduct("p1", 10), OrderedProduct("p2", 10)])];
      SubmitCart(BuildState(evs), inventories, SubmitCartCommand(c, Ordered)) == Err(AlreadySubmitted)
  {
    TwoItemState(c);
    var ws := [InventoryChanged("p1", 1), InventoryChanged("p2", 1)];
    TwoWrites("p1", 1, "p2", 1);
    var submitted := CartSubmitted(c, [OrderedProduct("p1", 10), OrderedProduct("p2", 10)]);
    BuildStateSnoc(TwoItemEvents(c), submitted);
    assert "p2" != "p1" by { assert "p2"[1] != "p1"[1]; }
    assert Values(BuildState(TwoItemEvents(c) + [submitted]).cartItems) == ["p1", "p2"];
  }

  lemma ShouldSubmit(c: string)
    ensures var inventories := InventoriesView([InventoryChanged("p1", 1), InventoryChanged("p2", 2)]);
      SubmitCart(BuildState(TwoItemEvents(c)), inventories, SubmitCartCommand(c, Ordered))
        == Ok([CartSubmitted(c, Ordered), InventoryChanged("p1", 0), InventoryChanged("p2", 1)])
  {
    TwoItemState(c);
    var ws := [InventoryChanged("p1", 1), InventoryChanged("p2", 2)];
    assert "p2" != "p1" by { assert "p2"[1] != "p1"[1]; }
    TwoWrites("p1", 1, "p2", 2);
    var inventories := InventoriesView(ws);
    var state := BuildState(TwoItemEvents(c));
    assert InStock(inventories, "p1") && InStock(inventories, "p2");
    var r := SubmitCart(state, inventories, SubmitCartCommand(c, Ordered));
    assert r.Ok? && |r.value| == 3;
    assert r.value[1] == InventoryChanged("p1", 0) && r.value[2] == InventoryChanged("p2", 1);
    assert r.value == [r.value[0], r.value[1], r.value[2]];
  }

  lemma SubmitEmptyCartFails(c: string)
    ensures var inventories := InventoriesView([InventoryChanged("p1", 1), InventoryChanged("p2", 2)]);
      SubmitCart(BuildState(TwoItemEvents(c) + [CartCleared(c)]), inventories, SubmitCartCommand(c, []))
        == Err(EmptyCart)
  {
    BuildStateSnoc(TwoItemEvents(c), CartCleared(c));
    var state := BuildState(TwoItemEvents(c) + [CartCleared(c)]);
    assert state.cartItems == [];
    var inventories := InventoriesView([InventoryChanged("p1", 1), InventoryChanged("p2", 2)]);
    assert CheckInventory(state, inventories).Ok?;
  }
}
