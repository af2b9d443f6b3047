/**
 * The orders read model of the TypeScript port (`projectOrders`): one order per CartSubmitted,
 * in event order, whose total is the sum of the ordered products' totals.
 */
module TsOrders {
  import opened Wrappers
  import opened TsEvents

  datatype Order = Order(cartId: string, orderedProducts: seq<OrderedProduct>, totalPrice: int)

  /** `orderedProducts.reduce((sum, p) => sum + p.totalPrice, 0)`. */
  function Total(products: seq<OrderedProduct>): int
    decreases |products|
  {
    if products == [] then 0
    else Total(products[..|products| - 1]) + products[|products| - 1].totalPrice
  }

  function OrderOf(e: Event): Order
    requires e.CartSubmitted?
  {
    Order(e.cartId, e.orderedProducts, Total(e.orderedProducts))
  }

  /** The orders of an event sequence: one per CartSubmitted, in order. */
  function Orders(events: seq<Event>): seq<Order>
    decreases |events|
  {
    if events == [] then []
    else
      var n := |events| - 1;
      Orders(events[..n]) + (if events[n].CartSubmitted? then [OrderOf(events[n])] else [])
  }

  method ProjectOrders(events: seq<Event>) returns (orders: seq<Order>)
    ensures orders == Orders(events)
  {
    orders := [];
    for i := 0 to |events|
      invariant orders == Orders(events[..i])
    {
      assert events[..i + 1][..i] == events[..i];
      var e := events[i];
      if e.CartSubmitted? {
        var total := Total(e.orderedProducts);
        orders := orders + [Order(e.cartId, e.orderedProducts, total)];
      }
    }
    assert events[..|events|] == events;
  }

  /** The total of a concatenation is the sum of the totals. */
  lemma {:induction false} TotalAppend(a: seq<OrderedProduct>, b: seq<OrderedProduct>)
    ensures Total(a + b) == Total(a) + Total(b)
    decreases |b|
  {
    if b == [] {
      assert a + b == a;
    } else {
      var n := |b| - 1;
      assert (a + b)[..|a + b| - 1] == a + b[..n];
      TotalAppend(a, b[..n]);
    }
  }

  lemma TotalSingle(p: OrderedProduct)
    ensures Total([p]) == p.totalPrice
  {
    assert [p][..0] == [];
  }

  /** Projecting a concatenation concatenates the projections: orders follow event order. */
  lemma {:induction false} OrdersAppend(a: seq<Event>, b: seq<Event>)
    ensures Orders(a + b) == Orders(a) + Orders(b)
    decreases |b|
  {
    if b == [] {
      assert a + b == a;
    } else {
      var n := |b| - 1;
      assert (a + b)[..|a + b| - 1] == a + b[..n];
      assert (a + b)[|a + b| - 1] == b[n];
      OrdersAppend(a, b[..n]);
    }
  }

  /** A single event yields one order when it is a CartSubmitted and none otherwise. */
  lemma OrdersSingle(e: Event)
    ensures Orders([e]) == if e.CartSubmitted? then [Order(e.cartId, e.orderedProducts, Total(e.orderedProducts))] else []
  {
    assert [e][..0] == [];
  }

  /** The k-th order comes from the k-th CartSubmitted: same cart, same products, summed total. */
  lemma {:induction false} OrdersCount(events: seq<Event>)
    ensures |Orders(events)| == |SubmittedOnly(events)|
    ensures forall k | 0 <= k < |Orders(events)| ::
      Orders(events)[k] == OrderOf(SubmittedOnly(events)[k])
    decreases |events|
  {
    if events != [] {
      var n := |events| - 1;
      OrdersCount(events[..n]);
    }
  }

  /** The CartSubmitted events, in order. */
  function SubmittedOnly(events: seq<Event>): (r: seq<Event>)
    ensures forall k | 0 <= k < |r| :: r[k].CartSubmitted?
    decreases |events|
  {
    if events == [] then []
    else
      var n := |events| - 1;
      SubmittedOnly(events[..n]) + (if events[n].CartSubmitted? then [events[n]] else [])
  }

  /** Without CartSubmitted events there are no orders. */
  lemma {:induction false} NoSubmissionsNoOrders(events: seq<Event>)
    requires forall k | 0 <= k < |events| :: !events[k].CartSubmitted?
    ensures Orders(events) == []
    decreases |events|
  {
    if events != [] {
      var n := |events| - 1;
      assert forall k | 0 <= k < n :: events[..n][k] == events[k];
      NoSubmissionsNoOrders(events[..n]);
    }
  }

  // The given/when/then scenarios (amounts in cents).

  lemma ProjectsOrdersFromCartSubmitted()
    ensures var orders := Orders([
      CartSubmitted("cart-1", [OrderedProduct("prod-a", 2999), OrderedProduct("prod-b", 4999)]),
      CartSubmitted("cart-2", [OrderedProduct("prod-c", 1999)])]);
      && |orders| == 2
      && orders[0].cartId == "cart-1" && |orders[0].orderedProducts| == 2 && orders[0].totalPrice == 7998
      && orders[1].cartId == "cart-2" && |orders[1].orderedProducts| == 1 && orders[1].totalPrice == 1999
  {
    var e1 := CartSubmitted("cart-1", [OrderedProduct("prod-a", 2999), OrderedProduct("prod-b", 4999)]);
    var e2 := CartSubmitted("cart-2", [OrderedProduct("prod-c", 1999)]);
    OrdersAppend([e1], [e2]);
    OrdersSingle(e1);
    OrdersSingle(e2);
    assert [e1] + [e2] == [e1, e2];
    TotalAppend([OrderedProduct("prod-a", 2999)], [OrderedProduct("prod-b", 4999)]);
    TotalSingle(OrderedProduct("prod-a", 2999));
    TotalSingle(OrderedProduct("prod-b", 4999));
    TotalSingle(OrderedProduct("prod-c", 1999));
    assert [OrderedProduct("prod-a", 2999)] + [OrderedProduct("prod-b", 4999)] == e1.orderedProducts;
  }

  lemma ReturnsEmptyWhenNoSubmissions()
    ensures Orders([CartCreated("cart-1"), ItemAdded("cart-1", "item-1", "prod-a", Some("Test"), Some(""), 1000)]) == []
  {
    NoSubmissionsNoOrders([CartCreated("cart-1"), ItemAdded("cart-1", "item-1", "prod-a", Some("Test"), Some(""), 1000)]);
  }
}
