/**
 * The carts-with-products state view of the root project (`CartsWithProductsProjector`): a list
 * of (CartId, ProductId) pairs, kept next to a dictionary from ItemId to ProductId that the fold
 * maintains for the removals. Both are local to `Project` and mutated by each event.
 */
module CsCartsWithProducts {
  import opened Wrappers
  import opened OrderedMap
  import opened CsEvents

  datatype ProductInCart = ProductInCart(cartId: Guid, productId: Guid)

  /** The fold's accumulator together with the ItemId to ProductId dictionary it reads. */
  datatype View = View(sv: seq<ProductInCart>, itemMap: OMap<Guid, Guid>)

  const Empty := View([], [])

  /** No (CartId, ProductId) pair is listed twice. */
  predicate Distinct(sv: seq<ProductInCart>) {
    forall i, j | 0 <= i < j < |sv| :: sv[i] != sv[j]
  }

  lemma DistinctTail(sv: seq<ProductInCart>)
    requires sv != []
    ensures Distinct(sv) ==> Distinct(sv[1..]) && sv[0] !in sv[1..]
    ensures Distinct(sv[1..]) && sv[0] !in sv[1..] ==> Distinct(sv)
  {
    if Distinct(sv) {
      forall i, j | 0 <= i < j < |sv| - 1 ensures sv[1..][i] != sv[1..][j] {
        assert sv[1..][i] == sv[i + 1] && sv[1..][j] == sv[j + 1];
      }
    }
    if Distinct(sv[1..]) && sv[0] !in sv[1..] {
      forall i, j | 0 <= i < j < |sv| ensures sv[i] != sv[j] {
        assert sv[j] == sv[1..][j - 1];
        if i > 0 {
          assert sv[i] == sv[1..][i - 1];
        }
      }
    }
  }

  /** `RemoveAll(x => x == pair)`, order kept. */
  function RemovePair(sv: seq<ProductInCart>, pair: ProductInCart): (r: seq<ProductInCart>)
    ensures forall x :: x in r <==> x in sv && x != pair
    ensures Distinct(sv) ==> Distinct(r)
    decreases |sv|
  {
    if sv == [] then []
    else
      DistinctTail(sv);
      (if sv[0] == pair then [] else [sv[0]]) + RemovePair(sv[1..], pair)
  }

  /** `RemoveAll(x => x.CartId == cartId)`, order kept. */
  function RemoveCartPairs(sv: seq<ProductInCart>, cartId: Guid): (r: seq<ProductInCart>)
    ensures forall x :: x in r <==> x in sv && x.cartId != cartId
    ensures Distinct(sv) ==> Distinct(r)
    decreases |sv|
  {
    if sv == [] then []
    else
      DistinctTail(sv);
      (if sv[0].cartId == cartId then [] else [sv[0]]) + RemoveCartPairs(sv[1..], cartId)
  }

  /** `Where(x => x.CartId == cartId).ToList()`. */
  function PairsOf(sv: seq<ProductInCart>, cartId: Guid): (r: seq<ProductInCart>)
    ensures forall x :: x in r <==> x in sv && x.cartId == cartId
    decreases |sv|
  {
    if sv == [] then []
    else (if sv[0].cartId == cartId then [sv[0]] else []) + PairsOf(sv[1..], cartId)
  }

  predicate HasCart(sv: seq<ProductInCart>, cartId: Guid) {
    exists k | 0 <= k < |sv| :: sv[k].cartId == cartId
  }

  function OtherProduct(productId: Guid): Guid -> bool {
    (p: Guid) => p != productId
  }

  /** `ClearItemIds`: every entry whose value is the product of one of the pairs goes, whichever cart its item was in. */
  function ClearedItemIds(productsOfCart: seq<ProductInCart>, itemMap: OMap<Guid, Guid>): OMap<Guid, Guid>
    decreases |productsOfCart|
  {
    if productsOfCart == [] then itemMap
    else
      var n := |productsOfCart| - 1;
      FilterValues(ClearedItemIds(productsOfCart[..n], itemMap), OtherProduct(productsOfCart[n].productId))
  }

  /**
   * ItemRemoved and ItemArchived: `RemoveAll` evaluates `itemIdToProductIdMap[itemId]` for each
   * pair of the event's cart, so it throws for an unknown item exactly when that cart has a pair.
   */
  function RetireItem(v: View, cartId: Guid, itemId: Guid): Result<View, Fault> {
    if !HasCart(v.sv, cartId) then Ok(View(v.sv, Delete(v.itemMap, itemId)))
    else
      match Get(v.itemMap, itemId)
      case None => Err(KeyNotFound(itemId))
      case Some(productId) => Ok(View(RemovePair(v.sv, ProductInCart(cartId, productId)), Delete(v.itemMap, itemId)))
  }

  function Step(v: View, e: Event): Result<View, Fault> {
    match e
    case ItemAdded(cartId, _, _, _, itemId, productId) =>
      var pair := ProductInCart(cartId, productId);
      Ok(View(if pair in v.sv then v.sv else v.sv + [pair], Set(v.itemMap, itemId, productId)))
    case ItemRemoved(itemId, cartId) => RetireItem(v, cartId, itemId)
    case ItemArchived(cartId, itemId) => RetireItem(v, cartId, itemId)
    case CartClearedCommand(cartId) =>
      Ok(View(RemoveCartPairs(v.sv, cartId), ClearedItemIds(PairsOf(v.sv, cartId), v.itemMap)))
    case _ => Ok(v)
  }

  /** The fold; an exception inside it ends the projection. */
  function ViewOf(stream: seq<Event>): Result<View, Fault>
    decreases |stream|
  {
    if stream == [] then Ok(Empty)
    else
      match ViewOf(stream[..|stream| - 1])
      case Err(f) => Err(f)
      case Ok(v) => Step(v, stream[|stream| - 1])
  }

  function CartsWithProducts(stream: seq<Event>): Result<seq<ProductInCart>, Fault> {
    match ViewOf(stream)
    case Err(f) => Err(f)
    case Ok(v) => Ok(v.sv)
  }

  // ----- The loops -----

  /** Deleting the key of the entry between a filtered prefix and the rest drops exactly that entry. */
  lemma DeleteBetween(kept: seq<(Guid, Guid)>, x: (Guid, Guid), rest: seq<(Guid, Guid)>)
    requires DistinctKeys(kept + [x] + rest)
    ensures Delete(kept + [x] + rest, x.0) == kept + rest
  {
    var r := kept + [x] + rest;
    assert r[|kept|] == x;
    DeleteAt(r, |kept|);
    assert r[..|kept|] == kept && r[|kept| + 1..] == rest;
  }

  /** Visiting entry `j` of the snapshot extends the filtered prefix by one entry. */
  lemma ClearStep(entries: OMap<Guid, Guid>, j: nat, productId: Guid, r: OMap<Guid, Guid>)
    requires j < |entries|
    requires r == Filter(entries[..j], OtherProduct(productId)) + entries[j..]
    ensures var next := if entries[j].1 == productId then Delete(r, entries[j].0) else r;
      next == Filter(entries[..j + 1], OtherProduct(productId)) + entries[j + 1..]
  {
    var keep := OtherProduct(productId);
    var front, x, rest := entries[..j], entries[j], entries[j + 1..];
    var kept := Filter(front, keep);
    assert entries[..j + 1] == front + [x];
    FilterSnoc(front, x, keep);
    assert entries[j..] == [x] + rest;
    assert r == kept + [x] + rest;
    if x.1 == productId {
      DeleteBetween(kept, x, rest);
    }
  }

  /**
   * `ClearItemIds`: for each pair, the entries with its product are enumerated and removed one
   * by one; removing from a dictionary does not disturb its enumeration, so the entries visited
   * are those present when the inner loop starts.
   */
  method ClearItemIds(productsOfCart: seq<ProductInCart>, itemMap: OMap<Guid, Guid>) returns (r: OMap<Guid, Guid>)
    ensures r == ClearedItemIds(productsOfCart, itemMap)
  {
    r := itemMap;
    for k := 0 to |productsOfCart|
      invariant r == ClearedItemIds(productsOfCart[..k], itemMap)
    {
      assert productsOfCart[..k + 1][..k] == productsOfCart[..k];
      var productId := productsOfCart[k].productId;
      var entries := r;
      var j := 0;
      while j < |entries|
        invariant j <= |entries|
        invariant r == Filter(entries[..j], OtherProduct(productId)) + entries[j..]
      {
        ClearStep(entries, j, productId, r);
        if entries[j].1 == productId {
          r := Delete(r, entries[j].0);
        }
        j := j + 1;
      }
      assert entries[..j] == entries && entries[j..] == [];
    }
    assert productsOfCart[..|productsOfCart|] == productsOfCart;
  }

  /** A fold that threw stays thrown, whatever follows. */
  lemma {:induction false} ViewErrSticks(stream: seq<Event>, k: nat)
    requires k <= |stream| && ViewOf(stream[..k]).Err?
    ensures ViewOf(stream) == ViewOf(stream[..k])
    decreases |stream| - k
  {
    if k < |stream| {
      var n := |stream| - 1;
      assert stream[..n][..k] == stream[..k];
      ViewErrSticks(stream[..n], k);
    } else {
      assert stream[..k] == stream;
    }
  }

  /** The body of the `Aggregate` lambda: one event applied to the list and the dictionary. */
  method ApplyEvent(sv: seq<ProductInCart>, itemMap: OMap<Guid, Guid>, e: Event) returns (r: Result<View, Fault>)
    ensures r == Step(View(sv, itemMap), e)
  {
    match e
    case ItemAdded(cartId, _, _, _, itemId, productId) =>
      var list := sv;
      if !(ProductInCart(cartId, productId) in list) {
        list := list + [ProductInCart(cartId, productId)];
      }
      r := Ok(View(list, Set(itemMap, itemId, productId)));
    case ItemRemoved(itemId, cartId) =>
      r := RemoveItem(sv, itemMap, cartId, itemId);
    case ItemArchived(cartId, itemId) =>
      r := RemoveItem(sv, itemMap, cartId, itemId);
    case CartClearedCommand(cartId) =>
      var productIdsToRemoveFromMap := PairsOf(sv, cartId);
      var cleared := ClearItemIds(productIdsToRemoveFromMap, itemMap);
      r := Ok(View(RemoveCartPairs(sv, cartId), cleared));
    case _ =>
      r := Ok(View(sv, itemMap));
  }

  method RemoveItem(sv: seq<ProductInCart>, itemMap: OMap<Guid, Guid>, cartId: Guid, itemId: Guid)
    returns (r: Result<View, Fault>)
    ensures r == RetireItem(View(sv, itemMap), cartId, itemId)
  {
    var list := sv;
    if HasCart(sv, cartId) {
      var productId := Get(itemMap, itemId);
      if productId.None? {
        return Err(KeyNotFound(itemId));
      }
      list := RemovePair(sv, ProductInCart(cartId, productId.value));
    }
    r := Ok(View(list, Delete(itemMap, itemId)));
  }

  method Project(stream: seq<Event>) returns (result: Result<seq<ProductInCart>, Fault>)
    ensures result == CartsWithProducts(stream)
  {
    var view := Empty;
    for i := 0 to |stream|
      invariant ViewOf(stream[..i]) == Ok(view)
    {
      assert stream[..i + 1][..i] == stream[..i];
      var next := ApplyEvent(view.sv, view.itemMap, stream[i]);
      if next.Err? {
        ViewErrSticks(stream, i + 1);
        return Err(next.error);
      }
      view := next.value;
    }
    assert stream[..|stream|] == stream;
    result := Ok(view.sv);
  }

  // ----- Properties of the view -----

  lemma ViewSnoc(s: seq<Event>, e: Event)
    ensures ViewOf(s + [e]) == match ViewOf(s) case Err(f) => Err(f) case Ok(v) => Step(v, e)
  {
    assert (s + [e])[..|s|] == s;
  }
  /** Once a prefix folds to `v`, one more event folds to the step from `v`. */
  lemma ViewSnocOk(s: seq<Event>, e: Event, v: View)
    requires ViewOf(s) == Ok(v)
    ensures ViewOf(s + [e]) == Step(v, e)
  {
    ViewSnoc(s, e);
  }

  /** A stream of two events folds to the step, from what the first event folds to, of the second. */
  lemma ViewPairOk(x: Event, y: Event, v: View)
    requires ViewOf([x]) == Ok(v)
    ensures ViewOf([x, y]) == Step(v, y)
  {
    assert [x, y][..1] == [x];
  }


  /** The index after `ClearItemIds` keeps exactly the entries whose product is none of the pairs' products. */
  lemma {:induction false} ClearedItemIdsMembers(productsOfCart: seq<ProductInCart>, itemMap: OMap<Guid, Guid>, e: (Guid, Guid))
    ensures e in ClearedItemIds(productsOfCart, itemMap) <==>
      e in itemMap && forall x | x in productsOfCart :: x.productId != e.1
    decreases |productsOfCart|
  {
    if productsOfCart != [] {
      var n := |productsOfCart| - 1;
      var front := productsOfCart[..n];
      ClearedItemIdsMembers(front, itemMap, e);
      FilterMembers(ClearedItemIds(front, itemMap), OtherProduct(productsOfCart[n].productId), e);
      assert productsOfCart == front + [productsOfCart[n]];
    }
  }

  /** ItemAdded lists its (cart, product) pair once, keeps every other pair and indexes the item under its product. */
  lemma AddedItemRecorded(v: View, e: Event)
    requires e.ItemAdded?
    ensures Step(v, e).Ok?
    ensures var r := Step(v, e).value;
      && ProductInCart(e.cartId, e.productId) in r.sv
      && (forall x :: x in r.sv <==> x in v.sv || x == ProductInCart(e.cartId, e.productId))
      && (Distinct(v.sv) ==> Distinct(r.sv))
      && Get(r.itemMap, e.itemId) == Some(e.productId)
  {
  }

  /**
   * ItemRemoved and ItemArchived throw exactly when the event's cart has a pair and the item is
   * not in the index; otherwise the item leaves the index and, when the cart had pairs, the pair
   * of the item's product in that cart goes and every other pair stays.
   */
  lemma RetireItemOutcome(v: View, cartId: Guid, itemId: Guid)
    ensures RetireItem(v, cartId, itemId).Err? <==> HasCart(v.sv, cartId) && !Has(v.itemMap, itemId)
    ensures RetireItem(v, cartId, itemId).Err? ==> RetireItem(v, cartId, itemId).error == KeyNotFound(itemId)
    ensures match RetireItem(v, cartId, itemId)
      case Err(_) => true
      case Ok(r) =>
        && Get(r.itemMap, itemId) == None
        && (forall k | k != itemId :: Get(r.itemMap, k) == Get(v.itemMap, k))
        && (!HasCart(v.sv, cartId) ==> r.sv == v.sv)
        && (HasCart(v.sv, cartId) ==>
              forall x :: x in r.sv <==> x in v.sv && x != ProductInCart(cartId, Get(v.itemMap, itemId).value))
  {
  }

  /** CartClearedCommand drops every pair of the cart, keeps every other pair, and unindexes the items of the cart's products. */
  lemma ClearRemovesCart(v: View, cartId: Guid)
    ensures Step(v, CartClearedCommand(cartId)).Ok?
    ensures var r := Step(v, CartClearedCommand(cartId)).value;
      && (forall x :: x in r.sv <==> x in v.sv && x.cartId != cartId)
      && (forall e :: e in r.itemMap <==>
            e in v.itemMap && forall x | x in v.sv && x.cartId == cartId :: x.productId != e.1)
  {
    var r := Step(v, CartClearedCommand(cartId)).value;
    forall e ensures e in r.itemMap <==>
      e in v.itemMap && forall x | x in v.sv && x.cartId == cartId :: x.productId != e.1
    {
      ClearedItemIdsMembers(PairsOf(v.sv, cartId), v.itemMap, e);
    }
  }

  /** The events that neither add, retire nor clear leave the view as it is. */
  lemma OtherEventsIgnored(v: View, e: Event)
    requires !e.ItemAdded? && !e.ItemRemoved? && !e.ItemArchived? && !e.CartClearedCommand?
    ensures Step(v, e) == Ok(v)
  {
  }

  /** The projection never lists a pair twice. */
  lemma {:induction false} ViewDistinct(stream: seq<Event>)
    ensures ViewOf(stream).Ok? ==> Distinct(ViewOf(stream).value.sv)
    decreases |stream|
  {
    if stream != [] {
      var n := |stream| - 1;
      ViewDistinct(stream[..n]);
      var e := stream[n];
      if ViewOf(stream[..n]).Ok? && e.ItemAdded? {
        AddedItemRecorded(ViewOf(stream[..n]).value, e);
      }
    }
  }

  /** Some ItemAdded of the stream put the product in the cart. */
  predicate AddedIn(stream: seq<Event>, x: ProductInCart) {
    exists i | 0 <= i < |stream| :: stream[i].ItemAdded? && stream[i].cartId == x.cartId && stream[i].productId == x.productId
  }

  /** A pair listed after a step was listed before it, or the step is an ItemAdded of that pair. */
  lemma StepPairsFrom(v: View, e: Event, x: ProductInCart)
    requires Step(v, e).Ok? && x in Step(v, e).value.sv
    ensures x in v.sv || (e.ItemAdded? && e.cartId == x.cartId && e.productId == x.productId)
  {
  }

  lemma AddedInSnoc(s: seq<Event>, e: Event, x: ProductInCart)
    requires AddedIn(s, x) || (e.ItemAdded? && e.cartId == x.cartId && e.productId == x.productId)
    ensures AddedIn(s + [e], x)
  {
    var t := s + [e];
    if AddedIn(s, x) {
      var i :| 0 <= i < |s| && s[i].ItemAdded? && s[i].cartId == x.cartId && s[i].productId == x.productId;
      assert t[i] == s[i];
    } else {
      assert t[|s|] == e;
    }
  }

  /** Every listed pair comes from an ItemAdded of the stream. */
  lemma {:induction false} ViewPairsAdded(stream: seq<Event>)
    ensures ViewOf(stream).Ok? ==> forall x | x in ViewOf(stream).value.sv :: AddedIn(stream, x)
    decreases |stream|
  {
    if stream != [] && ViewOf(stream).Ok? {
      var n := |stream| - 1;
      var s, e := stream[..n], stream[n];
      assert stream == s + [e];
      ViewSnoc(s, e);
      ViewPairsAdded(s);
      var v := ViewOf(s).value;
      forall x | x in ViewOf(stream).value.sv ensures AddedIn(stream, x) {
        StepPairsFrom(v, e, x);
        AddedInSnoc(s, e, x);
      }
    }
  }

  /** The view lists exactly the cart, product pairs once the stream is folded without an exception. */
  lemma CartsWithProductsDistinct(stream: seq<Event>)
    ensures CartsWithProducts(stream).Ok? ==>
      Distinct(CartsWithProducts(stream).value) && forall x | x in CartsWithProducts(stream).value :: AddedIn(stream, x)
  {
    ViewDistinct(stream);
    ViewPairsAdded(stream);
  }

  // ----- Scenarios -----

  function Added(c: Guid, itemId: Guid, productId: Guid): Event {
    ItemAdded(c, Some("Description"), Some("Image"), 10, itemId, productId)
  }

  /** CartCreated then one ItemAdded: one pair, for that cart and product. */
  lemma {:induction false} AddedItemState(c: Guid, itemId: Guid, productId: Guid)
    ensures ViewOf([CartCreated(c), Added(c, itemId, productId)]) == Ok(View([ProductInCart(c, productId)], [(itemId, productId)]))
  {
    var one := [CartCreated(c)];
    assert one[..0] == [];
    assert ViewOf(one) == Ok(Empty);
    var two := [CartCreated(c), Added(c, itemId, productId)];
    assert two[..1] == one;
    assert Set([], itemId, productId) == [(itemId, productId)];
    assert Empty.sv == [] && Empty.itemMap == [];
    assert ProductInCart(c, productId) !in Empty.sv;
    assert Empty.sv + [ProductInCart(c, productId)] == [ProductInCart(c, productId)];
    assert Set(Empty.itemMap, itemId, productId) == [(itemId, productId)];
    assert Step(Empty, Added(c, itemId, productId)) == Ok(View([ProductInCart(c, productId)], [(itemId, productId)]));
    assert two[1] == Added(c, itemId, productId);
    assert ViewOf(two) == Step(Empty, two[1]);
  }

  lemma CartShouldContainProductIdOfAddedItem(c: Guid, itemId: Guid, productId: Guid)
    ensures CartsWithProducts([CartCreated(c), Added(c, itemId, productId)]) == Ok([ProductInCart(c, productId)])
  {
    AddedItemState(c, itemId, productId);
  }

  /** Retiring the only item of the only cart leaves nothing. */
  lemma RetireOnlyItem(c: Guid, itemId: Guid, productId: Guid)
    ensures RetireItem(View([ProductInCart(c, productId)], [(itemId, productId)]), c, itemId) == Ok(View([], []))
  {
    var v := View([ProductInCart(c, productId)], [(itemId, productId)]);
    assert v.sv[0].cartId == c;
    assert HasCart(v.sv, c);
    GetEntry(v.itemMap, 0);
    assert Get(v.itemMap, itemId) == Some(productId);
    assert v.sv[1..] == [];
    assert RemovePair(v.sv, ProductInCart(c, productId)) == [];
    assert Keys(v.itemMap)[0] == itemId;
    assert |Delete(v.itemMap, itemId)| == 0;
  }

  lemma ArchivedItemsShouldBeRemovedFromList(c: Guid, itemId: Guid, productId: Guid)
    ensures CartsWithProducts([CartCreated(c), Added(c, itemId, productId), ItemArchived(c, itemId)]) == Ok([])
  {
    var s := [CartCreated(c), Added(c, itemId, productId)];
    AddedItemState(c, itemId, productId);
    ViewSnoc(s, ItemArchived(c, itemId));
    RetireOnlyItem(c, itemId, productId);
    assert s + [ItemArchived(c, itemId)] == [CartCreated(c), Added(c, itemId, productId), ItemArchived(c, itemId)];
  }

  lemma RemovedItemsShouldBeRemovedFromList(c: Guid, itemId: Guid, productId: Guid)
    ensures CartsWithProducts([CartCreated(c), Added(c, itemId, productId), ItemRemoved(itemId, c)]) == Ok([])
  {
    var s := [CartCreated(c), Added(c, itemId, productId)];
    AddedItemState(c, itemId, productId);
    ViewSnoc(s, ItemRemoved(itemId, c));
    RetireOnlyItem(c, itemId, productId);
    assert s + [ItemRemoved(itemId, c)] == [CartCreated(c), Added(c, itemId, productId), ItemRemoved(itemId, c)];
  }

  /** Clearing a cart that holds every listed pair leaves none. */
  lemma {:induction false} ClearOnlyCart(sv: seq<ProductInCart>, c: Guid)
    requires forall x | x in sv :: x.cartId == c
    ensures RemoveCartPairs(sv, c) == []
    decreases |sv|
  {
    if sv != [] {
      assert sv[0] in sv;
      ClearOnlyCart(sv[1..], c);
    }
  }

  /** Two ItemAdded events for one cart: every listed pair is of that cart. */
  lemma {:induction false} TwoAddedState(c: Guid, i1: Guid, p1: Guid, i2: Guid, p2: Guid)
    ensures var r := ViewOf([CartCreated(c), Added(c, i1, p1), Added(c, i2, p2)]);
      r.Ok? && forall x | x in r.value.sv :: x.cartId == c
  {
    var s := [CartCreated(c), Added(c, i1, p1)];
    var e := Added(c, i2, p2);
    AddedItemState(c, i1, p1);
    ViewSnocOk(s, e, View([ProductInCart(c, p1)], [(i1, p1)]));
    SecondAddedStep(c, i1, p1, i2, p2);
    assert s + [e] == [CartCreated(c), Added(c, i1, p1), e];
  }

  lemma SecondAddedStep(c: Guid, i1: Guid, p1: Guid, i2: Guid, p2: Guid)
    ensures var r := Step(View([ProductInCart(c, p1)], [(i1, p1)]), Added(c, i2, p2));
      r.Ok? && forall x | x in r.value.sv :: x.cartId == c
  {
    AddedItemRecorded(View([ProductInCart(c, p1)], [(i1, p1)]), Added(c, i2, p2));
  }

  /** Clearing the one cart of a view leaves an empty list. */
  lemma ClearOnlyCartStep(s: seq<Event>, c: Guid)
    requires ViewOf(s).Ok? && forall x | x in ViewOf(s).value.sv :: x.cartId == c
    ensures CartsWithProducts(s + [CartClearedCommand(c)]) == Ok([])
  {
    ViewSnoc(s, CartClearedCommand(c));
    ClearOnlyCart(ViewOf(s).value.sv, c);
  }

  lemma CartClearedShouldRemoveItemsFromList(c: Guid, i1: Guid, p1: Guid, i2: Guid, p2: Guid)
    ensures CartsWithProducts([CartCreated(c), Added(c, i1, p1), Added(c, i2, p2), CartClearedCommand(c)]) == Ok([])
  {
    var s := [CartCreated(c), Added(c, i1, p1), Added(c, i2, p2)];
    TwoAddedState(c, i1, p1, i2, p2);
    ClearOnlyCartStep(s, c);
    assert s + [CartClearedCommand(c)] == [CartCreated(c), Added(c, i1, p1), Added(c, i2, p2), CartClearedCommand(c)];
  }

  // ----- Clearing one cart forgets the items of another -----

  /** Event `e` ends the life of item `itemId` in cart `cartId`: it re-adds, removes or archives the item, or clears the cart. */
  predicate Retires(e: Event, itemId: Guid, cartId: Guid) {
    || (e.ItemAdded? && e.itemId == itemId)
    || (e.ItemRemoved? && e.itemId == itemId)
    || (e.ItemArchived? && e.itemId == itemId)
    || (e.CartClearedCommand? && e.cartId == cartId)
  }

  /** Item `itemId` was added to the pair's cart with the pair's product, and nothing retired it since. */
  predicate LiveItem(stream: seq<Event>, itemId: Guid, pair: ProductInCart) {
    exists k | 0 <= k < |stream| ::
      && stream[k].ItemAdded? && stream[k].itemId == itemId
      && stream[k].cartId == pair.cartId && stream[k].productId == pair.productId
      && forall j | k < j < |stream| :: !Retires(stream[j], itemId, pair.cartId)
  }

  /** An item live after one more event was either added by that event, or live before it and not retired by it. */
  lemma LiveItemSnoc(s: seq<Event>, e: Event, itemId: Guid, pair: ProductInCart)
    requires LiveItem(s + [e], itemId, pair)
    ensures || (e.ItemAdded? && e.itemId == itemId && e.cartId == pair.cartId && e.productId == pair.productId)
            || (LiveItem(s, itemId, pair) && !Retires(e, itemId, pair.cartId))
  {
    var t := s + [e];
    var k :| 0 <= k < |t| && t[k].ItemAdded? && t[k].itemId == itemId
      && t[k].cartId == pair.cartId && t[k].productId == pair.productId
      && forall j | k < j < |t| :: !Retires(t[j], itemId, pair.cartId);
    if k < |s| {
      assert t[k] == s[k] && t[|s|] == e;
      assert forall j | k < j < |s| :: s[j] == t[j];
    }
  }

  function SharedOne(a: Guid, i1: Guid, p: Guid): View {
    View([ProductInCart(a, p)], [(i1, p)])
  }

  function SharedTwo(a: Guid, i1: Guid, b: Guid, i2: Guid, p: Guid): View
    requires i1 != i2
  {
    View([ProductInCart(a, p), ProductInCart(b, p)], [(i1, p), (i2, p)])
  }

  lemma SharedFirstStep(a: Guid, i1: Guid, p: Guid)
    ensures Step(Empty, Added(a, i1, p)) == Ok(SharedOne(a, i1, p))
  {
    assert Empty.sv + [ProductInCart(a, p)] == [ProductInCart(a, p)];
    assert Set(Empty.itemMap, i1, p) == [(i1, p)];
  }

  lemma SharedSecondStep(a: Guid, i1: Guid, b: Guid, i2: Guid, p: Guid)
    requires a != b && i1 != i2
    ensures Step(SharedOne(a, i1, p), Added(b, i2, p)) == Ok(SharedTwo(a, i1, b, i2, p))
  {
    var v := SharedOne(a, i1, p);
    assert ProductInCart(b, p) !in v.sv;
    assert i2 !in Keys(v.itemMap);
    assert v.sv + [ProductInCart(b, p)] == [ProductInCart(a, p), ProductInCart(b, p)];
    assert v.itemMap + [(i2, p)] == [(i1, p), (i2, p)];
    assert Set(v.itemMap, i2, p) == [(i1, p), (i2, p)];
  }

  /** Clearing cart a unindexes b's item too, because it has the same product. */
  lemma SharedClearStep(a: Guid, i1: Guid, b: Guid, i2: Guid, p: Guid)
    requires a != b && i1 != i2
    ensures Step(SharedTwo(a, i1, b, i2, p), CartClearedCommand(a)) == Ok(View([ProductInCart(b, p)], []))
  {
    var v := SharedTwo(a, i1, b, i2, p);
    var rest := [ProductInCart(b, p)];
    assert v.sv[1..] == rest && rest[1..] == [];
    assert RemoveCartPairs(rest, a) == rest + RemoveCartPairs([], a);
    assert RemoveCartPairs(v.sv, a) == [] + RemoveCartPairs(rest, a);
    assert PairsOf(rest, a) == [] + PairsOf([], a);
    assert PairsOf(v.sv, a) == [v.sv[0]] + PairsOf(rest, a);
    var pairs := [ProductInCart(a, p)];
    assert pairs[..0] == [];
    assert forall k | 0 <= k < |v.itemMap| :: !OtherProduct(p)(v.itemMap[k].1);
    FilterNone(v.itemMap, OtherProduct(p));
    assert ClearedItemIds(pairs, v.itemMap) == FilterValues(v.itemMap, OtherProduct(p));
    assert FilterValues(v.itemMap, OtherProduct(p)) == [];
    assert RemoveCartPairs(v.sv, a) == [ProductInCart(b, p)];
    assert Step(v, CartClearedCommand(a)) == Ok(View(RemoveCartPairs(v.sv, a), ClearedItemIds(PairsOf(v.sv, a), v.itemMap)));
  }

  lemma SharedRemoveStep(b: Guid, i2: Guid, p: Guid)
    ensures RetireItem(View([ProductInCart(b, p)], []), b, i2) == Err(KeyNotFound(i2))
  {
    assert [ProductInCart(b, p)][0].cartId == b;
  }

  lemma SharedOneState(a: Guid, i1: Guid, p: Guid)
    ensures ViewOf([Added(a, i1, p)]) == Ok(SharedOne(a, i1, p))
  {
    var s0: seq<Event> := [];
    var e := Added(a, i1, p);
    assert ViewOf(s0) == Ok(Empty);
    ViewSnocOk(s0, e, Empty);
    SharedFirstStep(a, i1, p);
    assert s0 + [e] == [e];
  }

  lemma SharedTwoState(a: Guid, i1: Guid, b: Guid, i2: Guid, p: Guid)
    requires a != b && i1 != i2
    ensures ViewOf([Added(a, i1, p), Added(b, i2, p)]) == Ok(SharedTwo(a, i1, b, i2, p))
  {
    SharedOneState(a, i1, p);
    ViewPairOk(Added(a, i1, p), Added(b, i2, p), SharedOne(a, i1, p));
    SharedSecondStep(a, i1, b, i2, p);
  }

  lemma SharedClearedState(a: Guid, i1: Guid, b: Guid, i2: Guid, p: Guid)
    requires a != b && i1 != i2
    ensures ViewOf([Added(a, i1, p), Added(b, i2, p), CartClearedCommand(a)]) == Ok(View([ProductInCart(b, p)], []))
  {
    var s2 := [Added(a, i1, p), Added(b, i2, p)];
    var e := CartClearedCommand(a);
    SharedTwoState(a, i1, b, i2, p);
    ViewSnocOk(s2, e, SharedTwo(a, i1, b, i2, p));
    SharedClearStep(a, i1, b, i2, p);
    assert s2 + [e] == [Added(a, i1, p), Added(b, i2, p), e];
  }

  /**
   * Two carts hold the same product; clearing the first makes the removal of the second cart's
   * item throw, although that item is still live in its cart.
   */
  lemma ClearOfOtherCartCrashesRemoval(a: Guid, i1: Guid, b: Guid, i2: Guid, p: Guid)
    requires a != b && i1 != i2
    ensures var s := [Added(a, i1, p), Added(b, i2, p), CartClearedCommand(a)];
      && ViewOf(s).Ok?
      && LiveItem(s, i2, ProductInCart(b, p))
      && ViewOf(s + [ItemRemoved(i2, b)]) == Err(KeyNotFound(i2))
  {
    var s := [Added(a, i1, p), Added(b, i2, p), CartClearedCommand(a)];
    SharedClearedState(a, i1, b, i2, p);
    ViewSnoc(s, ItemRemoved(i2, b));
    SharedRemoveStep(b, i2, p);
    assert s == [Added(a, i1, p), Added(b, i2, p), CartClearedCommand(a)];
    assert s[1] == Added(b, i2, p) && !Retires(s[2], i2, b);
  }
}
