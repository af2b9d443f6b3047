/**
 * The carts-with-products view with `ClearItemIds` restricted to the cleared cart. The index
 * remembers, for each item, the (CartId, ProductId) pair it was added with, and CartClearedCommand
 * drops only the entries of that cart whose pair is listed, where the projection as written drops
 * every entry whose product is the product of one of the cart's pairs, whichever cart the item
 * was in.
 */
module CsCartsWithProductsFixed {
  import opened Wrappers
  import opened OrderedMap
  import opened CsEvents
  import opened CsCartsWithProducts

  datatype TrackedView = TrackedView(sv: seq<ProductInCart>, index: OMap<Guid, ProductInCart>)

  const TrackedEmpty := TrackedView([], [])

  /** The entries CartClearedCommand keeps: those of other carts, and those whose pair is no longer listed. */
  function KeptAfterClear(sv: seq<ProductInCart>, cartId: Guid): ProductInCart -> bool {
    (x: ProductInCart) => x.cartId != cartId || x !in sv
  }

  function RetireTracked(v: TrackedView, cartId: Guid, itemId: Guid): Result<TrackedView, Fault> {
    if !HasCart(v.sv, cartId) then Ok(TrackedView(v.sv, Delete(v.index, itemId)))
    else
      match Get(v.index, itemId)
      case None => Err(KeyNotFound(itemId))
      case Some(added) => Ok(TrackedView(RemovePair(v.sv, ProductInCart(cartId, added.productId)), Delete(v.index, itemId)))
  }

  function StepTracked(v: TrackedView, e: Event): Result<TrackedView, Fault> {
    match e
    case ItemAdded(cartId, _, _, _, itemId, productId) =>
      var pair := ProductInCart(cartId, productId);
      Ok(TrackedView(if pair in v.sv then v.sv else v.sv + [pair], Set(v.index, itemId, pair)))
    case ItemRemoved(itemId, cartId) => RetireTracked(v, cartId, itemId)
    case ItemArchived(cartId, itemId) => RetireTracked(v, cartId, itemId)
    case CartClearedCommand(cartId) =>
      Ok(TrackedView(RemoveCartPairs(v.sv, cartId), FilterValues(v.index, KeptAfterClear(v.sv, cartId))))
    case _ => Ok(v)
  }

  function TrackedOf(stream: seq<Event>): Result<TrackedView, Fault>
    decreases |stream|
  {
    if stream == [] then Ok(TrackedEmpty)
    else
      match TrackedOf(stream[..|stream| - 1])
      case Err(f) => Err(f)
      case Ok(v) => StepTracked(v, stream[|stream| - 1])
  }

  lemma TrackedSnoc(s: seq<Event>, e: Event)
    ensures TrackedOf(s + [e]) == match TrackedOf(s) case Err(f) => Err(f) case Ok(v) => StepTracked(v, e)
  {
    assert (s + [e])[..|s|] == s;
  }

  // ----- A live item stays indexed -----

  /** An event that does not retire the item keeps its index entry. */
  lemma StepKeepsLiveEntry(v: TrackedView, e: Event, itemId: Guid, pair: ProductInCart)
    requires Get(v.index, itemId) == Some(pair)
    requires !Retires(e, itemId, pair.cartId)
    requires StepTracked(v, e).Ok?
    ensures Get(StepTracked(v, e).value.index, itemId) == Some(pair)
  {
    if e.CartClearedCommand? {
      FilterValuesGet(v.index, KeptAfterClear(v.sv, e.cartId), itemId);
    }
  }

  /**
   * Every item added to a cart and not yet retired (re-added, removed, archived or its cart
   * cleared) is in the index under the pair it was added with, so removing it cannot throw.
   */
  lemma {:induction false} LiveItemIndexed(stream: seq<Event>, itemId: Guid, pair: ProductInCart)
    requires TrackedOf(stream).Ok? && LiveItem(stream, itemId, pair)
    ensures Get(TrackedOf(stream).value.index, itemId) == Some(pair)
    decreases |stream|
  {
    var n := |stream| - 1;
    var s, e := stream[..n], stream[n];
    assert stream == s + [e];
    TrackedSnoc(s, e);
    LiveItemSnoc(s, e, itemId, pair);
    if LiveItem(s, itemId, pair) && !Retires(e, itemId, pair.cartId) {
      LiveItemIndexed(s, itemId, pair);
      StepKeepsLiveEntry(TrackedOf(s).value, e, itemId, pair);
    }
  }

  /** Removing a live item of its own cart succeeds and drops its pair. */
  lemma RemoveLiveItem(stream: seq<Event>, itemId: Guid, pair: ProductInCart)
    requires TrackedOf(stream).Ok? && LiveItem(stream, itemId, pair)
    ensures TrackedOf(stream + [ItemRemoved(itemId, pair.cartId)]).Ok?
    ensures pair !in TrackedOf(stream + [ItemRemoved(itemId, pair.cartId)]).value.sv
  {
    LiveItemIndexed(stream, itemId, pair);
    TrackedSnoc(stream, ItemRemoved(itemId, pair.cartId));
  }

  // ----- The correction keeps every outcome that did not throw -----

  /** The two views list the same pairs, and every item the original indexes is indexed with the same product. */
  ghost predicate Agrees(v: View, t: TrackedView) {
    && v.sv == t.sv
    && forall k | Has(v.itemMap, k) :: Has(t.index, k) && Get(t.index, k).value.productId == Get(v.itemMap, k).value
  }

  lemma ClearAgrees(v: View, t: TrackedView, cartId: Guid)
    requires Agrees(v, t)
    ensures Agrees(Step(v, CartClearedCommand(cartId)).value, StepTracked(t, CartClearedCommand(cartId)).value)
  {
    var r := Step(v, CartClearedCommand(cartId)).value;
    var q := StepTracked(t, CartClearedCommand(cartId)).value;
    var keep := KeptAfterClear(t.sv, cartId);
    forall k | Has(r.itemMap, k) ensures Has(q.index, k) && Get(q.index, k).value.productId == Get(r.itemMap, k).value {
      var p := Get(r.itemMap, k).value;
      GetMembers(r.itemMap, k, p);
      ClearedItemIdsMembers(PairsOf(v.sv, cartId), v.itemMap, (k, p));
      GetMembers(v.itemMap, k, p);
      var x := Get(t.index, k).value;
      FilterValuesGet(t.index, keep, k);
      if x.cartId == cartId && x in t.sv {
        assert x in PairsOf(v.sv, cartId);
      }
    }
  }

  lemma AddAgrees(v: View, t: TrackedView, e: Event)
    requires Agrees(v, t) && e.ItemAdded?
    ensures Agrees(Step(v, e).value, StepTracked(t, e).value)
  {
    var r := Step(v, e).value;
    var q := StepTracked(t, e).value;
    assert r.sv == q.sv;
    forall k | Has(r.itemMap, k) ensures Has(q.index, k) && Get(q.index, k).value.productId == Get(r.itemMap, k).value {
      if k != e.itemId {
        assert Get(r.itemMap, k) == Get(v.itemMap, k) && Get(q.index, k) == Get(t.index, k);
        assert Has(v.itemMap, k);
      }
    }
  }

  lemma RetireAgrees(v: View, t: TrackedView, cartId: Guid, itemId: Guid)
    requires Agrees(v, t) && RetireItem(v, cartId, itemId).Ok?
    ensures RetireTracked(t, cartId, itemId).Ok? && Agrees(RetireItem(v, cartId, itemId).value, RetireTracked(t, cartId, itemId).value)
  {
    var r := RetireItem(v, cartId, itemId).value;
    if HasCart(v.sv, cartId) {
      assert Has(v.itemMap, itemId);
    }
    var q := RetireTracked(t, cartId, itemId).value;
    assert r.sv == q.sv;
    forall k | Has(r.itemMap, k) ensures Has(q.index, k) && Get(q.index, k).value.productId == Get(r.itemMap, k).value {
      assert k != itemId;
      assert Get(r.itemMap, k) == Get(v.itemMap, k) && Get(q.index, k) == Get(t.index, k);
      assert Has(v.itemMap, k);
    }
  }

  lemma StepAgrees(v: View, t: TrackedView, e: Event)
    requires Agrees(v, t) && Step(v, e).Ok?
    ensures StepTracked(t, e).Ok? && Agrees(Step(v, e).value, StepTracked(t, e).value)
  {
    match e
    case ItemAdded(_, _, _, _, _, _) => AddAgrees(v, t, e);
    case ItemRemoved(itemId, cartId) => RetireAgrees(v, t, cartId, itemId);
    case ItemArchived(cartId, itemId) => RetireAgrees(v, t, cartId, itemId);
    case CartClearedCommand(cartId) => ClearAgrees(v, t, cartId);
    case _ =>
  }
  /**
   * Wherever the projection as written completes, the corrected one completes too and lists the
   * same pairs: the correction only removes exceptions.
   */
  lemma {:induction false} FixKeepsOutcomes(stream: seq<Event>)
    requires ViewOf(stream).Ok?
    ensures TrackedOf(stream).Ok? && Agrees(ViewOf(stream).value, TrackedOf(stream).value)
    decreases |stream|
  {
    if stream != [] {
      var n := |stream| - 1;
      var s, e := stream[..n], stream[n];
      assert stream == s + [e];
      ViewSnoc(s, e);
      TrackedSnoc(s, e);
      FixKeepsOutcomes(s);
      StepAgrees(ViewOf(s).value, TrackedOf(s).value, e);
    }
  }

  /** The stream whose removal throws as written: the corrected projection removes b's item. */
  lemma ClearOfOtherCartThenRemoval(a: Guid, i1: Guid, b: Guid, i2: Guid, p: Guid)
    requires a != b && i1 != i2
    ensures var s := [Added(a, i1, p), Added(b, i2, p), CartClearedCommand(a)];
      && TrackedOf(s + [ItemRemoved(i2, b)]).Ok?
      && ProductInCart(b, p) !in TrackedOf(s + [ItemRemoved(i2, b)]).value.sv
  {
    var s := [Added(a, i1, p), Added(b, i2, p), CartClearedCommand(a)];
    ClearOfOtherCartCrashesRemoval(a, i1, b, i2, p);
    FixKeepsOutcomes(s);
    RemoveLiveItem(s, i2, ProductInCart(b, p));
  }
}
