/**
 * The carts-with-products read model of the TypeScript port (`projectCartsWithProducts`): one
 * (cartId, productId) pair per product that some live item of a cart refers to.
 */
module TsCartsWithProducts {
  import opened Wrappers
  import opened OrderedMap
  import opened TsEvents
  import opened TsItemIndex

  function KeepOtherCarts(cartId: string): ItemRef -> bool {
    (r: ItemRef) => r.cartId != cartId
  }

  /** One step of the scan: CartCleared drops every item of that cart, the rest as in the index. */
  function ViewStep(index: ItemIndex, e: Event): ItemIndex {
    if e.CartCleared? then FilterValues(index, KeepOtherCarts(e.cartId)) else IndexStep(index, e)
  }

  function ViewIndex(events: seq<Event>): ItemIndex
    decreases |events|
  {
    if events == [] then [] else ViewStep(ViewIndex(events[..|events| - 1]), events[|events| - 1])
  }

  /** The first occurrence of each element, in order. */
  function Distinct<T(==,!new)>(xs: seq<T>): (r: seq<T>)
    ensures forall x :: x in r <==> x in xs
    ensures forall i, j | 0 <= i < j < |r| :: r[i] != r[j]
    decreases |xs|
  {
    if xs == [] then []
    else
      var n := |xs| - 1;
      var front := Distinct(xs[..n]);
      assert xs == xs[..n] + [xs[n]];
      if xs[n] in xs[..n] then front else front + [xs[n]]
  }

  /** One more element is kept exactly when it is new. */
  lemma DistinctSnoc<T(!new)>(xs: seq<T>, x: T)
    ensures Distinct(xs + [x]) == if x in xs then Distinct(xs) else Distinct(xs) + [x]
  {
    assert (xs + [x])[..|xs|] == xs;
  }

  function CartsWithProducts(events: seq<Event>): seq<ItemRef> {
    Distinct(Values(ViewIndex(events)))
  }

  /**
   * The inner loop run for CartCleared: it visits the entries in order and deletes each one of
   * that cart. Deleting the entry being visited does not disturb iteration over a `Map`, so the
   * visit order is that of the entries before the loop.
   */
  method ClearCartEntries(itemMap: ItemIndex, cartId: string) returns (r: ItemIndex)
    ensures r == FilterValues(itemMap, KeepOtherCarts(cartId))
  {
    var keep := KeepOtherCarts(cartId);
    r := itemMap;
    var j := 0;
    while j < |itemMap|
      invariant j <= |itemMap|
      invariant r == Filter(itemMap[..j], keep) + itemMap[j..]
    {
      ClearStep(itemMap, j, cartId, r);
      if itemMap[j].1.cartId == cartId {
        r := Delete(r, itemMap[j].0);
      }
      j := j + 1;
    }
    assert itemMap[..|itemMap|] == itemMap;
  }

  /** Visiting entry `j` extends the filtered prefix by one entry. */
  lemma ClearStep(itemMap: ItemIndex, j: nat, cartId: string, r: ItemIndex)
    requires j < |itemMap|
    requires r == Filter(itemMap[..j], KeepOtherCarts(cartId)) + itemMap[j..]
    ensures var next := if itemMap[j].1.cartId == cartId then Delete(r, itemMap[j].0) else r;
      next == Filter(itemMap[..j + 1], KeepOtherCarts(cartId)) + itemMap[j + 1..]
  {
    if itemMap[j].1.cartId == cartId {
      ClearStepDrop(itemMap, j, cartId, r);
    } else {
      ClearStepKeep(itemMap, j, cartId, r);
    }
  }

  /** An entry of the cleared cart is deleted, and the filter drops it too. */
  lemma ClearStepDrop(itemMap: ItemIndex, j: nat, cartId: string, r: ItemIndex)
    requires j < |itemMap| && itemMap[j].1.cartId == cartId
    requires r == Filter(itemMap[..j], KeepOtherCarts(cartId)) + itemMap[j..]
    ensures Delete(r, itemMap[j].0) == Filter(itemMap[..j + 1], KeepOtherCarts(cartId)) + itemMap[j + 1..]
  {
    var keep := KeepOtherCarts(cartId);
    var kept := Filter(itemMap[..j], keep);
    assert itemMap[..j + 1] == itemMap[..j] + [itemMap[j]];
    FilterSnoc(itemMap[..j], itemMap[j], keep);
    assert itemMap[j..] == [itemMap[j]] + itemMap[j + 1..];
    assert Filter(itemMap[..j + 1], keep) == kept;
    assert r[|kept|] == itemMap[j];
    DeleteAt(r, |kept|);
    assert r[..|kept|] == kept && r[|kept| + 1..] == itemMap[j + 1..];
  }

  /** An entry of another cart stays, and the filter keeps it too. */
  lemma ClearStepKeep(itemMap: ItemIndex, j: nat, cartId: string, r: ItemIndex)
    requires j < |itemMap| && itemMap[j].1.cartId != cartId
    requires r == Filter(itemMap[..j], KeepOtherCarts(cartId)) + itemMap[j..]
    ensures r == Filter(itemMap[..j + 1], KeepOtherCarts(cartId)) + itemMap[j + 1..]
  {
    var keep := KeepOtherCarts(cartId);
    var kept := Filter(itemMap[..j], keep);
    assert itemMap[..j + 1] == itemMap[..j] + [itemMap[j]];
    FilterSnoc(itemMap[..j], itemMap[j], keep);
    assert itemMap[j..] == [itemMap[j]] + itemMap[j + 1..];
    assert Filter(itemMap[..j + 1], keep) == kept + [itemMap[j]];
  }

  /** The `switch` of the first loop: one event applied to the item map. */
  method ApplyToIndex(itemMap: ItemIndex, e: Event) returns (r: ItemIndex)
    ensures r == ViewStep(itemMap, e)
  {
    r := itemMap;
    match e {
      case ItemAdded(cartId, itemId, productId, _, _, _) =>
        r := Set(itemMap, itemId, ItemRef(cartId, productId));
      case ItemRemoved(itemId, _) =>
        r := Delete(itemMap, itemId);
      case ItemArchived(_, itemId) =>
        r := Delete(itemMap, itemId);
      case CartCleared(cartId) =>
        r := ClearCartEntries(itemMap, cartId);
      case _ =>
    }
  }

  /** The first loop: the item map built from the events. */
  method IndexLiveItems(events: seq<Event>) returns (itemMap: ItemIndex)
    ensures itemMap == ViewIndex(events)
  {
    itemMap := [];
    for i := 0 to |events|
      invariant itemMap == ViewIndex(events[..i])
    {
      assert events[..i + 1] == events[..i] + [events[i]];
      ViewIndexSnoc(events[..i], events[i]);
      itemMap := ApplyToIndex(itemMap, events[i]);
    }
    assert events[..|events|] == events;
  }

  /** The second loop: each pair once, in order, remembered in `seen` as it is pushed. */
  method DistinctPairs(values: seq<ItemRef>) returns (result: seq<ItemRef>)
    ensures result == Distinct(values)
  {
    var seen: set<ItemRef> := {};
    result := [];
    for j := 0 to |values|
      invariant result == Distinct(values[..j])
      invariant forall x :: x in seen <==> x in values[..j]
    {
      var pair := values[j];
      assert values[..j + 1] == values[..j] + [pair];
      DistinctSnoc(values[..j], pair);
      if pair !in seen {
        seen := seen + {pair};
        result := result + [pair];
      }
    }
    assert values[..|values|] == values;
  }

  method ProjectCartsWithProducts(events: seq<Event>) returns (result: seq<ItemRef>)
    ensures result == CartsWithProducts(events)
  {
    var itemMap := IndexLiveItems(events);
    result := DistinctPairs(Values(itemMap));
  }

  /** No (cartId, productId) pair is listed twice. */
  lemma NoDuplicatePairs(events: seq<Event>)
    ensures var r := CartsWithProducts(events);
      forall i, j | 0 <= i < j < |r| :: r[i] != r[j]
  {
  }

  /** A pair is listed exactly when some item still live after the scan refers to it. */
  lemma PairsAreLiveItems(events: seq<Event>, x: ItemRef)
    ensures forall itemId | Get(ViewIndex(events), itemId) == Some(x) :: x in CartsWithProducts(events)
    ensures x in CartsWithProducts(events) ==> exists itemId :: Get(ViewIndex(events), itemId) == Some(x)
  {
    var m := ViewIndex(events);
    assert x in CartsWithProducts(events) <==> x in Values(m);
    forall itemId | Get(m, itemId) == Some(x) ensures x in Values(m) {
      var i := IndexOf(m, itemId).value;
      assert Values(m)[i] == x;
    }
    if x in Values(m) {
      var i :| 0 <= i < |m| && Values(m)[i] == x;
      GetEntry(m, i);
    }
  }

  /** CartCleared removes every item of that cart and keeps every item of the other carts. */
  lemma CartClearedRemovesThatCart(index: ItemIndex, c: string)
    ensures forall e :: e in ViewStep(index, CartCleared(c)) <==> e in index && e.1.cartId != c
  {
    forall e ensures e in ViewStep(index, CartCleared(c)) <==> e in index && e.1.cartId != c {
      FilterMembers(index, KeepOtherCarts(c), e);
    }
  }

  // The pair key of the source, and the collision it admits.

  /** The deduplication key as the source builds it, `${cartId}:${productId}`. */
  function PairKey(r: ItemRef): string {
    r.cartId + ":" + r.productId
  }

  /** Deduplication as written: an entry is skipped when its string key was seen. */
  function DistinctByKeyAsWritten(xs: seq<ItemRef>): seq<ItemRef>
    decreases |xs|
  {
    if xs == [] then []
    else
      var n := |xs| - 1;
      var front := DistinctByKeyAsWritten(xs[..n]);
      if exists k | 0 <= k < n :: PairKey(xs[k]) == PairKey(xs[n]) then front else front + [xs[n]]
  }

  /**
   * Two different live pairs whose ids contain ':' share a key, so the second is lost as
   * written, whereas deduplicating on the pair itself keeps both.
   */
  lemma PairKeyCollision()
    ensures var xs := [ItemRef("a:b", "c"), ItemRef("a", "b:c")];
      && xs[0] != xs[1]
      && DistinctByKeyAsWritten(xs) == [xs[0]]
      && Distinct(xs) == xs
  {
    var xs := [ItemRef("a:b", "c"), ItemRef("a", "b:c")];
    assert PairKey(xs[0]) == "a:b:c" == PairKey(xs[1]);
    assert xs[0] != xs[1] by { assert |xs[0].cartId| != |xs[1].cartId|; }
    assert xs[..1] == [xs[0]] && xs[..1][..0] == [];
    assert xs[1] !in xs[..1];
  }

  /** No two different pairs of `xs` share a key. */
  predicate KeysInjective(xs: seq<ItemRef>) {
    forall i, j | 0 <= i < |xs| && 0 <= j < |xs| && PairKey(xs[i]) == PairKey(xs[j]) :: xs[i] == xs[j]
  }

  /** Where no two different pairs share a key, deduplicating by key is deduplicating by pair. */
  lemma {:induction false} AsWrittenAgreesWhenKeysInjective(xs: seq<ItemRef>)
    requires KeysInjective(xs)
    ensures DistinctByKeyAsWritten(xs) == Distinct(xs)
    decreases |xs|
  {
    if xs != [] {
      var n := |xs| - 1;
      var front := xs[..n];
      assert forall k | 0 <= k < n :: front[k] == xs[k];
      assert KeysInjective(front);
      AsWrittenAgreesWhenKeysInjective(front);
      if exists k | 0 <= k < n :: PairKey(xs[k]) == PairKey(xs[n]) {
        var k :| 0 <= k < n && PairKey(xs[k]) == PairKey(xs[n]);
        assert front[k] == xs[n];
      }
    }
  }

  // The given/when/then scenarios.

  lemma ViewIndexSnoc(events: seq<Event>, e: Event)
    ensures ViewIndex(events + [e]) == ViewStep(ViewIndex(events), e)
  {
    assert (events + [e])[..|events|] == events;
  }

  /** The event the scenarios add: item `i` of product `p` in cart `c`, priced 10. */
  function AddedItem(c: string, i: string, p: string): Event {
    ItemAdded(c, i, p, Some("Description"), Some("Image"), 10)
  }

  lemma CreatedIndex(c: string)
    ensures ViewIndex([CartCreated(c)]) == []
  {
    ViewIndexSnoc([], CartCreated(c));
    assert [] + [CartCreated(c)] == [CartCreated(c)];
  }

  lemma AddedIndex(c: string, i: string, p: string)
    ensures ViewIndex([CartCreated(c), AddedItem(c, i, p)]) == [(i, ItemRef(c, p))]
  {
    CreatedIndex(c);
    ViewIndexSnoc([CartCreated(c)], AddedItem(c, i, p));
    assert [CartCreated(c)] + [AddedItem(c, i, p)] == [CartCreated(c), AddedItem(c, i, p)];
    var m0: ItemIndex := [];
    assert Keys(m0) == [];
  }

  lemma CartShouldContainProductIdOfAddedItem(c: string, i: string, p: string)
    ensures CartsWithProducts([CartCreated(c), AddedItem(c, i, p)]) == [ItemRef(c, p)]
  {
    AddedPairs(c, i, p);
    DistinctSingle(ItemRef(c, p));
  }

  lemma AddedPairs(c: string, i: string, p: string)
    ensures Values(ViewIndex([CartCreated(c), AddedItem(c, i, p)])) == [ItemRef(c, p)]
  {
    AddedIndex(c, i, p);
    assert Values([(i, ItemRef(c, p))]) == [ItemRef(c, p)];
  }

  lemma DistinctSingle<T(!new)>(x: T)
    ensures Distinct([x]) == [x]
  {
    DistinctSnoc([], x);
    assert [] + [x] == [x];
  }

  lemma RetiredItemsShouldBeRemovedFromList(c: string, i: string, p: string, retire: Event)
    requires retire == ItemArchived(c, i) || retire == ItemRemoved(i, c)
    ensures CartsWithProducts([CartCreated(c), AddedItem(c, i, p), retire]) == []
  {
    var two := [CartCreated(c), AddedItem(c, i, p)];
    AddedIndex(c, i, p);
    ViewIndexSnoc(two, retire);
    assert two + [retire] == [CartCreated(c), AddedItem(c, i, p), retire];
    var one: ItemIndex := [(i, ItemRef(c, p))];
    assert Keys(one) == [i];
    assert |ViewStep(one, retire)| == 0;
  }

  lemma CartClearedShouldRemoveItemsFromList(c: string, i1: string, p1: string, i2: string, p2: string)
    ensures CartsWithProducts([CartCreated(c), AddedItem(c, i1, p1), AddedItem(c, i2, p2), CartCleared(c)]) == []
  {
    var a1 := AddedItem(c, i1, p1);
    var a2 := AddedItem(c, i2, p2);
    var evs := [CartCreated(c), a1, a2];
    assert evs + [CartCleared(c)] == [CartCreated(c), a1, a2, CartCleared(c)];
    ClearingTheOnlyCart(evs, c);
  }

  /** When every item added belongs to cart `c`, clearing `c` leaves nothing in the view. */
  lemma ClearingTheOnlyCart(evs: seq<Event>, c: string)
    requires forall k | 0 <= k < |evs| :: evs[k].ItemAdded? ==> evs[k].cartId == c
    ensures ViewIndex(evs + [CartCleared(c)]) == []
  {
    ViewIndexSnoc(evs, CartCleared(c));
    var idx := ViewIndex(evs);
    IndexOfOneCart(evs, c);
    assert forall k | 0 <= k < |idx| :: idx[k] in idx;
    FilterNone(idx, KeepOtherCarts(c));
  }

  /** Every entry of the index of these events belongs to cart `c`. */
  lemma {:induction false} IndexOfOneCart(evs: seq<Event>, c: string)
    requires forall k | 0 <= k < |evs| :: evs[k].ItemAdded? ==> evs[k].cartId == c
    ensures forall e | e in ViewIndex(evs) :: e.1.cartId == c
    decreases |evs|
  {
    if evs != [] {
      var n := |evs| - 1;
      IndexOfOneCart(evs[..n], c);
      var before := ViewIndex(evs[..n]);
      forall e | e in ViewIndex(evs) ensures e.1.cartId == c {
        var last := evs[n];
        match last
        case ItemAdded(_, itemId, productId, _, _, _) => SetMembers(before, itemId, ItemRef(last.cartId, productId), e);
        case ItemRemoved(itemId, _) => DeleteMembers(before, itemId, e);
        case ItemArchived(_, itemId) => DeleteMembers(before, itemId, e);
        case CartCleared(cartId) => FilterMembers(before, KeepOtherCarts(cartId), e);
        case _ =>
      }
    }
  }
}
