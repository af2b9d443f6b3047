/**
 * The item index that both the carts-with-products view and the price-change processor of the
 * TypeScript port keep while scanning all events: itemId to the cart and product of that item.
 */
module TsItemIndex {
  import opened Wrappers
  import opened OrderedMap
  import opened TsEvents

  datatype ItemRef = ItemRef(cartId: string, productId: string)

  type ItemIndex = OMap<string, ItemRef>

  /** ItemAdded records the item, ItemRemoved and ItemArchived forget it by itemId; nothing else matters. */
  function IndexStep(index: ItemIndex, e: Event): ItemIndex {
    match e
    case ItemAdded(cartId, itemId, productId, _, _, _) => Set(index, itemId, ItemRef(cartId, productId))
    case ItemRemoved(itemId, _) => Delete(index, itemId)
    case ItemArchived(_, itemId) => Delete(index, itemId)
    case _ => index
  }

  /** An item is retired by its itemId alone: the cart named in the event plays no part. */
  lemma RetireByItemIdOnly(index: ItemIndex, itemId: string, c1: string, c2: string)
    ensures IndexStep(index, ItemRemoved(itemId, c1)) == IndexStep(index, ItemArchived(c2, itemId)) == Delete(index, itemId)
    ensures !Has(IndexStep(index, ItemRemoved(itemId, c1)), itemId)
    ensures forall i | i != itemId :: Get(IndexStep(index, ItemRemoved(itemId, c1)), i) == Get(index, i)
  {
  }

  lemma IndexAdded(index: ItemIndex, e: Event)
    requires e.ItemAdded?
    ensures Get(IndexStep(index, e), e.itemId) == Some(ItemRef(e.cartId, e.productId))
    ensures forall i | i != e.itemId :: Get(IndexStep(index, e), i) == Get(index, i)
  {
  }
}
