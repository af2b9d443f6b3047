/**
 * The shopping-cart events of the C# projects (the decider model, the aggregate and its
 * projectors), as one closed set. Guids are natural numbers, prices whole cents. The root
 * project also treats `CartClearedCommand` as an event (its aggregate raises it and its
 * projectors match on it), so it is one of the constructors here.
 */
module CsEvents {
  import opened Wrappers

  type Guid = nat

  /** A (ProductId, Price) pair as carried by CartSubmitted. */
  datatype PricedProduct = PricedProduct(productId: Guid, price: int)

  datatype Event =
    | CartCreated(cartId: Guid)
    | ItemAdded(cartId: Guid, description: Option<string>, image: Option<string>,
                price: int, itemId: Guid, productId: Guid)
    | ItemRemoved(itemId: Guid, cartId: Guid)
    | ItemArchived(cartId: Guid, itemId: Guid)
    | CartSubmitted(cartId: Guid, orderedProducts: seq<PricedProduct>, totalPrice: int)
    | CartCleared(cartId: Guid)
    | CartClearedCommand(cartId: Guid)
    | CartPublished(cartId: Guid)
    | CartPublicationFailed(cartId: Guid)
    | InventoryChanged(inventory: int, productId: Guid)
    | PriceChanged(productId: Guid, oldPrice: int, newPrice: int)

  /** The type name an event is stored under. */
  function TypeName(e: Event): string {
    match e
    case CartCreated(_) => "CartCreated"
    case ItemAdded(_, _, _, _, _, _) => "ItemAdded"
    case ItemRemoved(_, _) => "ItemRemoved"
    case ItemArchived(_, _) => "ItemArchived"
    case CartSubmitted(_, _, _) => "CartSubmitted"
    case CartCleared(_) => "CartCleared"
    case CartClearedCommand(_) => "CartClearedCommand"
    case CartPublished(_) => "CartPublished"
    case CartPublicationFailed(_) => "CartPublicationFailed"
    case InventoryChanged(_, _) => "InventoryChanged"
    case PriceChanged(_, _, _) => "PriceChanged"
  }

  /**
   * The runtime exceptions the C# code can raise while folding or deciding: a dictionary
   * indexer on a missing key (KeyNotFoundException), `Dictionary.Add` on a present key
   * (ArgumentException), `.Value` on a null Guid? and `First` without a match (both
   * InvalidOperationException).
   */
  datatype Fault =
    | KeyNotFound(key: Guid)
    | DuplicateKey(key: Guid)
    | NullValue
    | NoMatchingElement(key: Guid)
}
