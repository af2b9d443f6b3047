/**
 * The closed set of shopping-cart events of the TypeScript port (`ShoppingEvent`), with
 * the payload fields each event type carries. Prices and quantities are whole numbers
 * (cents, units); optional fields are `Option`s.
 */
module TsEvents {
  import opened Wrappers

  datatype OrderedProduct = OrderedProduct(productId: string, totalPrice: int)

  datatype Event =
    | CartCreated(cartId: string)
    | ItemAdded(cartId: string, itemId: string, productId: string,
                description: Option<string>, image: Option<string>, price: int)
    | ItemRemoved(itemId: string, cartId: string)
    | ItemArchived(cartId: string, itemId: string)
    | ItemQuantityChanged(cartId: string, itemId: string, newQuantity: int)
    | CartSubmitted(cartId: string, orderedProducts: seq<OrderedProduct>)
    | CartCleared(cartId: string)
    | CartPublished(cartId: string)
    | CartPublicationFailed(cartId: string, reason: string)
    | InventoryChanged(productId: string, inventory: int)
    | PriceChanged(productId: string, oldPrice: int, newPrice: int)

  /** The `type` tag of an event as it is stored. */
  function TypeName(e: Event): string {
    match e
    case CartCreated(_) => "CartCreated"
    case ItemAdded(_, _, _, _, _, _) => "ItemAdded"
    case ItemRemoved(_, _) => "ItemRemoved"
    case ItemArchived(_, _) => "ItemArchived"
    case ItemQuantityChanged(_, _, _) => "ItemQuantityChanged"
    case CartSubmitted(_, _) => "CartSubmitted"
    case CartCleared(_) => "CartCleared"
    case CartPublished(_) => "CartPublished"
    case CartPublicationFailed(_, _) => "CartPublicationFailed"
    case InventoryChanged(_, _) => "InventoryChanged"
    case PriceChanged(_, _, _) => "PriceChanged"
  }

  /** Every event type string, in declaration order (`ALL_EVENT_TYPES`). */
  const AllEventTypes: seq<string> := [
    "CartCreated", "ItemAdded", "ItemRemoved", "ItemArchived", "ItemQuantityChanged",
    "CartSubmitted", "CartCleared", "CartPublished", "CartPublicationFailed",
    "InventoryChanged", "PriceChanged"
  ]
}
