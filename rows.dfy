/**
 * The rows of the backend's tables, as the order/item core reads and writes them.
 * Keys (the `id` columns) are the keys of the maps in which the rows are stored.
 */
module Rows {
  import opened Wrappers

  /** Order status codes: 'P' is written at order creation and by submit, 'K' means packed. */
  const Pending: char := 'P'
  const Packed: char := 'K'

  datatype User = User(username: string)

  /** Product data joined into the item rows that claim returns. */
  datatype Product = Product(name: string, sku: string, image: string)

  /** `orders` row: the packer holding the order (NULL when unassigned) and the status code. */
  datatype Order = Order(packerId: Option<nat>, status: char)

  /** `order_items` row; `status` is never written by the core. */
  datatype Item = Item(orderId: nat, productId: nat, qty: int, qtyPacked: int, status: string)

  /** `events` row: the order id is not a column, it only appears inside `action`. */
  datatype Event = Event(userId: nat, ipAddr: string, action: string)

  /** One row of the item query of claim: item columns joined with its product. */
  datatype ItemRow = ItemRow(productId: nat, qty: int, qtyPacked: int, status: string,
                             name: string, sku: string, image: string)

  /** What claim answers with: the order row and the item rows, both read before the update. */
  datatype Loaded = Loaded(order: Option<Order>, items: map<nat, ItemRow>)

  datatype ClaimError = AlreadyAssigned(holder: string)
  {
    function Message(): string {
      "Order is already assigned to " + holder
    }
  }

  datatype PickError = ItemNotFound | QtyBelowOne | QtyAboveRemaining
  {
    function Message(): string {
      match this
      case ItemNotFound => "Item not found"
      case QtyBelowOne => "Quantity cannot be less than 1"
      case QtyAboveRemaining => "Quantity cannot be greater than the total items or number of unpicked items"
    }
  }

  /** The body of a successful pick response. */
  datatype Reply = Reply(status: char, message: string)

  const ItemPickedReply: Reply := Reply(Pending, "Item picked")
  const ItemCompletedReply: Reply := Reply(Pending, "Item completed")
  const OrderPackedReply: Reply := Reply(Packed, "Order status changed to Packed")

  /** The body of a check-order-status response. */
  datatype StatusReply = StatusReply(code: string, message: string)

  const ReadyReply: StatusReply := StatusReply("200A", "All good to go!")
  const WarningReply: StatusReply := StatusReply("200B", "Warning. Not all items have been packed")

  /** Every stored item respects `0 <= qty_packed <= qty`. */
  ghost predicate WithinBounds(items: map<nat, Item>)
  {
    forall id :: id in items ==> 0 <= items[id].qtyPacked <= items[id].qty
  }
}
