/**
 * The pure decisions inside a pick: the quantity guards of the pick handler,
 * the reply chosen by update_item, and the "unpacked items" query that both
 * the order-status check and the post-pick recheck run.
 */
module Picking {
  import opened Wrappers
  import opened Rows

  /**
   * The guards of the pick handler, tested in the source's order: a quantity
   * below one is refused first, then one larger than what is left to pack.
   * None means the pick may be applied.
   */
  function PickCheck(qtyPicked: int, qty: int, qtyPacked: int): (e: Option<PickError>)
    ensures e == None <==> 1 <= qtyPicked && qtyPacked + qtyPicked <= qty
    ensures e == Some(QtyBelowOne) <==> qtyPicked < 1
    ensures e == Some(QtyAboveRemaining) <==> 1 <= qtyPicked && qty < qtyPacked + qtyPicked
  {
    if qtyPicked < 1 then Some(QtyBelowOne)
    else if qtyPicked > qty - qtyPacked then Some(QtyAboveRemaining)
    else None
  }

  /**
   * The reply update_item prepares before the order recheck: "Item picked"
   * while units of the item remain to be packed, "Item completed" once none do.
   */
  function ItemReply(qtyPicked: int, qty: int, qtyPacked: int): (r: Reply)
    ensures r.status == Pending
    ensures r == ItemPickedReply <==> qtyPacked + qtyPicked < qty
    ensures r == ItemCompletedReply <==> qty <= qtyPacked + qtyPicked
  {
    if qtyPicked < qty - qtyPacked then ItemPickedReply else ItemCompletedReply
  }

  /**
   * The recheck and status queries: some item of the order still has
   * `qty_packed < qty`. Under the bounds invariant, none has exactly when the
   * order is fully packed, every one of its items having `qty_packed == qty`.
   */
  predicate HasUnpacked(items: map<nat, Item>, orderId: nat)
    ensures WithinBounds(items) ==> (!HasUnpacked(items, orderId) <==> FullyPacked(items, orderId))
  {
    exists id :: id in items && items[id].orderId == orderId && items[id].qtyPacked < items[id].qty
  }

  /** Every item of the order has `qty_packed == qty`. */
  ghost predicate FullyPacked(items: map<nat, Item>, orderId: nat) {
    forall id :: id in items && items[id].orderId == orderId ==> items[id].qtyPacked == items[id].qty
  }

  /**
   * `UPDATE order_items SET qty_packed = qty_packed + qty_picked WHERE id = ?`:
   * only the picked item's `qty_packed` changes; its status column is not written.
   */
  function Picked(items: map<nat, Item>, id: nat, qtyPicked: int): (r: map<nat, Item>)
    requires id in items
    ensures r.Keys == items.Keys
    ensures r[id].qtyPacked == items[id].qtyPacked + qtyPicked
    ensures r[id].orderId == items[id].orderId && r[id].productId == items[id].productId
    ensures r[id].qty == items[id].qty && r[id].status == items[id].status
    ensures forall other :: other in r && other != id ==> r[other] == items[other]
  {
    items[id := items[id].(qtyPacked := items[id].qtyPacked + qtyPicked)]
  }

  /** A pick the guards let through keeps the picked item within `0 <= qty_packed <= qty` and grows it. */
  lemma PickKeepsBounds(items: map<nat, Item>, id: nat, qtyPicked: int)
    requires WithinBounds(items) && id in items
    requires PickCheck(qtyPicked, items[id].qty, items[id].qtyPacked) == None
    ensures WithinBounds(Picked(items, id, qtyPicked))
    ensures Picked(items, id, qtyPicked)[id].qtyPacked > items[id].qtyPacked
  {
  }

  /** A pick answered "Item picked" on an item of the rechecked order leaves that order unpacked. */
  lemma PartialPickKeepsOrderOpen(items: map<nat, Item>, id: nat, orderId: nat, qtyPicked: int)
    requires id in items && items[id].orderId == orderId
    requires ItemReply(qtyPicked, items[id].qty, items[id].qtyPacked) == ItemPickedReply
    ensures HasUnpacked(Picked(items, id, qtyPicked), orderId)
  {
    var after := Picked(items, id, qtyPicked);
    assert after[id].orderId == orderId && after[id].qtyPacked < after[id].qty;
  }

  /**
   * A pick that completes an item of the rechecked order packs the order
   * exactly when every other item of that order was already packed.
   */
  lemma CompletingPickPacksOrderIffRestPacked(items: map<nat, Item>, id: nat, orderId: nat, qtyPicked: int)
    requires id in items && items[id].orderId == orderId
    requires ItemReply(qtyPicked, items[id].qty, items[id].qtyPacked) == ItemCompletedReply
    ensures !HasUnpacked(Picked(items, id, qtyPicked), orderId) <==>
      forall other :: other in items && other != id && items[other].orderId == orderId ==>
        items[other].qtyPacked >= items[other].qty
  {
    var after := Picked(items, id, qtyPicked);
    if HasUnpacked(after, orderId) {
      var other :| other in after && after[other].orderId == orderId && after[other].qtyPacked < after[other].qty;
      assert other != id && items[other] == after[other];
    } else {
      forall other | other in items && other != id && items[other].orderId == orderId
        ensures items[other].qtyPacked >= items[other].qty
      {
        assert after[other] == items[other];
      }
    }
  }

  /**
   * The recheck looks at the order named in the request: picking an item that
   * belongs to another order leaves the named order's answer as it was.
   */
  lemma PickElsewhereLeavesRecheck(items: map<nat, Item>, id: nat, orderId: nat, qtyPicked: int)
    requires id in items && items[id].orderId != orderId
    ensures HasUnpacked(Picked(items, id, qtyPicked), orderId) == HasUnpacked(items, orderId)
  {
    var after := Picked(items, id, qtyPicked);
    if HasUnpacked(items, orderId) {
      var other :| other in items && items[other].orderId == orderId && items[other].qtyPacked < items[other].qty;
      assert after[other] == items[other];
    }
  }
}
