/**
 * The order backend's handlers as atomic operations on an in-memory store:
 * the users, products, orders and order_items tables as maps keyed by id,
 * and the events table as an append-only sequence.
 */
module Backend {
  import opened Wrappers
  import opened Rows
  import opened Actions
  import opened Picking

  /**
   * `UPDATE orders SET status = ? WHERE id = ?`: the named order gets the
   * status, a missing id matches no row, and no other order changes.
   */
  function SetStatus(orders: map<nat, Order>, orderId: nat, status: char): (r: map<nat, Order>)
    ensures r.Keys == orders.Keys
    ensures orderId in r ==> r[orderId] == Order(orders[orderId].packerId, status)
    ensures forall id :: id in r && id != orderId ==> r[id] == orders[id]
  {
    if orderId in orders then orders[orderId := orders[orderId].(status := status)] else orders
  }

  /**
   * `UPDATE orders SET packer_id = ? WHERE id = ?`: the named order gets the
   * holder, a missing id matches no row, and no other order changes.
   */
  function SetPacker(orders: map<nat, Order>, orderId: nat, packerId: Option<nat>): (r: map<nat, Order>)
    ensures r.Keys == orders.Keys
    ensures orderId in r ==> r[orderId] == Order(packerId, orders[orderId].status)
    ensures forall id :: id in r && id != orderId ==> r[id] == orders[id]
  {
    if orderId in orders then orders[orderId := orders[orderId].(packerId := packerId)] else orders
  }

  /**
   * The holder claim's join of orders with users finds: the username of the
   * order's packer, when `packer_id` is set and names an existing user.
   */
  function Holder(users: map<nat, User>, orders: map<nat, Order>, orderId: nat): (h: Option<string>)
    ensures forall p :: orderId in orders && orders[orderId].packerId == Some(p) && p in users ==>
      h == Some(users[p].username)
    ensures h.Some? ==>
      exists p :: p in users && users[p].username == h.value && orderId in orders && orders[orderId].packerId == Some(p)
    ensures orderId !in orders || orders[orderId].packerId == None ==> h == None
  {
    if orderId in orders && orders[orderId].packerId.Some? && orders[orderId].packerId.value in users
    then Some(users[orders[orderId].packerId.value].username)
    else None
  }

  /** The rows of claim's item query: the order's items joined with their products. */
  function ItemRowsOf(items: map<nat, Item>, products: map<nat, Product>, orderId: nat): (rows: map<nat, ItemRow>)
    ensures forall id :: id in rows ==> id in items && items[id].orderId == orderId
    ensures forall id :: id in items && items[id].orderId == orderId && items[id].productId in products ==>
      && id in rows
      && rows[id].productId == items[id].productId && rows[id].status == items[id].status
      && rows[id].qty == items[id].qty && rows[id].qtyPacked == items[id].qtyPacked
      && rows[id].name == products[items[id].productId].name
      && rows[id].sku == products[items[id].productId].sku
      && rows[id].image == products[items[id].productId].image
    ensures forall id :: id in items && items[id].productId !in products ==> id !in rows
  {
    map id | id in items && items[id].orderId == orderId && items[id].productId in products ::
      var it, p := items[id], products[items[id].productId];
      ItemRow(it.productId, it.qty, it.qtyPacked, it.status, p.name, p.sku, p.image)
  }

  class Store {
    var users: map<nat, User>
    var products: map<nat, Product>
    var orders: map<nat, Order>
    var items: map<nat, Item>
    var events: seq<Event>

    /** The store's invariant: every item has `0 <= qty_packed <= qty`. */
    ghost predicate Valid()
      reads this
    {
      WithinBounds(items)
    }

    constructor(users: map<nat, User>, products: map<nat, Product>,
                orders: map<nat, Order>, items: map<nat, Item>)
      ensures this.users == users && this.products == products
      ensures this.orders == orders && this.items == items && events == []
    {
      this.users, this.products := users, products;
      this.orders, this.items := orders, items;
      events := [];
    }

    /**
     * `POST /load-order/:id`: refuses, naming the holder, whenever the order
     * already has one, the caller included; otherwise makes the caller the
     * holder and answers with the order and item rows read before the update.
     */
    method Claim(orderId: nat, caller: nat) returns (r: Result<Loaded, ClaimError>)
      modifies this`orders
      ensures Holder(users, old(orders), orderId).Some? ==>
        r == Failure(AlreadyAssigned(Holder(users, old(orders), orderId).value)) && orders == old(orders)
      ensures Holder(users, old(orders), orderId).None? ==>
        && r.Success?
        && r.value.order == (if orderId in old(orders) then Some(old(orders)[orderId]) else None)
        && r.value.items == ItemRowsOf(items, products, orderId)
        && orders == SetPacker(old(orders), orderId, Some(caller))
      ensures orderId in old(orders) && old(orders)[orderId].packerId == Some(caller) && caller in users ==>
        r == Failure(AlreadyAssigned(users[caller].username))
      ensures orderId !in old(orders) ==>
        r == Success(Loaded(None, ItemRowsOf(items, products, orderId))) && orders == old(orders)
    {
      var holder := Holder(users, orders, orderId);
      var order := if orderId in orders then Some(orders[orderId]) else None;
      var rows := ItemRowsOf(items, products, orderId);
      if holder.Some? {
        return Failure(AlreadyAssigned(holder.value));
      }
      orders := SetPacker(orders, orderId, Some(caller));
      r := Success(Loaded(order, rows));
    }

    /** `POST /unassign-order`: clears the holder whoever it is; nothing else changes. */
    method Unassign(orderId: nat)
      modifies this`orders
      ensures orders == SetPacker(old(orders), orderId, None)
    {
      orders := SetPacker(orders, orderId, None);
    }

    /**
     * `POST /pick-item`: looks the item up, applies the quantity guards, adds
     * the picked quantity, rechecks the order named in the request and marks
     * it packed when none of its items is left unpacked, then logs the action.
     */
    method Pick(itemId: nat, orderId: nat, qtyPicked: int, ipAddr: string, packerId: nat)
      returns (r: Result<Reply, PickError>)
      modifies this`items, this`orders, this`events
      ensures r.Failure? ==> items == old(items) && orders == old(orders) && events == old(events)
      ensures itemId !in old(items) ==> r == Failure(ItemNotFound)
      ensures itemId in old(items) && PickCheck(qtyPicked, old(items)[itemId].qty, old(items)[itemId].qtyPacked).Some? ==>
        r == Failure(PickCheck(qtyPicked, old(items)[itemId].qty, old(items)[itemId].qtyPacked).value)
      ensures itemId in old(items) && PickCheck(qtyPicked, old(items)[itemId].qty, old(items)[itemId].qtyPacked).None? ==>
        r.Success?
      ensures r.Success? ==>
        && itemId in old(items)
        && items == Picked(old(items), itemId, qtyPicked)
        && events == old(events) + [Event(packerId, ipAddr, ActionText(itemId, orderId))]
      ensures r.Success? && HasUnpacked(items, orderId) ==>
        r.value == ItemReply(qtyPicked, old(items)[itemId].qty, old(items)[itemId].qtyPacked) && orders == old(orders)
      ensures r.Success? && !HasUnpacked(items, orderId) ==>
        r.value == OrderPackedReply && orders == SetStatus(old(orders), orderId, Packed)
      ensures r.Success? ==> itemId in old(items) && items[itemId].qtyPacked == old(items)[itemId].qtyPacked + qtyPicked
      ensures old(Valid()) ==> Valid()
    {
      if itemId !in items {
        return Failure(ItemNotFound);
      }
      var qty, qtyPacked := items[itemId].qty, items[itemId].qtyPacked;
      var rejected := PickCheck(qtyPicked, qty, qtyPacked);
      if rejected.Some? {
        return Failure(rejected.value);
      }
      ghost var before := items;
      var reply := ItemReply(qtyPicked, qty, qtyPacked);
      items := Picked(items, itemId, qtyPicked);
      if !HasUnpacked(items, orderId) {
        orders := SetStatus(orders, orderId, Packed);
        reply := OrderPackedReply;
      }
      events := events + [Event(packerId, ipAddr, ActionText(itemId, orderId))];
      r := Success(reply);
      if WithinBounds(before) {
        PickKeepsBounds(before, itemId, qtyPicked);
      }
    }

    /**
     * `POST /unpick-item`: resets the item's packed quantity to zero whatever
     * it was, leaves the order's status alone, and logs the same action text
     * as a pick.
     */
    method Unpick(itemId: nat, orderId: nat, ipAddr: string, packerId: nat)
      returns (r: Result<string, PickError>)
      modifies this`items, this`events
      ensures itemId !in old(items) ==>
        r == Failure(ItemNotFound) && items == old(items) && events == old(events)
      ensures itemId in old(items) ==>
        && r == Success("Item un-picked")
        && items == old(items)[itemId := old(items)[itemId].(qtyPacked := 0)]
        && events == old(events) + [Event(packerId, ipAddr, ActionText(itemId, orderId))]
      ensures old(Valid()) ==> Valid()
    {
      if itemId !in items {
        return Failure(ItemNotFound);
      }
      items := items[itemId := items[itemId].(qtyPacked := 0)];
      events := events + [Event(packerId, ipAddr, ActionText(itemId, orderId))];
      r := Success("Item un-picked");
    }

    /**
     * `GET /check-order-status/:id`: warns with "200B" when some item of the
     * order is not fully packed and answers "200A" otherwise; changes nothing.
     */
    method CheckStatus(orderId: nat) returns (r: StatusReply)
      ensures r == WarningReply || r == ReadyReply
      ensures r == WarningReply <==>
        exists id :: id in items && items[id].orderId == orderId && items[id].qtyPacked < items[id].qty
      ensures r == ReadyReply <==>
        forall id :: id in items && items[id].orderId == orderId ==> items[id].qty <= items[id].qtyPacked
    {
      if HasUnpacked(items, orderId) {
        r := WarningReply;
      } else {
        r := ReadyReply;
      }
    }

    /** `POST /submit-order`: writes status 'P', whatever the holder, status or items. */
    method Submit(orderId: nat)
      modifies this`orders
      ensures orders == SetStatus(old(orders), orderId, Pending)
    {
      orders := SetStatus(orders, orderId, Pending);
    }
  }

  /**
   * Two items of one order: packing the first in one pick leaves the order
   * pending; packing the second marks it packed and the status check is ready.
   */
  method PackingWalkthrough()
  {
    var s := new Store(map[7 := User("amy")], map[1 := Product("widget", "W-1", "w.png")],
                       map[10 := Order(None, Pending)], NothingPacked());
    var first := s.Pick(100, 10, 5, "10.0.0.1", 7);
    FirstPickState();
    assert first == Success(ItemCompletedReply) && s.orders == map[10 := Order(None, Pending)];
    PackLastItem(s);
  }

  /** The second half of PackingWalkthrough: the pick that completes the order. */
  method PackLastItem(s: Store)
    requires s.items == Picked(NothingPacked(), 100, 5)
    requires s.orders == map[10 := Order(None, Pending)]
    modifies s
  {
    SecondPickState();
    assert PickCheck(3, 3, 0) == None;
    var second := s.Pick(101, 10, 3, "10.0.0.1", 7);
    assert s.items == Picked(Picked(NothingPacked(), 100, 5), 101, 3);
    assert second == Success(OrderPackedReply) && s.orders[10].status == Packed;
    assert s.events[|s.events| - 1] == Event(7, "10.0.0.1", ActionText(101, 10));

    var status := s.CheckStatus(10);
    assert status == ReadyReply;
  }

  /** Order 10 with item 100 (5 units) and item 101 (3 units), nothing packed yet. */
  function NothingPacked(): map<nat, Item> {
    map[100 := Item(10, 1, 5, 0, ""), 101 := Item(10, 1, 3, 0, "")]
  }

  /** Picking all 5 units of item 100 completes it and leaves item 101 unpacked. */
  lemma FirstPickState()
    ensures PickCheck(5, 5, 0) == None && ItemReply(5, 5, 0) == ItemCompletedReply
    ensures HasUnpacked(Picked(NothingPacked(), 100, 5), 10)
  {
    assert Picked(NothingPacked(), 100, 5)[101] == Item(10, 1, 3, 0, "");
  }

  /** Then picking all 3 units of item 101 leaves order 10 with nothing unpacked. */
  lemma SecondPickState()
    ensures 101 in Picked(NothingPacked(), 100, 5)
    ensures Picked(NothingPacked(), 100, 5)[101] == Item(10, 1, 3, 0, "")
    ensures !HasUnpacked(Picked(Picked(NothingPacked(), 100, 5), 101, 3), 10)
  {
    var done := Picked(Picked(NothingPacked(), 100, 5), 101, 3);
    assert done.Keys == {100, 101};
    assert done[100].qtyPacked == done[100].qty && done[101].qtyPacked == done[101].qty;
  }

  /**
   * A packer claims an order, cannot claim it again while holding it, and
   * can claim it once it has been unassigned; submitting a packed order
   * writes 'P' back over 'K'.
   */
  method ClaimWalkthrough()
  {
    var s := new Store(map[7 := User("amy")], map[], map[10 := Order(None, Packed)], map[]);
    var claimed := s.Claim(10, 7);
    assert claimed == Success(Loaded(Some(Order(None, Packed)), map[]));
    assert s.orders[10].packerId == Some(7);

    var again := s.Claim(10, 7);
    assert again == Failure(AlreadyAssigned("amy"));

    s.Unassign(10);
    var third := s.Claim(10, 7);
    assert third.Success?;

    s.Submit(10);
    assert s.orders[10] == Order(Some(7), Pending);
  }
}
