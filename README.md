# Order fulfilment core of the warehouse packing backend

This project models the order/line-item state machine of the packing backend
(`index.js`): packers claim orders, pick and unpick quantities of line items,
the backend marks an order packed (`'K'`) once none of its items has
`qty_packed < qty`, a status check warns while items are unpacked, submit
writes `'P'`, and pick/unpick append an event to the log.

The database is an in-memory store, the class `Backend.Store`:

- `users`, `products`, `orders`, `items`: the tables as maps keyed by id.
- `events`: the append-only events table, one `(user_id, ip_addr, action)` row per entry.

Each HTTP handler is one atomic method of the store. Its `ensures` give the
reply and the whole new state in terms of the old one: which row changes,
to what, and that nothing else changes. The decisions inside a handler are
pure functions with their own contracts:

- `Picking.PickCheck`: the quantity guards.
- `Picking.ItemReply`: the reply chosen by `update_item`.
- `Picking.HasUnpacked`: the "items with `qty_packed < qty`" query.
- `Picking.Picked`: the `qty_packed` update of a pick.
- `Actions.ActionText`: the action text written to the log.

Lemmas beside them state what the handlers promise:

- The invariant `0 <= qty_packed <= qty` (`Store.Valid`) is preserved by every handler.
- Picks and the recheck decide the order's status as described below.
- The action text keeps both ids recoverable, which matters because the order id is stored only there.

Files: `wrappers.dfy` (Option, Result), `rows.dfy` (row and reply types,
status codes), `actions.dfy` (event action text), `picking.dfy` (pick
decisions and recheck), `store.dfy` (the store, its handlers and two client
walkthroughs that exercise the contracts).

Behaviour reproduced as the code has it:

- Claim refuses whenever the order has a holder that joins to a user, even when the holder is the caller.
- A holder id that names no user counts as no holder, so claim overwrites it.
- Claim answers with the order and item rows read before the update, so the returned order still shows the old `packer_id`.
- Claim of a missing order succeeds and changes nothing.
- Claim's item rows come from an inner join with products, so an item whose product is missing is not returned.
- Submit writes `'P'` unconditionally, so a packed order (`'K'`) goes back to `'P'`.
- Unpick does not recheck the order's status.
- Pick's recheck and the `'K'` update use the `order_id` of the request, not the item's own order.
- The recheck reply "Order status changed to Packed" is given even when that order id matches no row, in which case the update changes nothing.
- Pick and unpick log the same action text, `Picked item #<id> for order #<order_id>`.

Where the code and the system's written design differ, the model follows the code:

- The design calls order status a forward-only Pending → Packed → Submitted lifecycle. The code has no Submitted code and writes `'P'` on submit.
- The design lists a NotFound outcome for claim. The code succeeds with no rows.

## Model

| member | source | states |
|---|---|---|
| `Backend.Store.Claim` | index.js:55-107 | With a holder joined to a user: fails naming that holder, even if it is the caller, and leaves orders unchanged. Otherwise: sets the order's packer to the caller, changes nothing else, and returns the order and joined item rows as they were before the update. A missing order yields no order row and no change. |
| `Backend.Store.Unassign` | index.js:368-386 | Sets the order's `packer_id` to none without checking the holder. Changes no other order or field. |
| `Backend.Store.Submit` | index.js:194-210 | Sets the order's status to `'P'` whatever its holder, status or items are. Changes no other order or field. |
| `Backend.Store.Pick` | index.js:308-334 | A missing item fails with ItemNotFound and changes nothing. A guard failure returns that guard's error and changes nothing. Otherwise: only the item's `qty_packed` changes, growing by `qty_picked`. Exactly one event `(packer, ip, ActionText(item, order))` is appended. The request's order becomes `'K'` with reply K/"Order status changed to Packed" iff none of its items is unpacked; otherwise orders are unchanged and the reply is the item reply. `Valid` is preserved. |
| `Backend.Store.Unpick` | index.js:336-365 | A missing item fails with "Item not found" and changes nothing. Otherwise: the item's `qty_packed` becomes 0 whatever it was. The pick action text is logged once. Orders are untouched. `Valid` is preserved. |
| `Backend.Store.CheckStatus` | index.js:179-190 | Answers `200B` iff some item of the order has `qty_packed < qty`, and `200A` iff all have `qty_packed >= qty`. Reads only. |
| `Backend.SetStatus` | index.js:198-203 | The status update touches only the named order; a missing id matches no row. |
| `Backend.SetPacker` | index.js:91-101 | The holder update touches only the named order; a missing id matches no row. |
| `Backend.Holder` | index.js:60-66 | The holder join: if the order's `packer_id` names an existing user, the result is that user's username. Any result names such a user. With no order or a null `packer_id`, there is no holder. |
| `Backend.ItemRowsOf` | index.js:68-82 | The item query of claim: only items of the order. Every item of the order whose product exists appears, with its product id, quantities and status and its product's name, sku and image. An item whose product is missing is left out. |
| `Picking.PickCheck` | index.js:316-322 | Rejects with "less than 1" iff `qty_picked < 1`. Rejects with "greater than ... unpicked" iff the pick would take `qty_packed` past `qty`. Accepts iff neither applies. |
| `Picking.ItemReply` | index.js:246-256 | Status `'P'`. "Item picked" iff units remain unpacked after the pick; "Item completed" iff none remain. |
| `Picking.HasUnpacked` | index.js:259-266 | The query for items of the order with `qty_packed < qty`. Under the bounds invariant it finds none iff every item of the order has `qty_packed == qty`, that is, iff the order is fully packed. |
| `Picking.Picked` | index.js:242-244 | The item update of a pick: the keys stay the same and only the picked item's `qty_packed` changes, growing by `qty_picked`. Its order, product, `qty` and `status` are kept, and every other item is unchanged. |
| `Picking.PickKeepsBounds` | index.js:242-244 | An accepted pick keeps every item within `0 <= qty_packed <= qty` and strictly increases the picked item's `qty_packed`. |
| `Picking.PartialPickKeepsOrderOpen` | index.js:246-279 | A pick answered "Item picked" on an item of the rechecked order never packs that order. |
| `Picking.CompletingPickPacksOrderIffRestPacked` | index.js:246-279 | A pick that completes an item of the rechecked order packs the order iff all its other items were already packed. |
| `Picking.PickElsewhereLeavesRecheck` | index.js:259-273 | Picking an item of another order leaves the recheck of the request's order as it was. |
| `Actions.Decimal` | index.js:328 | An id renders as a non-empty digit string that denotes the id. It has no leading zero, and 0 renders as "0". |
| `Actions.ActionText` | index.js:328-329 | The logged action text reads back, through `ParseAction`, to exactly the item id and order id it was built from. |
| `Actions.ActionTextInjective` | index.js:328-329 | Two action texts are equal only for the same item and order, so the log keeps the order id although the events table has no column for it. |

## Left out

- Login (password hashing, token signing) and the token-checking middleware: the caller's user id is a method parameter.
- `/get-order` and `/search-sku/:sku`: read-only queries with no state transition.
- The commented-out product and order-creation endpoints. The only thing taken from them is that orders start with status `'P'`.
- HTTP routing and CORS. Status codes and JSON bodies are result datatypes. The ack messages of unassign and submit are not returned.
- Store errors: the branches that answer `err.message` or a 500 are not modelled, so every query succeeds.
- Concurrency: each handler is one atomic step. For claim, this drops its parallel reads, its un-awaited update, and the race between reading the holder and writing it. For pick, it drops the gap between reading the item (index.js:217) and writing back the value read plus `qty_picked` (index.js:242-244, 262); two concurrent picks of one item can lose an update in the source. It also drops the un-awaited `'K'` update (index.js:273).
- The `console.log` in `log_event`. Inserting an event always succeeds.
- Backend.Store.Pick: on a missing item the source refers to an undefined `res` (index.js:218-224) and throws. The model answers ItemNotFound and changes nothing.
- Backend.Store.CheckStatus: the source destructures `id` from a string (index.js:166), and its order lookup has a malformed SQL string (index.js:168). The model decides over the given order id and does not model the order-existence lookup or its 404.
- Columns of orders and products other than holder, status, and the joined product fields (customer name, address, dates, prices) are not modelled.
- Numbers: ids are naturals, and quantities are unbounded integers with no database column width. Request fields are taken as already numbers. With a JSON string `qty_picked`, JavaScript's `+` would concatenate; that is not modelled.
- Products and users are never changed by this core. They are read-only maps of the store.
