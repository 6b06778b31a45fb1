# Inventory / order / payment / subscription services

A Dafny model of the four in-memory service classes of a small inventory
management system:

- **Inventory ledger** (`Inventory`): stock counters per product variant.
  `adjust_stock` refuses an unknown variant and any change that would make
  the stock negative; `add_item` refuses a duplicate id; `reset_inventory`
  zeroes every counter. A fresh service holds variant 101 at stock 0.
- **Order manager** (`Orders`): `create_order` validates every line against
  the current stock, then deducts each line through `adjust_stock`, then
  stores an order under the next id (1, 2, 3, ...) with status `CREATED` and
  total equal to the sum of `qty * price`. `cancel_order` accepts only a
  `CREATED` order, puts each line's quantity back and sets `CANCELLED`.
- **Payment recorder** (`Payments`): numbered payments, created `COMPLETED`,
  refused for a non-positive amount, refundable once.
- **Subscription tracker** (`Subscriptions`): `renew` grants a 30-day or
  365-day window starting at the later of the previous end and now (or now,
  for a first record) and overwrites the record; `check_status` recomputes
  and stores `ACTIVE`/`EXPIRED`, expired only strictly after the end.

Each service is a class whose record map is a `map` field; each record the
source updates in place (an inventory item's stock, an order's, payment's
or subscription's status) is an object of a class whose unchanging fields
are `const`. Every refusal in the source is a raised `ValueError`. An
operation that returns a value on success models it as the outcome `Err` of
`Outcomes.Result`. `cancel_order` and `refund_payment` return nothing on
success, so their models (`CancelOrder`, `RefundPayment`) return a boolean
`ok` instead, and `ok == false` stands for the raised error. Money is in integer cents; time
is an integer count of seconds, and the current time is a parameter.

The ledger's abstract value is `InventoryService.Stocks()`, a map from
variant id to stock. The methods' postconditions tie the new state to
functions on that value (`Adjusted`, `Added`, `Reset` in `Inventory`;
`Applied`, `Placed` in `Orders`), and the lemmas prove what the source
promises about those functions. A pass of `adjust_stock` calls that stops at
the first refusal (`Applied`) is how the order manager deducts and restores
stock, so it is defined in `Orders`.

The two-pass validate-then-deduct design is meant to make order creation
all-or-nothing, and order lines are meant to carry positive quantities. The
code does not fully deliver either, and the model follows the code:

- Validation checks each line on its own against the current stock, not
  the sum over lines naming the same variant. All-or-nothing therefore holds
  for lines on distinct variants (`PlacedDistinct`), while two lines on one
  variant can pass validation and then fail half-way through deduction,
  leaving the first deduction applied and storing no order
  (`DuplicateLinesPartiallyDeduct`).
- A line's quantity is never checked to be positive, so a negative quantity
  passes validation and adds stock (`NegativeQuantityAddsStock`).
- A cancellation of a just-created order that goes through always restores
  the ledger exactly (`CancelCompletedRestores`). On a ledger with no
  negative stock it is sure to go through when the lines name distinct
  variants or carry non-negative quantities (`CancelRestoresPlaced`). With a
  negative line on a repeated variant the
  restoration pass can be refused at once, leaving the order `CREATED`
  (`NegativeLineBlocksCancel`).

Likewise stock is meant never to be negative, but `add_item` accepts a
negative initial stock; the non-negativity results
(`ReplayedKeepsNonNegative`, `AppliedKeepsNonNegative`,
`AppliedAddingCompletes`, `CancelRestoresPlaced`, and the clause of
`CreateThenCancel` saying that the cancellation goes through) therefore
assume non-negative initial stocks.

## Model

| member | source | states |
|---|---|---|
| `Inventory.Adjusted` | ims/app/services/inventory_service.py:65-80 | adjust_stock fails exactly for an unknown variant or when stock + quantity < 0; otherwise that variant's stock becomes old + quantity, the key set is kept and every other variant is untouched |
| `Inventory.Added` | ims/app/services/inventory_service.py:56-61 | add_item fails exactly when the id exists; otherwise it adds exactly that one key, with the given initial stock (unchecked), and keeps every other entry |
| `Inventory.Reset` | ims/app/services/inventory_service.py:98-101 | reset_inventory keeps the key set and sets every stock to 0 |
| `Inventory.AdjustedUndone` | ims/app/services/inventory_service.py:74-80 | on a non-negative ledger, an accepted adjustment followed by the opposite adjustment is accepted and restores the ledger |
| `Inventory.ReplayedKeepsNonNegative` | ims/app/services/inventory_service.py:56-80 | from non-negative stocks, any sequence of add_item / adjust_stock / reset_inventory calls (refused ones changing nothing) keeps every stock non-negative, provided each add_item brings a non-negative initial stock |
| `Orders.AppliedKeepsNonNegative` | ims/app/services/order_service.py:100-102 | a pass of adjust_stock calls that stops at the first refusal keeps the key set and never makes a non-negative ledger negative |
| `Orders.AppliedDistinct` | ims/app/services/order_service.py:100-102 | a pass of adjustments on distinct variants, each admissible against the starting ledger, completes and moves every stock by exactly its net change |
| `Orders.AppliedCompletedNet` | ims/app/services/order_service.py:100-102 | a pass of adjust_stock calls that completes keeps the key set and moves every stock by exactly the sum of the deltas naming it, whether or not variants repeat |
| `Orders.AppliedAddingCompletes` | ims/app/services/order_service.py:130-132 | on a non-negative ledger a pass of adjust_stock calls on stocked variants with non-negative deltas, as cancel_order makes for non-negative quantities, is never refused |
| `Orders.AppliedStopsAtRefusal` | ims/app/services/order_service.py:101-102 | once an adjust_stock call of a pass is refused the error propagates: the later calls are never made and the earlier ones stay applied |
| `Inventory.InventoryItem.constructor` | ims/app/services/inventory_service.py:19-23 | a new item holds the given variant id, name and stock |
| `Inventory.InventoryItem.Adjust` | ims/app/services/inventory_service.py:28-31 | the item's stock grows by the quantity, unchecked |
| `Inventory.InventoryService.constructor` | ims/app/services/inventory_service.py:45-52 | a fresh service holds exactly variant 101, named "Classic White T-Shirt", at stock 0 |
| `Inventory.InventoryService.AddItem` | ims/app/services/inventory_service.py:56-63 | refused with the items unchanged when the id exists; otherwise stores one fresh item under the id with the given name and initial stock, and the ledger becomes `Added(old ledger)` |
| `Inventory.InventoryService.AdjustStock` | ims/app/services/inventory_service.py:65-80 | succeeds exactly when `Adjusted` does, the ledger becomes its result (unchanged on refusal), and the returned value is the new stock of that variant |
| `Inventory.InventoryService.GetStock` | ims/app/services/inventory_service.py:82-86 | fails exactly for an unknown variant, and otherwise returns its stored stock |
| `Inventory.InventoryService.ResetInventory` | ims/app/services/inventory_service.py:98-101 | the loop over all items leaves the ledger equal to `Reset(old ledger)`: same variants, every stock 0 |
| `Orders.Subtotal` | ims/app/services/order_service.py:26-29 | a line's subtotal is qty * price in integer cents, where rounding to 2 places is the identity: non-negative for non-negative qty and price, zero when either is zero, and negative for a negative qty at a positive price |
| `Orders.Total` | ims/app/services/order_service.py:51-53 | the order total is the sum of the line subtotals (rounding is the identity on cents): 0 for no lines, and non-negative when every quantity and price is |
| `Orders.TotalAppend` | ims/app/services/order_service.py:51-53 | the order total is additive over concatenated line lists, so it is the per-line sum of qty * price however the lines are grouped |
| `Orders.PlacedDistinct` | ims/app/services/order_service.py:91-102 | for lines on distinct variants create_order goes through exactly when validation passes, and then each line's variant loses exactly the line's qty while every other stock and the key set are unchanged |
| `Orders.DuplicateLinesPartiallyDeduct` | ims/app/services/order_service.py:92-102 | for any two lines of qty a and b on one variant with stock s, where a <= s and b <= s but a + b > s, validation passes, the second deduction is refused after the first is applied, the stock ends at s - a and no order is stored |
| `Orders.NegativeQuantityAddsStock` | ims/app/services/order_service.py:92-102 | on a stocked variant with non-negative stock, a single line of any negative qty q passes validation, completes, raises the stock by -q, and gives total q * price |
| `Orders.CancelRestoresPlaced` | ims/app/services/order_service.py:125-133 | on a non-negative ledger, cancelling a just-created order whose lines name distinct variants or carry non-negative quantities completes and restores exactly the stock levels from before creation |
| `Orders.CancelCompletedRestores` | ims/app/services/order_service.py:100-132 | for any ledger and any lines, when the deduction pass of create_order and then the restoration pass of cancel_order both go through, the ledger is exactly as before creation |
| `Orders.NegativeLineBlocksCancel` | ims/app/services/order_service.py:125-133 | with stock 5 and lines of qty -5, 5, 5 on one variant the order is created leaving stock 0, and cancelling it is refused at the first restoration with nothing restored |
| `Orders.CreateThenCancel` | ims/app/services/order_service.py:78-133 | through the service methods, for any ledger and lines: an order is created exactly when `Placed` completes (for distinct variants, exactly when validation passes), and a failed creation leaves the ledger as `Placed` says; a cancellation that goes through leaves the ledger as it was, one that is refused leaves it as the partial restoration pass says; on a ledger with no negative stock and lines on distinct variants or with non-negative quantities the cancellation goes through; a second cancel is refused |
| `Orders.Order.constructor` | ims/app/services/order_service.py:43-53 | a new order keeps its id, tenant and lines, has status CREATED and total equal to the sum of its line subtotals |
| `Orders.OrderService.constructor` | ims/app/services/order_service.py:69-75 | a fresh service shares the given inventory, stores no order and has next id 1 |
| `Orders.OrderService.ValidateLines` | ims/app/services/order_service.py:91-98 | the validation pass succeeds exactly when every line's variant is stocked with at least the line's qty, each line checked alone |
| `Orders.OrderService.ApplyAdjustments` | ims/app/services/order_service.py:100-102 | a pass of adjust_stock calls leaves the ledger as `Applied` says, and reports whether every call went through |
| `Orders.OrderService.CreateOrder` | ims/app/services/order_service.py:78-110 | the ledger becomes `Placed(old ledger, lines)`: untouched when validation fails, otherwise deducted line by line; an order is stored exactly when the whole pass completes, under key next_id with that id, the tenant, the lines, status CREATED and total `Total(lines)`, and next_id grows by one; on failure orders and next_id are unchanged |
| `Orders.OrderService.GetOrder` | ims/app/services/order_service.py:112-116 | fails exactly for an unknown id, otherwise returns the stored order |
| `Orders.OrderService.CancelOrder` | ims/app/services/order_service.py:125-133 | fails with no change for an unknown id or a status other than CREATED; otherwise adds each line's qty back through adjust_stock and sets CANCELLED exactly when every restoration went through |
| `Payments.Payment.constructor` | ims/app/services/payment_service.py:15-22 | a new payment keeps id, tenant, order id, amount and method, with status COMPLETED |
| `Payments.PaymentService.constructor` | ims/app/services/payment_service.py:37-39 | a fresh service stores no payment and has next id 1 |
| `Payments.PaymentService.PayOrder` | ims/app/services/payment_service.py:41-64 | fails exactly when amount <= 0, recording nothing and keeping next_id; otherwise stores a fresh COMPLETED payment with the given tenant, order id, amount and method under key next_id with that id, and next_id grows by one; the order id and amount are not checked against any order |
| `Payments.PaymentService.GetPayment` | ims/app/services/payment_service.py:66-70 | fails exactly for an unknown id, otherwise returns the stored payment |
| `Payments.PaymentService.RefundPayment` | ims/app/services/payment_service.py:79-85 | succeeds exactly for a known COMPLETED payment, which becomes REFUNDED; an unknown or already refunded payment is refused, so a second refund fails; nothing else changes |
| `Subscriptions.PlanDuration` | ims/app/services/subscription_service.py:49-56 | only "monthly" (30 days) and "yearly" (365 days) are accepted |
| `Subscriptions.RenewedWindow` | ims/app/services/subscription_service.py:58-65 | the new window starts now without a prior record, otherwise at the larger of the previous end and now; it lasts the plan's duration, so its end is strictly after the previous end and at least now + duration |
| `Subscriptions.StatusAt` | ims/app/services/subscription_service.py:79-82 | expired exactly when now > end, active when now == end |
| `Subscriptions.RenewalHasNoGapAtExpiry` | ims/app/services/subscription_service.py:59-62 | renewing exactly at the end and one second before it give the same window |
| `Subscriptions.RenewedActiveThroughEnd` | ims/app/services/subscription_service.py:58-84 | a renewed subscription reads as ACTIVE from the renewal time through its new end |
| `Subscriptions.Subscription.constructor` | ims/app/services/subscription_service.py:17-22 | a new record keeps tenant, plan, start and end, with status ACTIVE |
| `Subscriptions.SubscriptionService.constructor` | ims/app/services/subscription_service.py:37-38 | a fresh service has no records |
| `Subscriptions.SubscriptionService.Renew` | ims/app/services/subscription_service.py:40-69 | fails with the records unchanged for an unknown plan; otherwise replaces the tenant's record with a fresh ACTIVE one whose window is `RenewedWindow(previous end, now, duration)`, leaving other tenants untouched |
| `Subscriptions.SubscriptionService.CheckStatus` | ims/app/services/subscription_service.py:71-84 | reports NO_SUBSCRIPTION for an unknown tenant and changes nothing; otherwise stores and reports `StatusAt(end, now)` |
| `Subscriptions.SubscriptionService.GetSubscription` | ims/app/services/subscription_service.py:86-90 | fails exactly for an unknown tenant, otherwise returns the stored record |

## Left out

- Floating-point money: prices, subtotals, totals and payment amounts are integer cents, so Python's `round(..., 2)` on floats is the identity here; a float amount strictly between 0 and 0.005 passes the positivity check yet is stored as 0.00, which cents cannot express.
- Wall-clock time: `datetime.now()` is the parameter `now` of `Renew` and `CheckStatus`, in integer seconds; the `created_at` and `updated_at` timestamps are dropped.
- Printing: every `print` line, and the listing operations `list_all_items`, `list_orders`, `list_payments`, `list_subscriptions`, which only print.
- Default arguments: Dafny has none, so callers pass every value; the source's defaults are not modelled: initial stock `0` for `add_item`, stock `0` for a new inventory item, payment method `"cash"` for `pay_order` and plan `"monthly"` for `renew`.
- Building order lines from dictionaries: lines arrive as typed `OrderLine` values, so a dictionary with a missing or extra key (a `TypeError` in the source) is not modelled.
- Error messages: the source raises `ValueError` with different texts; the model has one failure outcome.
- The orchestration layer, the entry script, the record classes under `models/`, configuration, CSV export and the test script are not part of this model.
