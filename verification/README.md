# Order lifecycle of the gomall order service, in Dafny

This project models the order service of the Go order microservice:

- the `orders` and `order_items` tables and the six order statuses;
- order creation (`PlaceOrder`), with its generated order id and its all-or-nothing write of the order and its items;
- the read queries `GetOrder` and `ListOrders`;
- the four status transitions `MarkOrderPaid`, `ShipOrder`, `DeliverOrder` and `CancelOrder`. Each is a compare-and-set update keyed on the order id and a required prior status. When no row changes, an existence count tells "not found" from "wrong status";
- the two scheduled tasks. The timeout sweep cancels orders left unpaid for 30 minutes. The reminder sweep emits a payment reminder for every unpaid order created 15 to 25 minutes ago.

Files:

- `order.dfy` (module `OrderModel`): statuses, order and item rows, and the well-formedness of a row. Money is integer cents and times are integer seconds.
- `order_id.dfy` (module `OrderIds`): the `yyMMddHHmmss` + user id + `%03d` order id, with its decoding and injectivity.
- `lifecycle.dfy` (module `Lifecycle`): the transition rule shared by the four updates. It gives the required prior statuses, the target status and the row each update writes, plus the life-cycle properties.
- `order_service.dfy` (module `OrderService`): the store as a class `OrderStore`. Its fields are the `orders` map keyed by primary key, the `orderItems` sequence in insertion order and the item auto-increment counter. Its methods are the service operations. The class invariant `Valid` says:
  - every row is stored under its own key and is well formed;
  - every order has at least one item row, and its count and total agree with those rows;
  - every item points to a stored order;
  - item ids increase.
- `order_task.dfy` (module `OrderTask`): the two sweeps, their scheduling loops, and the properties of both. The timeout sweep's bulk `Update` also sets `updated_at` (GORM does so on every update), so a cancelled row gets `updatedAt = now`.

A store call that reports an error is an input, `Fault`: `FailsAt(k)` makes the operation's k-th store call fail. In `PlaceOrder` call 0 is the order insert (a transaction that cannot begin fails the same way), call `k` is the insert of item `k - 1`, and call `n + 1` is the commit of an order with `n` items. Also inputs:

- the clock (`now`, plus the calendar reading `clock` used for the order id);
- the random draw `r`.

The error sentinels become the `Error` datatype:

- `InvalidInput` for `ErrInvalidInput`;
- `OrderNotFound` for `ErrOrderNotFound`;
- `StatusConflict(op)` for the untyped "cannot be … due to its current status" errors;
- `StoreFailure` for a wrapped database error.

## Model

| member | source | states |
|---|---|---|
| OrderModel.StatusName | model/order.go:49-56 | each status has its column string, and that string reads back as the same status |
| OrderModel.StatusNamesDistinct | model/order.go:49-56 | the six names are pairwise distinct, and a column string that reads back as a status (`ParseStatus`) is that status's name |
| OrderModel.ItemsOf | model/order.go:30 | the rows found by order id all carry that id, and there are no more of them than rows |
| OrderModel.ItemsOfAppend | model/order.go:30 | looking items up by order id distributes over appending rows |
| OrderModel.ItemsOfUniform | model/order.go:30 | the lookup keeps every row when all rows carry the id, and none when none does |
| OrderModel.WellFormed | model/order.go:22-24 | a stored row is never refunded and each transition timestamp is set exactly when its transition has happened (kept by `Lifecycle.ApplyKeepsWellFormed`) |
| OrderModel.SumCosts | service/order_service.go:45-48 | the `totalAmount` of an order: the sum of its item costs (computed by `OrderService.SumItemCosts`) |
| OrderModel.SumCostsSameCosts | service/order_service.go:78-80 | rows with the same costs position by position have the same sum, so stamping ids leaves the total unchanged |
| OrderIds.Decimal | service/order_service.go:26 | `%d` of a number is a nonempty string of digits |
| OrderIds.Pad2 | service/order_service.go:24 | each two-digit field of the timestamp is two digits |
| OrderIds.Pad3 | service/order_service.go:25 | `%03d` of a draw below 1000 is exactly three digits |
| OrderIds.Timestamp | service/order_service.go:24 | the `060102150405` layout gives twelve digits |
| OrderIds.GenerateOrderID | service/order_service.go:23-27 | the id is all digits, nonempty, 15 characters longer than the decimal user id, and starts with the timestamp |
| OrderIds.DecimalRoundTrip | service/order_service.go:26 | the decimal user id reads back to the user id |
| OrderIds.Pad2RoundTrip | service/order_service.go:24 | each timestamp field reads back to its value |
| OrderIds.Pad3RoundTrip | service/order_service.go:25 | the padded suffix reads back to the random draw |
| OrderIds.TimestampInjective | service/order_service.go:24 | two readings give the same timestamp iff they agree to the second, modulo the century |
| OrderIds.OrderIDParts | service/order_service.go:23-27 | the digits between the timestamp and the last three are the user id, and the last three are the draw |
| OrderIds.OrderIDInjective | service/order_service.go:23-27 | two ids are equal iff their timestamps, user ids and draws are equal |
| Lifecycle.RequiredPrior | service/order_service.go:135-268 | each transition requires a nonempty set of prior statuses drawn from pending, paid and shipped |
| Lifecycle.Target | service/order_service.go:135-268 | no transition targets pending or refunded, and none targets a status it accepts |
| Lifecycle.TransitionsAreEdges | service/order_service.go:135-268 | the four updates realise exactly the life-cycle edge table, and delivered, cancelled and refunded admit no transition |
| Lifecycle.Step | service/order_service.go:135-268 | an attempted transition never lowers the status rank, and any change is an edge that raises it |
| Lifecycle.RunNeverGoesBack | service/order_service.go:135-268 | along any sequence of attempts the status only moves forward |
| Lifecycle.NeverBackToPending | service/order_service.go:237-249 | an order that has left pending never returns to it |
| Lifecycle.TerminalIsFinal | service/order_service.go:135-268 | delivered and cancelled orders never change status |
| Lifecycle.RefundedUnreachable | model/order.go:55 | no sequence of transitions reaches refunded |
| Lifecycle.RepeatIsRefused | service/order_service.go:141-148 | once a transition has succeeded, the same transition is no longer admitted |
| Lifecycle.HappyPath | service/order_service_test.go:66-85 | pay, ship, deliver from pending ends delivered; shipping or delivering out of turn changes nothing |
| Lifecycle.Apply | service/order_service.go:141-148 | the written row has the target status and `updatedAt = now`; payment method and `paidAt` change only on pay, `shippedAt` only on ship, `deliveredAt` only on deliver; identity, owner, money and creation time are kept |
| Lifecycle.ApplyKeepsWellFormed | model/order.go:22-24 | an admitted transition keeps every timestamp set exactly when its transition has happened |
| OrderService.TransitionOutcome | service/order_service.go:155-164 | success iff the id is nonempty, the update succeeds and the stored status is admitted; invalid input iff the id is empty; a status conflict only for a stored order whose status is refused; "not found" for a missing id, or when the existence count itself fails |
| OrderService.AfterTransition | service/order_service.go:141-148 | a transition attempt keeps the set of ids and changes no other order |
| OrderService.TransitionKeepsInvariant | service/order_service.go:141-148 | a transition attempt keeps the store invariant |
| OrderService.RewriteRowsKeepsInvariant | service/order_service.go:141-148 | rewriting rows without touching identity, owner, money or creation time, keeping them well formed, keeps the store invariant |
| OrderService.TransitionFollowsStep | service/order_service.go:141-148 | a transition attempt moves every order's status by at most one lifecycle step, and for a valid attempt whose update runs, the addressed order takes exactly `Step(status, t)` |
| OrderService.SecondAttemptRefused | service/order_service.go:141-164 | after a successful transition, repeating it on the same order is a status conflict, so of two racing callers exactly one wins |
| OrderService.PayShipDeliver | service/order_service_test.go:66-85 | on a healthy store a pending order is paid, shipped and delivered in turn, and ends delivered with its payment method and all three timestamps |
| OrderService.ItemRows | service/order_service.go:77-83 | one committed row per caller item (what the rows are is `ItemRowsProperties`) |
| OrderService.ItemRowsProperties | service/order_service.go:77-83 | the committed item rows are exactly the rows a lookup by the order id finds among them; they keep each item's product, quantity and money, cost in total what the items cost, and carry fresh item ids increasing from the counter |
| OrderService.StampedBeforeFailure | service/order_service.go:71-85 | after a failed transaction the caller's items are untouched if the order insert failed; written exactly as the commit would write them up to the failing item insert, which has only the order id, with the rest untouched; and all written if the commit failed |
| OrderService.CommitKeepsInvariant | service/order_service.go:70-85 | adding a new well-formed order together with its stamped item rows keeps the store invariant |
| OrderService.NewOrderRows | service/order_service.go:70-85 | after the commit, a lookup by the new id finds exactly the new rows, whose count and cost sum match the order |
| OrderService.OtherOrderRows | model/order.go:30 | another order's rows are unchanged by the commit |
| OrderService.NoItemsOfNewOrder | model/order.go:30 | an id not in the `orders` table has no item rows |
| OrderService.DistinctIdsCount | model/order.go:7 | a list with distinct order ids has exactly one entry per id |
| OrderService.InsertAtNewestFirst | service/order_service.go:126 | inserting after every order at least as new keeps a list ordered by `created_at DESC` |
| OrderService.InsertAtIds | service/order_service.go:126 | inserting a stored order with a new id keeps ids distinct, adds that id, and lists only stored rows |
| OrderService.InsertNewestFirst | service/order_service.go:126 | the sorted insert keeps newest-first order, distinct ids and stored rows, and adds exactly the new id |
| OrderService.CancelPendingBefore | task/order_task.go:81-83 | the bulk cancel keeps the set of order ids (its row-by-row meaning: `OrderTask.SweepCancelsExactlyTimedOut`) |
| OrderService.TimedOut | task/order_task.go:82 | the WHERE clause of the timeout sweep: pending and created strictly before the cutoff |
| OrderService.BulkCancelFollowsStep | task/order_task.go:81-83 | the bulk cancel moves every status by at most the lifecycle's cancel step, and every timed-out order takes that step |
| OrderService.BulkCancelKeepsInvariant | task/order_task.go:81-83 | the bulk cancel keeps the store invariant |
| OrderService.CancelSweepStep | task/order_task.go:81-83 | visiting one more row either cancels it, if it has timed out, and counts it, or leaves the table and the count as they were |
| OrderService.CancelSweepEnds | task/order_task.go:81-83 | the sweep starts from the table as it is and, once it has visited every row, equals the bulk update |
| OrderService.OrderStore.PlaceOrder | service/order_service.go:32-93 | user 0 or no items is invalid input with nothing written. Otherwise, with a new id and no failing insert, it returns a pending order with the caller's user, currency, address and email, `itemCount` = number of items, `totalAmount` = sum of costs and null transition timestamps, and writes it together with the stamped item rows. On any failure (duplicate id, failing insert or failing commit) nothing is written and a store error is returned, with the caller's items stamped as far as the transaction got. The store invariant is kept |
| OrderService.SumItemCosts | service/order_service.go:44-48 | the loop computes the sum of the item costs |
| OrderService.InsertItems | service/order_service.go:77-83 | the item inserts all succeed iff no item insert fails; on success every item carries the order id and a fresh item id, and on failure the items are stamped up to the failing one |
| OrderService.OrderStore.GetOrder | service/order_service.go:96-117 | an empty id is invalid input; a missing id is "not found"; a failing query is a store error; otherwise it returns the stored order and exactly its item rows, which carry its id and whose count and cost sum are the order's |
| OrderService.OrderStore.ListOrders | service/order_service.go:120-132 | user 0 is invalid input; otherwise it returns exactly the user's stored orders, one entry per order, newest first (an empty list for a user with none) |
| OrderService.OrderStore.MarkOrderPaid | service/order_service.go:135-167 | the outcome is the transition outcome for pay; only a pending order changes, to paid with payment method and `paidAt = updatedAt = now`; item rows are untouched and the invariant is kept |
| OrderService.OrderStore.ShipOrder | service/order_service.go:170-201 | only a paid order changes, to shipped with `shippedAt = updatedAt = now`; otherwise "not found" or a status conflict |
| OrderService.OrderStore.DeliverOrder | service/order_service.go:204-235 | only a shipped order changes, to delivered with `deliveredAt = updatedAt = now`; otherwise "not found" or a status conflict |
| OrderService.OrderStore.CancelOrder | service/order_service.go:238-268 | only a pending or paid order changes, to cancelled with `updatedAt = now`; otherwise "not found" or a status conflict |
| OrderService.OrderStore.Transition | service/order_service.go:155-164 | the shared body: empty id, then conditional update, then existence count when no row changed, giving the transition outcome and table |
| OrderService.OrderStore.UpdateWhereStatusIn | service/order_service.go:141-148 | the conditional update changes one row iff the id is stored with a status in the WHERE set, and reports the rows changed |
| OrderService.OrderStore.CountOrders | service/order_service.go:157-158 | the result is the number of stored rows whose `order_id` is the id, which is at most one and is one iff the id is stored |
| OrderService.RowsWithIdAtMostOne | model/order.go:7 | under the store invariant the rows with a given `order_id` are that id's row alone, or none: the primary key |
| OrderService.OrderStore.CancelPendingCreatedBefore | task/order_task.go:81-83 | the bulk update leaves the table as the timeout sweep's result, and reports as many changed rows as there were pending orders created before the cutoff |
| OrderService.OrderStore.FindPendingCreatedBetween | task/order_task.go:109-113 | the query returns exactly the stored pending orders created within the inclusive range, each once |
| OrderTask.CancelTimeoutOrders | task/order_task.go:70-94 | a failing update returns the error and changes nothing; otherwise it cancels the pending orders created before `now - 30 min` and reports their number |
| OrderTask.Sweep | task/order_task.go:78-87 | one sweep keeps the set of order ids |
| OrderTask.SweepCancelsExactlyTimedOut | task/order_task.go:78-83 | a row changes iff it is pending and created strictly before the cutoff; a changed row is cancelled with `updatedAt = now` and keeps its data |
| OrderTask.SecondSweepChangesNothing | task/order_task.go:82-83 | after one sweep no timed-out pending order is left, and a second sweep at the same time changes nothing |
| OrderTask.CancelSchedule | task/order_task.go:28-46 | the scheduled sweeps keep the set of order ids |
| OrderTask.RunCancelTask | task/order_task.go:28-46 | the ticker loop runs one sweep per tick, ten minutes apart from the first; each failed tick reports its error and has no effect, and the loop goes on |
| OrderTask.ScheduleKeepsOrderData | task/order_task.go:81-83 | the scheduled sweeps keep each order's data and never touch an order that is not pending |
| OrderTask.ScheduleCancelsTimedOut | task/order_task.go:36-44 | an order timed out by the time of any successful tick is not pending after the schedule, even if later ticks fail |
| OrderTask.SendPaymentReminders | task/order_task.go:97-128 | a failing query returns the error and emits nothing; otherwise one reminder per pending order created between 25 and 15 minutes ago (both ends included), each to that order's email, with no order reminded twice; the store is not changed |
| OrderTask.ReminderSelection | task/order_task.go:105-112 | the orders the reminder sweep selects: pending, created between 25 and 15 minutes before `now` (both ends included) |
| OrderTask.RemindersFollowSelection | task/order_task.go:117-121 | reminders emitted in selection order name exactly the selected orders |
| OrderTask.RunReminderTask | task/order_task.go:49-67 | the ticker loop emits one batch per tick, thirty minutes apart; a failed tick emits none and the loop goes on |
| OrderTask.ReminderSweepCanMiss | task/order_task.go:105-107 | the ten-minute window is shorter than the thirty-minute ticker: an order created 1000 s after the first tick is in no tick's selection |
| OrderTask.ReminderWindowBounds | task/order_task.go:105-112 | an order is selected iff it is pending and between 15 and 25 minutes old |

The table names live in `OrderModel.OrdersTable` and `OrderModel.OrderItemsTable` (model/order.go:39-46). A map keyed by `orderId` holds at most one order per id, which is the primary-key property (model/order.go:7). An item belongs to an order only through its `orderId` (model/order.go:30); `OrderModel.ItemsOf` is that lookup.

## Left out

- Logging: every `log.Printf` is left out. The reminder task's "email" is the emitted `Reminder` value.
- Concurrency: the goroutines, the `sync.Mutex` guards and real ticker timing. Each sweep is one atomic step, and the scheduling loops see no interleaved service calls.
- `context.WithTimeout` deadlines: a timed-out query is one more `Fault`.
- Money as `float64`: it is modelled as integer cents, so float rounding and `decimal(10,2)` overflow are not captured.
- Times are integer seconds. The zero `time.Time` of `paidAt`, `shippedAt` and `deliveredAt` at creation is stored as null and modelled as `None`.
- The clock is read separately for the id, `createdAt` and `updatedAt` in `PlaceOrder`, and twice in the reminder sweep. The model uses one `now`, plus the calendar reading `clock` for the id.
- `model.Address` is not part of this model. `Address` lists the fields the order row copies. A nil address, which panics in the code, is not modelled.
- A rolled-back transaction still consumes auto-increment values in MySQL. In the model the item counter only advances on commit.
- `OrderService.OrderStore.ListOrders`: the order among orders with equal `created_at` is not fixed by the query, and it is not fixed by the model.
- `OrderService.OrderStore.FindPendingCreatedBetween`: rows come back in no fixed order, as the query gives none.
- `PlaceOrder` does not check that quantities are positive or that cost equals quantity times unit price, and neither does the model.
- The status-conflict error does not carry the current status. `StatusConflict(op)` carries only the attempted transition.
- A failure of the existence count after a refused update is ignored by the code, so the count stays 0 and the result is "not found" even for a stored order. `TransitionOutcome` models exactly this.
- `OrderService.OrderStore.PlaceOrder`: GORM inserts an item whose `OrderItemID` is already nonzero under that id, and fills the id from the auto-increment only when it is zero. The model (through `OrderService.InsertItems`) gives every item the next counter value whatever id it carries, so a caller-supplied item id, and the duplicate-key failure it can cause, is not modelled. Every caller in the repository builds items with a zero id.
- `OrderService.InsertItems`: same as above; it overwrites the caller's item id.
- Key comparison: the connection uses `utf8mb4` (dao/db.go:15), whose collation compares `order_id` values case-insensitively and, depending on the server's default collation, also without regard to accents or trailing spaces. The model compares ids exactly. Generated ids are all digits, so this only matters for ids a caller passes in.
- Column widths: `user_id` and `product_id` are signed `int` columns while the Go fields are `uint32` (model/order.go:8, 31), so ids from 2^31 up do not fit. The model keeps them as `uint32` values.
- String lengths: `user_currency` and `payment_method` are `varchar(20)`, `email` and `product_name` `varchar(100)`, the address fields `varchar(50)` and `varchar(200)` (model/order.go:9-19, 32). An over-long value makes the insert or update fail (strict mode) or is cut short. The model stores strings of any length; such a failure can be given as a `Fault`.
- The transport files, process bootstrap, database setup and the user and product services are not part of this model.
