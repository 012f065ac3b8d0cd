/**
 * The two scheduled reconciliation tasks: the timeout sweep, which cancels
 * orders left unpaid for 30 minutes, and the reminder sweep, which picks the
 * unpaid orders created 15 to 25 minutes ago and emits one payment reminder
 * each. Each sweep is one atomic step on the store; the scheduling loops run a
 * sweep at every tick, and a tick whose sweep fails has no effect on the later
 * ones. Times are seconds.
 */
module OrderTask {
  import opened OrderModel
  import opened Lifecycle
  import opened OrderService

  const Minute: int := 60
  /** Unpaid orders older than this are cancelled. */
  const CancelAfter: int := 30 * Minute
  /** The reminder window: created between 25 and 15 minutes ago, both ends included. */
  const RemindFrom: int := 25 * Minute
  const RemindUntil: int := 15 * Minute
  /** The tickers: the first sweep runs at once, then one every interval. */
  const CancelInterval: int := 10 * Minute
  const ReminderInterval: int := 30 * Minute

  /** One payment reminder: the order and the address it is sent to. */
  datatype Reminder = Reminder(orderId: string, email: string)

  // ---------------------------------------------------------------------------
  // The timeout sweep

  /**
   * One run of the timeout sweep at time `now`: the bulk update either fails
   * (call 0 of `fault`), leaving the store as it was, or cancels every pending
   * order created before `now - CancelAfter` and reports how many it changed.
   */
  method CancelTimeoutOrders(store: OrderStore, now: int, fault: Fault) returns (err: Option<Error>, rowsAffected: nat)
    requires store.Valid()
    modifies store
    ensures store.Valid()
    ensures store.orderItems == old(store.orderItems) && store.nextItemId == old(store.nextItemId)
    ensures store.orders == Sweep(old(store.orders), now, fault)
    ensures fault == FailsAt(0) ==> err == Some(StoreFailure) && rowsAffected == 0
    ensures fault != FailsAt(0) ==>
      err.None? && rowsAffected == |PendingCreatedBefore(old(store.orders), now - CancelAfter)|
  {
    if fault == FailsAt(0) {
      return Some(StoreFailure), 0;
    }
    rowsAffected := store.CancelPendingCreatedBefore(now - CancelAfter, now);
    err := None;
  }

  /** The `orders` table after one sweep at `now`. */
  function Sweep(orders: map<string, Order>, now: int, fault: Fault): (r: map<string, Order>)
    ensures r.Keys == orders.Keys
  {
    if fault == FailsAt(0) then orders else CancelPendingBefore(orders, now - CancelAfter, now)
  }

  /**
   * The sweep cancels exactly the timed-out orders: a row changes if and only if
   * it is pending and was created strictly before the cutoff; a changed row is
   * cancelled with `updatedAt = now` and keeps its identity, owner and money.
   * Paid and later orders, and pending ones created at the cutoff or after it,
   * are left as they were.
   */
  lemma SweepCancelsExactlyTimedOut(orders: map<string, Order>, cutoff: int, now: int)
    ensures var r := CancelPendingBefore(orders, cutoff, now);
      forall id | id in orders ::
        && (r[id] != orders[id] <==> orders[id].status == Pending && orders[id].createdAt < cutoff)
        && (r[id] != orders[id] ==>
              r[id].status == Cancelled && r[id].updatedAt == now && SameOrderData(orders[id], r[id]))
  {
  }

  /**
   * A second sweep with the same clock reading finds nothing left to cancel,
   * so it changes no row.
   */
  lemma SecondSweepChangesNothing(orders: map<string, Order>, cutoff: int, now: int)
    ensures PendingCreatedBefore(CancelPendingBefore(orders, cutoff, now), cutoff) == {}
    ensures CancelPendingBefore(CancelPendingBefore(orders, cutoff, now), cutoff, now) == CancelPendingBefore(orders, cutoff, now)
  {
  }

  /** The scheduled timeout task: the sweep at tick `k` runs at `start + k * CancelInterval`. */
  function CancelTick(start: int, k: int): int {
    start + k * CancelInterval
  }

  /** The `orders` table after the sweeps of the ticks with faults `faults`, in order. */
  function CancelSchedule(orders: map<string, Order>, start: int, faults: seq<Fault>): (r: map<string, Order>)
    ensures r.Keys == orders.Keys
    decreases |faults|
  {
    if faults == [] then orders
    else
      var n := |faults| - 1;
      Sweep(CancelSchedule(orders, start, faults[..n]), CancelTick(start, n), faults[n])
  }

  /**
   * The scheduling loop of the timeout task, over as many ticks as `faults` has
   * entries: it runs the sweep at each tick, records (logs) a failed sweep's
   * error, and carries on with the next tick.
   */
  method RunCancelTask(store: OrderStore, start: int, faults: seq<Fault>) returns (errors: seq<Option<Error>>)
    requires store.Valid()
    modifies store
    ensures store.Valid()
    ensures store.orderItems == old(store.orderItems) && store.nextItemId == old(store.nextItemId)
    ensures store.orders == CancelSchedule(old(store.orders), start, faults)
    ensures |errors| == |faults|
    ensures forall k :: 0 <= k < |faults| ==> (errors[k] == Some(StoreFailure) <==> faults[k] == FailsAt(0))
    ensures forall k :: 0 <= k < |faults| ==> (errors[k].None? <==> faults[k] != FailsAt(0))
  {
    errors := [];
    for k := 0 to |faults|
      invariant store.Valid()
      invariant store.orderItems == old(store.orderItems) && store.nextItemId == old(store.nextItemId)
      invariant store.orders == CancelSchedule(old(store.orders), start, faults[..k])
      invariant |errors| == k
      invariant forall j :: 0 <= j < k ==> (errors[j] == Some(StoreFailure) <==> faults[j] == FailsAt(0))
      invariant forall j :: 0 <= j < k ==> (errors[j].None? <==> faults[j] != FailsAt(0))
    {
      assert faults[..k + 1][..k] == faults[..k];
      var err, rows := CancelTimeoutOrders(store, CancelTick(start, k), faults[k]);
      errors := errors + [err];
    }
    assert faults[..|faults|] == faults;
  }

  /** The schedule keeps each row's identity, owner, money and creation time, and never reopens an order. */
  lemma {:induction false} ScheduleKeepsOrderData(orders: map<string, Order>, start: int, faults: seq<Fault>, id: string)
    requires id in orders
    ensures SameOrderData(orders[id], CancelSchedule(orders, start, faults)[id])
    ensures orders[id].status != Pending ==> CancelSchedule(orders, start, faults)[id] == orders[id]
    decreases |faults|
  {
    if faults != [] {
      var n := |faults| - 1;
      ScheduleKeepsOrderData(orders, start, faults[..n], id);
    }
  }

  /**
   * Every order that has timed out by some tick whose sweep succeeded is no
   * longer pending once the schedule has run: failed ticks are made up for by
   * later ones, and nothing reopens a cancelled order.
   */
  lemma {:induction false} ScheduleCancelsTimedOut(orders: map<string, Order>, start: int, faults: seq<Fault>,
                                                   k: nat, id: string)
    requires k < |faults| && faults[k] != FailsAt(0)
    requires id in orders && orders[id].createdAt < CancelTick(start, k) - CancelAfter
    ensures CancelSchedule(orders, start, faults)[id].status != Pending
    decreases |faults|
  {
    var n := |faults| - 1;
    var before := CancelSchedule(orders, start, faults[..n]);
    ScheduleKeepsOrderData(orders, start, faults[..n], id);
    if k < n {
      ScheduleCancelsTimedOut(orders, start, faults[..n], k, id);
      assert before[id].status != Pending;
    } else {
      assert before[id].createdAt == orders[id].createdAt;
    }
  }

  // ---------------------------------------------------------------------------
  // The reminder sweep

  /** The orders the reminder sweep at `now` selects: pending, created 25 to 15 minutes before `now`. */
  ghost function ReminderSelection(orders: map<string, Order>, now: int): set<string> {
    PendingCreatedBetween(orders, now - RemindFrom, now - RemindUntil)
  }

  function ReminderIds(reminders: seq<Reminder>): set<string> {
    set i | 0 <= i < |reminders| :: reminders[i].orderId
  }

  /**
   * One run of the reminder sweep at `now`. The query fails (call 0 of `fault`)
   * or selects the pending orders created in the window; one reminder is
   * emitted per selected order, to the order's email. The store is not changed.
   */
  method SendPaymentReminders(store: OrderStore, now: int, fault: Fault) returns (err: Option<Error>, reminders: seq<Reminder>)
    requires store.Valid()
    ensures fault == FailsAt(0) ==> err == Some(StoreFailure) && reminders == []
    ensures fault != FailsAt(0) ==> err.None?
    ensures fault != FailsAt(0) ==> ReminderIds(reminders) == ReminderSelection(store.orders, now)
    ensures |reminders| == |ReminderIds(reminders)|
    ensures forall i :: 0 <= i < |reminders| ==>
      reminders[i].orderId in store.orders && reminders[i].email == store.orders[reminders[i].orderId].email
  {
    if fault == FailsAt(0) {
      return Some(StoreFailure), [];
    }
    var found := store.FindPendingCreatedBetween(now - RemindFrom, now - RemindUntil);
    reminders := [];
    for i := 0 to |found|
      invariant |reminders| == i
      invariant forall j :: 0 <= j < i ==> reminders[j] == Reminder(found[j].orderId, found[j].email)
    {
      reminders := reminders + [Reminder(found[i].orderId, found[i].email)];
    }
    RemindersFollowSelection(found, reminders);
    DistinctIdsCount(found);
    err := None;
  }

  /** Reminders emitted one per selected order, in selection order, have the selection's ids and one entry per id. */
  lemma RemindersFollowSelection(found: seq<Order>, reminders: seq<Reminder>)
    requires |reminders| == |found|
    requires forall j :: 0 <= j < |found| ==> reminders[j] == Reminder(found[j].orderId, found[j].email)
    ensures ReminderIds(reminders) == IdsOf(found)
  {
  }

  /** The scheduled reminder task: the sweep at tick `k` runs at `start + k * ReminderInterval`. */
  function ReminderTick(start: int, k: int): int {
    start + k * ReminderInterval
  }

  /**
   * The scheduling loop of the reminder task: one batch of reminders per tick;
   * a failed tick emits none, and the loop goes on.
   */
  method RunReminderTask(store: OrderStore, start: int, faults: seq<Fault>) returns (batches: seq<seq<Reminder>>)
    requires store.Valid()
    ensures |batches| == |faults|
    ensures forall k :: 0 <= k < |faults| && faults[k] == FailsAt(0) ==> batches[k] == []
    ensures forall k :: 0 <= k < |faults| && faults[k] != FailsAt(0) ==>
      ReminderIds(batches[k]) == ReminderSelection(store.orders, ReminderTick(start, k))
  {
    batches := [];
    for k := 0 to |faults|
      invariant |batches| == k
      invariant forall j :: 0 <= j < k && faults[j] == FailsAt(0) ==> batches[j] == []
      invariant forall j :: 0 <= j < k && faults[j] != FailsAt(0) ==>
        ReminderIds(batches[j]) == ReminderSelection(store.orders, ReminderTick(start, j))
    {
      var err, reminders := SendPaymentReminders(store, ReminderTick(start, k), faults[k]);
      batches := batches + [reminders];
    }
  }

  /**
   * The reminder window (10 minutes) is shorter than the reminder ticker (30
   * minutes), so most pending orders get no reminder at all: an order created
   * 1000 seconds after the first tick lies in no tick's window.
   */
  lemma ReminderSweepCanMiss(orders: map<string, Order>, start: int, id: string)
    requires id in orders && orders[id].createdAt == start + 1000
    ensures forall k: nat :: id !in ReminderSelection(orders, ReminderTick(start, k))
  {
  }

  /** An order is reminded at tick `k` exactly when it is pending and its age at that tick is within the window. */
  lemma ReminderWindowBounds(orders: map<string, Order>, now: int, id: string)
    requires id in orders
    ensures id in ReminderSelection(orders, now) <==>
      orders[id].status == Pending && 15 * 60 <= now - orders[id].createdAt <= 25 * 60
  {
  }
}
