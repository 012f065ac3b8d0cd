/**
 * The order service over its store: placing an order together with its item
 * rows as one transaction, reading orders back, and the four status
 * transitions, each a single conditional update followed, when no row changed,
 * by an existence count that tells "not found" from "wrong status".
 *
 * The store is an object holding the `orders` table (a map keyed by the primary
 * key `orderId`) and the `order_items` table (a sequence in insertion order with
 * an auto-increment counter). A store call that reports an error is an input:
 * `Fault` names which call of the operation fails.
 */
module OrderService {
  import opened OrderModel
  import opened OrderIds
  import opened Lifecycle

  datatype Error =
    | InvalidInput                     // wraps the invalid-input sentinel
    | OrderNotFound                    // wraps the order-not-found sentinel
    | StatusConflict(op: Transition)   // the order exists but its status refuses `op`
    | StoreFailure                     // the store reported an error

  /** Which store call of one operation (counted from 0) reports an error, if any. */
  datatype Fault = Healthy | FailsAt(call: nat)

  // ---------------------------------------------------------------------------
  // What the two tables always satisfy

  /** An order's item count and total are those of its item rows, of which there is at least one. */
  predicate MatchesItems(o: Order, lines: seq<OrderItem>) {
    |lines| > 0 && o.itemCount == |lines| && o.totalAmount == SumCosts(lines)
  }

  /** The row under `id` is stored under its own primary key, is well formed and agrees with its item rows. */
  ghost predicate RowConsistent(orders: map<string, Order>, items: seq<OrderItem>, id: string) {
    && id in orders
    && orders[id].orderId == id
    && WellFormed(orders[id])
    && MatchesItems(orders[id], ItemsOf(items, id))
  }

  ghost predicate RowsConsistent(orders: map<string, Order>, items: seq<OrderItem>) {
    forall id {:trigger RowConsistent(orders, items, id)} | id in orders :: RowConsistent(orders, items, id)
  }

  /** Every item row refers to a stored order and has an item id the counter has passed. */
  ghost predicate ItemsBelong(orders: map<string, Order>, items: seq<OrderItem>, nextItemId: int) {
    forall i | 0 <= i < |items| :: items[i].orderId in orders && items[i].orderItemId < nextItemId
  }

  ghost predicate ItemIdsIncreasing(items: seq<OrderItem>) {
    forall i, j | 0 <= i < j < |items| :: items[i].orderItemId < items[j].orderItemId
  }

  ghost predicate StoreInvariant(orders: map<string, Order>, items: seq<OrderItem>, nextItemId: int) {
    && RowsConsistent(orders, items)
    && ItemsBelong(orders, items, nextItemId)
    && ItemIdsIncreasing(items)
  }

  /**
   * Rewriting order rows in place keeps the invariant, as long as no row changes
   * its identity, owner, money or creation time and every row stays well formed.
   */
  lemma RewriteRowsKeepsInvariant(orders: map<string, Order>, orders': map<string, Order>,
                                  items: seq<OrderItem>, next: int)
    requires StoreInvariant(orders, items, next)
    requires orders'.Keys == orders.Keys
    requires forall id | id in orders :: SameOrderData(orders[id], orders'[id]) && WellFormed(orders'[id])
    ensures StoreInvariant(orders', items, next)
  {
    forall id | id in orders' ensures RowConsistent(orders', items, id) {
      assert RowConsistent(orders, items, id);
      assert SameOrderData(orders[id], orders'[id]);
    }
  }

  /** What the invariant says about one stored order and the rows a lookup by its id finds. */
  lemma StoredOrder(orders: map<string, Order>, items: seq<OrderItem>, next: int, orderId: string)
    requires StoreInvariant(orders, items, next) && orderId in orders
    ensures orders[orderId].orderId == orderId && WellFormed(orders[orderId])
    ensures MatchesItems(orders[orderId], ItemsOf(items, orderId))
  {
    assert RowConsistent(orders, items, orderId);
  }

  /** The stored rows whose `order_id` column equals `orderId`. */
  ghost function RowsWithId(orders: map<string, Order>, orderId: string): set<string> {
    set k | k in orders && orders[k].orderId == orderId
  }

  /** Every row is stored under its own id, so at most one row has a given `order_id`: the primary key. */
  lemma RowsWithIdAtMostOne(orders: map<string, Order>, items: seq<OrderItem>, next: int, orderId: string)
    requires StoreInvariant(orders, items, next)
    ensures RowsWithId(orders, orderId) == if orderId in orders then {orderId} else {}
  {
    forall k | k in orders ensures orders[k].orderId == k {
      StoredOrder(orders, items, next, k);
    }
  }

  // ---------------------------------------------------------------------------
  // Transitions

  /**
   * The result of one transition attempt: invalid input for an empty id, a
   * store error when the update fails, success when the order exists with an
   * admitted status, otherwise "not found" when the count finds no row (or the
   * count itself fails, whose error the code ignores) and a status conflict
   * when it does.
   */
  function TransitionOutcome(orders: map<string, Order>, orderId: string, t: Transition, fault: Fault): (err: Option<Error>)
    ensures err.None? <==> orderId != "" && fault != FailsAt(0) && orderId in orders && Admits(t, orders[orderId].status)
    ensures err == Some(InvalidInput) <==> orderId == ""
    ensures err == Some(StoreFailure) <==> orderId != "" && fault == FailsAt(0)
    ensures orderId != "" && fault != FailsAt(0) && orderId !in orders ==> err == Some(OrderNotFound)
    ensures err == Some(OrderNotFound) ==> orderId !in orders || fault == FailsAt(1)
    ensures orderId != "" && fault == FailsAt(1) && !(orderId in orders && Admits(t, orders[orderId].status)) ==>
      err == Some(OrderNotFound)
    ensures err.Some? && err.value.StatusConflict? ==>
      err.value.op == t && orderId in orders && !Admits(t, orders[orderId].status)
  {
    if orderId == "" then Some(InvalidInput)
    else if fault == FailsAt(0) then Some(StoreFailure)
    else if orderId in orders && Admits(t, orders[orderId].status) then None
    else if orderId !in orders || fault == FailsAt(1) then Some(OrderNotFound)
    else Some(StatusConflict(t))
  }

  /** The `orders` table after a transition attempt: only the addressed row can change. */
  function AfterTransition(orders: map<string, Order>, orderId: string, t: Transition, now: int,
                           paymentMethod: string, fault: Fault): (r: map<string, Order>)
    ensures r.Keys == orders.Keys
    ensures forall id | id in orders && id != orderId :: r[id] == orders[id]
  {
    if TransitionOutcome(orders, orderId, t, fault).None?
    then orders[orderId := Apply(orders[orderId], t, now, paymentMethod)]
    else orders
  }

  /** A transition attempt keeps the store invariant. */
  lemma TransitionKeepsInvariant(orders: map<string, Order>, items: seq<OrderItem>, next: int,
                                 orderId: string, t: Transition, now: int, paymentMethod: string, fault: Fault)
    requires StoreInvariant(orders, items, next)
    ensures StoreInvariant(AfterTransition(orders, orderId, t, now, paymentMethod, fault), items, next)
  {
    var orders' := AfterTransition(orders, orderId, t, now, paymentMethod, fault);
    if TransitionOutcome(orders, orderId, t, fault).None? {
      forall id | id in orders ensures SameOrderData(orders[id], orders'[id]) && WellFormed(orders'[id]) {
        StoredOrder(orders, items, next, id);
        if id == orderId {
          ApplyKeepsWellFormed(orders[orderId], t, now, paymentMethod);
        }
      }
      RewriteRowsKeepsInvariant(orders, orders', items, next);
    }
  }

  /**
   * Once a transition has succeeded, repeating it on the same order is refused
   * with a status conflict: of two callers racing for the same transition,
   * exactly one wins.
   */
  lemma SecondAttemptRefused(orders: map<string, Order>, orderId: string, t: Transition, now: int,
                             paymentMethod: string, fault: Fault)
    requires TransitionOutcome(orders, orderId, t, fault).None?
    ensures TransitionOutcome(AfterTransition(orders, orderId, t, now, paymentMethod, fault), orderId, t, Healthy)
      == Some(StatusConflict(t))
  {
  }

  /**
   * On a healthy store a pending order is paid, shipped and delivered in turn,
   * and ends `delivered` with all three timestamps set and its payment method
   * recorded.
   */
  lemma PayShipDeliver(orders: map<string, Order>, orderId: string, pm: string, t1: int, t2: int, t3: int)
    requires orderId != "" && orderId in orders && orders[orderId].status == Pending
    ensures var m1 := AfterTransition(orders, orderId, Pay, t1, pm, Healthy);
            var m2 := AfterTransition(m1, orderId, Ship, t2, "", Healthy);
            var m3 := AfterTransition(m2, orderId, Deliver, t3, "", Healthy);
            && TransitionOutcome(orders, orderId, Pay, Healthy).None?
            && TransitionOutcome(m1, orderId, Ship, Healthy).None?
            && TransitionOutcome(m2, orderId, Deliver, Healthy).None?
            && m3[orderId].status == Delivered
            && m3[orderId].paymentMethod == pm
            && m3[orderId].paidAt == Some(t1) && m3[orderId].shippedAt == Some(t2)
            && m3[orderId].deliveredAt == Some(t3)
  {
  }

  /**
   * A transition attempt moves each order along the lifecycle by at most one
   * step: every row keeps its status or takes `Step(status, t)`, and when the
   * attempt is valid and its update runs, the addressed row takes exactly that
   * step (which is no move at all for a refused status).
   */
  lemma TransitionFollowsStep(orders: map<string, Order>, orderId: string, t: Transition, now: int,
                              paymentMethod: string, fault: Fault)
    ensures var r := AfterTransition(orders, orderId, t, now, paymentMethod, fault);
      forall id | id in orders ::
        r[id].status == orders[id].status || r[id].status == Step(orders[id].status, t)
    ensures orderId != "" && fault != FailsAt(0) && orderId in orders ==>
      AfterTransition(orders, orderId, t, now, paymentMethod, fault)[orderId].status == Step(orders[orderId].status, t)
  {
  }

  // ---------------------------------------------------------------------------
  // Creation

  /** The item rows a committed order writes: each caller item stamped with the order id and a fresh item id. */
  function ItemRows(lines: seq<OrderItem>, orderId: string, firstItemId: int): (rows: seq<OrderItem>)
    ensures |rows| == |lines|
  {
    seq(|lines|, j requires 0 <= j < |lines| => lines[j].(orderId := orderId, orderItemId := firstItemId + j))
  }

  /**
   * What the committed rows are: every caller item, with its product, quantity
   * and money, now belongs to the order; the rows cost what the items cost; and
   * they carry fresh item ids, increasing from `firstItemId`.
   */
  lemma ItemRowsProperties(lines: seq<OrderItem>, orderId: string, firstItemId: int)
    ensures var rows := ItemRows(lines, orderId, firstItemId);
      && ItemsOf(rows, orderId) == rows
      && SumCosts(rows) == SumCosts(lines)
      && (forall j | 0 <= j < |rows| :: SameItemData(lines[j], rows[j]))
      && (forall j | 0 <= j < |rows| :: firstItemId <= rows[j].orderItemId < firstItemId + |lines|)
      && (forall i, j | 0 <= i < j < |rows| :: rows[i].orderItemId < rows[j].orderItemId)
  {
    var rows := ItemRows(lines, orderId, firstItemId);
    ItemsOfUniform(rows, orderId);
    SumCostsSameCosts(rows, lines);
  }

  /**
   * The caller's items after a transaction that failed at store call `reached`
   * (call 0 the order insert, call `k` the insert of item `k - 1`, call
   * `|lines| + 1` the commit): the items before the failing insert are written
   * exactly as a commit would have them, the failing one carries only the order
   * id, the rest are untouched. A failed commit leaves every item stamped.
   */
  function StampedBeforeFailure(lines: seq<OrderItem>, orderId: string, firstItemId: int, reached: nat): (r: seq<OrderItem>)
    requires reached <= |lines| + 1
    ensures |r| == |lines|
    ensures reached == 0 ==> r == lines
    ensures 0 < reached <= |lines| ==>
      r == ItemRows(lines, orderId, firstItemId)[..reached - 1] + [lines[reached - 1].(orderId := orderId)] + lines[reached..]
    ensures reached == |lines| + 1 ==> r == ItemRows(lines, orderId, firstItemId)
  {
    var r := seq(|lines|, j requires 0 <= j < |lines| =>
      if j + 1 < reached then lines[j].(orderId := orderId, orderItemId := firstItemId + j)
      else if j + 1 == reached then lines[j].(orderId := orderId)
      else lines[j]);
    if reached == |lines| + 1 then
      AllStamped(lines, r, orderId, firstItemId);
      r
    else if reached > 0 then
      FailedInsertShape(lines, r, orderId, firstItemId, reached - 1);
      r
    else
      r
  }

  /** Items written up to item `i`, item `i` stamped only and the rest untouched, split into those three parts. */
  lemma FailedInsertShape(before: seq<OrderItem>, after: seq<OrderItem>, orderId: string, firstItemId: int, i: nat)
    requires |after| == |before| && i < |before|
    requires forall j :: 0 <= j < i ==> after[j] == before[j].(orderId := orderId, orderItemId := firstItemId + j)
    requires after[i] == before[i].(orderId := orderId)
    requires forall j :: i < j < |before| ==> after[j] == before[j]
    ensures after == ItemRows(before, orderId, firstItemId)[..i] + [before[i].(orderId := orderId)] + before[i + 1..]
  {
    var rows := ItemRows(before, orderId, firstItemId);
    var tail := [before[i].(orderId := orderId)] + before[i + 1..];
    assert tail == after[i..];
    assert rows[..i] == after[..i];
    assert after == after[..i] + after[i..];
  }

  /**
   * The transaction commits: the id is new and no store call among the order
   * insert, its `n` item inserts and the commit (call `n + 1`) fails.
   */
  predicate Commits(orders: map<string, Order>, orderId: string, fault: Fault, n: nat) {
    orderId !in orders && (fault.Healthy? || fault.call > n + 1)
  }

  /** The store call at which a failing transaction stopped. */
  function Reached(orders: map<string, Order>, orderId: string, fault: Fault, n: nat): (k: nat)
    requires !Commits(orders, orderId, fault, n)
    ensures k <= n + 1
  {
    if orderId in orders || fault.Healthy? then 0 else fault.call
  }

  /** Committing a new order with its stamped rows keeps the store invariant. */
  lemma CommitKeepsInvariant(orders: map<string, Order>, items: seq<OrderItem>, next: int,
                             order: Order, lines: seq<OrderItem>)
    requires StoreInvariant(orders, items, next)
    requires order.orderId !in orders && WellFormed(order) && MatchesItems(order, lines)
    ensures StoreInvariant(orders[order.orderId := order], items + ItemRows(lines, order.orderId, next),
                           next + |lines|)
  {
    CommitKeepsRows(orders, items, next, order, lines);
    CommitKeepsItemsBelonging(orders, items, next, order, lines);
    CommitKeepsIdsIncreasing(items, next, order.orderId, lines);
  }

  lemma CommitKeepsRows(orders: map<string, Order>, items: seq<OrderItem>, next: int,
                        order: Order, lines: seq<OrderItem>)
    requires RowsConsistent(orders, items) && ItemsBelong(orders, items, next)
    requires order.orderId !in orders && WellFormed(order) && MatchesItems(order, lines)
    ensures RowsConsistent(orders[order.orderId := order], items + ItemRows(lines, order.orderId, next))
  {
    var id := order.orderId;
    var rows := ItemRows(lines, id, next);
    var orders' := orders[id := order];
    forall k | k in orders' ensures RowConsistent(orders', items + rows, k) {
      if k == id {
        NewOrderRows(orders, items, next, order, lines);
      } else {
        OtherOrderRows(orders, items, next, k, id, lines);
      }
    }
  }

  /** The new order's rows are exactly the ones the commit appends. */
  lemma NewOrderRows(orders: map<string, Order>, items: seq<OrderItem>, next: int,
                     order: Order, lines: seq<OrderItem>)
    requires ItemsBelong(orders, items, next) && order.orderId !in orders && MatchesItems(order, lines)
    ensures ItemsOf(items + ItemRows(lines, order.orderId, next), order.orderId) == ItemRows(lines, order.orderId, next)
    ensures MatchesItems(order, ItemsOf(items + ItemRows(lines, order.orderId, next), order.orderId))
  {
    var id := order.orderId;
    var rows := ItemRows(lines, id, next);
    ItemsOfAppend(items, rows, id);
    NoItemsOfNewOrder(orders, items, next, id);
    ItemRowsProperties(lines, id, next);
    assert [] + rows == rows;
  }

  /** Appending another order's rows leaves an existing order's rows as they were. */
  lemma OtherOrderRows(orders: map<string, Order>, items: seq<OrderItem>, next: int,
                       k: string, id: string, lines: seq<OrderItem>)
    requires k != id && RowConsistent(orders, items, k)
    ensures ItemsOf(items + ItemRows(lines, id, next), k) == ItemsOf(items, k)
    ensures RowConsistent(orders, items + ItemRows(lines, id, next), k)
  {
    var rows := ItemRows(lines, id, next);
    ItemsOfAppend(items, rows, k);
    forall i | 0 <= i < |rows| ensures rows[i].orderId != k {
    }
    ItemsOfUniform(rows, k);
    assert ItemsOf(items, k) + [] == ItemsOf(items, k);
  }

  /** No stored item row refers to an id that is not in the `orders` table. */
  lemma NoItemsOfNewOrder(orders: map<string, Order>, items: seq<OrderItem>, next: int, id: string)
    requires ItemsBelong(orders, items, next) && id !in orders
    ensures ItemsOf(items, id) == []
  {
  }

  lemma CommitKeepsItemsBelonging(orders: map<string, Order>, items: seq<OrderItem>, next: int,
                                  order: Order, lines: seq<OrderItem>)
    requires ItemsBelong(orders, items, next)
    ensures ItemsBelong(orders[order.orderId := order], items + ItemRows(lines, order.orderId, next), next + |lines|)
  {
  }

  lemma CommitKeepsIdsIncreasing(items: seq<OrderItem>, next: int, id: string, lines: seq<OrderItem>)
    requires ItemIdsIncreasing(items)
    requires forall i | 0 <= i < |items| :: items[i].orderItemId < next
    ensures ItemIdsIncreasing(items + ItemRows(lines, id, next))
  {
  }

  // ---------------------------------------------------------------------------
  // Queries

  function IdsOf(s: seq<Order>): set<string> {
    set i | 0 <= i < |s| :: s[i].orderId
  }

  predicate DistinctIds(s: seq<Order>) {
    forall i, j | 0 <= i < j < |s| :: s[i].orderId != s[j].orderId
  }

  /** `ORDER BY created_at DESC`. */
  predicate NewestFirst(s: seq<Order>) {
    forall i, j | 0 <= i < j < |s| :: s[i].createdAt >= s[j].createdAt
  }

  /** Every listed order is the stored row under its id. */
  predicate RowsOf(s: seq<Order>, orders: map<string, Order>) {
    forall i | 0 <= i < |s| :: s[i].orderId in orders && orders[s[i].orderId] == s[i]
  }

  ghost function UserOrderIds(orders: map<string, Order>, userId: uint32): set<string> {
    set id | id in orders && orders[id].userId == userId
  }

  ghost function PendingCreatedBetween(orders: map<string, Order>, from: int, to: int): set<string> {
    set id | id in orders && orders[id].status == Pending && from <= orders[id].createdAt <= to
  }

  /** A pending order created before `cutoff`. */
  predicate TimedOut(o: Order, cutoff: int) {
    o.status == Pending && o.createdAt < cutoff
  }

  ghost function PendingCreatedBefore(orders: map<string, Order>, cutoff: int): set<string> {
    set id | id in orders && TimedOut(orders[id], cutoff)
  }

  /** Visiting one more stored id adds it to the user's ids found so far exactly when the order is the user's. */
  lemma UserIdsOneMore(orders: map<string, Order>, userId: uint32, todo: set<string>, id: string)
    requires id in todo && id in orders
    ensures UserOrderIds(orders, userId) - (todo - {id}) ==
      (UserOrderIds(orders, userId) - todo) + (if orders[id].userId == userId then {id} else {})
  {
  }

  lemma IdsOfSnoc(s: seq<Order>, o: Order)
    ensures IdsOf(s + [o]) == IdsOf(s) + {o.orderId}
  {
    var s' := s + [o];
    forall x | x in IdsOf(s) ensures x in IdsOf(s') {
      var i :| 0 <= i < |s| && s[i].orderId == x;
      assert s'[i] == s[i];
    }
    assert s'[|s|] == o;
  }

  /** A list with distinct ids has exactly one entry per id. */
  lemma {:induction false} DistinctIdsCount(s: seq<Order>)
    requires DistinctIds(s)
    ensures |IdsOf(s)| == |s|
    decreases |s|
  {
    if s == [] {
      assert IdsOf(s) == {};
    } else {
      var p, last := s[..|s| - 1], s[|s| - 1];
      assert p + [last] == s;
      DistinctIdsCount(p);
      IdsOfSnoc(p, last);
    }
  }

  /** `o` placed at position `k` of `list`. */
  function InsertAt(list: seq<Order>, k: nat, o: Order): (r: seq<Order>)
    requires k <= |list|
    ensures |r| == |list| + 1 && r[k] == o
    ensures r[..k] == list[..k] && r[k + 1..] == list[k..]
    ensures multiset(r) == multiset(list) + multiset{o}
  {
    var r := seq(|list| + 1, i requires 0 <= i <= |list| => if i < k then list[i] else if i == k then o else list[i - 1]);
    assert r == list[..k] + [o] + list[k..];
    assert list == list[..k] + list[k..];
    r
  }

  /** Inserting after every order at least as new keeps the list newest first. */
  lemma InsertAtNewestFirst(list: seq<Order>, k: nat, o: Order)
    requires k <= |list| && NewestFirst(list)
    requires forall i | 0 <= i < k :: list[i].createdAt >= o.createdAt
    requires k < |list| ==> list[k].createdAt < o.createdAt
    ensures NewestFirst(InsertAt(list, k, o))
  {
  }

  /** Inserting an order with a new id keeps the ids distinct, adds that id, and keeps the rows stored ones. */
  lemma InsertAtIds(list: seq<Order>, k: nat, o: Order, orders: map<string, Order>)
    requires k <= |list| && DistinctIds(list) && o.orderId !in IdsOf(list)
    requires RowsOf(list, orders) && o.orderId in orders && orders[o.orderId] == o
    ensures DistinctIds(InsertAt(list, k, o))
    ensures IdsOf(InsertAt(list, k, o)) == IdsOf(list) + {o.orderId}
    ensures RowsOf(InsertAt(list, k, o), orders)
  {
    var r := InsertAt(list, k, o);
    forall i, j | 0 <= i < j < |r| ensures r[i].orderId != r[j].orderId {
      if i == k {
        assert list[j - 1].orderId in IdsOf(list);
      } else if j == k {
        assert list[i].orderId in IdsOf(list);
      }
    }
    forall x | x in IdsOf(list) ensures x in IdsOf(r) {
      var i :| 0 <= i < |list| && list[i].orderId == x;
      assert r[if i < k then i else i + 1] == list[i];
    }
  }

  /** The rows `SET order_status = cancelled WHERE order_status = pending AND created_at < cutoff` leaves behind. */
  function CancelPendingBefore(orders: map<string, Order>, cutoff: int, now: int): (r: map<string, Order>)
    ensures r.Keys == orders.Keys
  {
    map id | id in orders :: if TimedOut(orders[id], cutoff) then Apply(orders[id], Cancel, now, "") else orders[id]
  }

  /** The bulk cancel carried out on the rows in `done` only. */
  ghost function CancelPendingAmong(orders: map<string, Order>, done: set<string>, cutoff: int, now: int): map<string, Order>
  {
    map id | id in orders ::
      if id in done && TimedOut(orders[id], cutoff) then Apply(orders[id], Cancel, now, "") else orders[id]
  }

  ghost function PendingCreatedBeforeAmong(orders: map<string, Order>, done: set<string>, cutoff: int): set<string> {
    set id | id in done && id in orders && TimedOut(orders[id], cutoff)
  }

  /** One more row visited by the sweep, which has visited every row outside `todo`. */
  lemma CancelSweepStep(orders: map<string, Order>, todo: set<string>, id: string, cutoff: int, now: int)
    requires id in todo && todo <= orders.Keys
    ensures CancelPendingAmong(orders, orders.Keys - (todo - {id}), cutoff, now) ==
      if TimedOut(orders[id], cutoff)
      then CancelPendingAmong(orders, orders.Keys - todo, cutoff, now)[id := Apply(orders[id], Cancel, now, "")]
      else CancelPendingAmong(orders, orders.Keys - todo, cutoff, now)
    ensures |PendingCreatedBeforeAmong(orders, orders.Keys - (todo - {id}), cutoff)| ==
      |PendingCreatedBeforeAmong(orders, orders.Keys - todo, cutoff)| + if TimedOut(orders[id], cutoff) then 1 else 0
  {
    var done := orders.Keys - todo;
    assert orders.Keys - (todo - {id}) == done + {id};
    CancelOneMore(orders, done, id, cutoff, now);
    CountOneMore(orders, done, id, cutoff);
  }

  lemma CancelOneMore(orders: map<string, Order>, done: set<string>, id: string, cutoff: int, now: int)
    requires id in orders && id !in done
    ensures CancelPendingAmong(orders, done + {id}, cutoff, now) ==
      if TimedOut(orders[id], cutoff)
      then CancelPendingAmong(orders, done, cutoff, now)[id := Apply(orders[id], Cancel, now, "")]
      else CancelPendingAmong(orders, done, cutoff, now)
  {
  }

  lemma CountOneMore(orders: map<string, Order>, done: set<string>, id: string, cutoff: int)
    requires id in orders && id !in done
    ensures |PendingCreatedBeforeAmong(orders, done + {id}, cutoff)| ==
      |PendingCreatedBeforeAmong(orders, done, cutoff)| + if TimedOut(orders[id], cutoff) then 1 else 0
  {
    var before := PendingCreatedBeforeAmong(orders, done, cutoff);
    var after := PendingCreatedBeforeAmong(orders, done + {id}, cutoff);
    if TimedOut(orders[id], cutoff) {
      assert after == before + {id};
    } else {
      assert after == before;
    }
  }

  /** Before the sweep nothing has changed; once it has visited every row it has carried out the whole bulk update. */
  lemma CancelSweepEnds(orders: map<string, Order>, cutoff: int, now: int)
    ensures CancelPendingAmong(orders, orders.Keys - orders.Keys, cutoff, now) == orders
    ensures PendingCreatedBeforeAmong(orders, orders.Keys - orders.Keys, cutoff) == {}
    ensures CancelPendingAmong(orders, orders.Keys - {}, cutoff, now) == CancelPendingBefore(orders, cutoff, now)
    ensures PendingCreatedBeforeAmong(orders, orders.Keys - {}, cutoff) == PendingCreatedBefore(orders, cutoff)
  {
  }

  /**
   * The bulk cancel is the lifecycle's cancel step applied to the timed-out
   * rows: every row keeps its status or takes `Step(status, Cancel)`, and a
   * timed-out row takes that step.
   */
  lemma BulkCancelFollowsStep(orders: map<string, Order>, cutoff: int, now: int)
    ensures var r := CancelPendingBefore(orders, cutoff, now);
      forall id | id in orders ::
        && (r[id].status == orders[id].status || r[id].status == Step(orders[id].status, Cancel))
        && (TimedOut(orders[id], cutoff) ==> r[id].status == Step(orders[id].status, Cancel))
  {
  }

  lemma BulkCancelKeepsInvariant(orders: map<string, Order>, items: seq<OrderItem>, next: int, cutoff: int, now: int)
    requires StoreInvariant(orders, items, next)
    ensures StoreInvariant(CancelPendingBefore(orders, cutoff, now), items, next)
  {
    var orders' := CancelPendingBefore(orders, cutoff, now);
    forall id | id in orders ensures SameOrderData(orders[id], orders'[id]) && WellFormed(orders'[id]) {
      StoredOrder(orders, items, next, id);
    }
    RewriteRowsKeepsInvariant(orders, orders', items, next);
  }

  // ---------------------------------------------------------------------------
  // The store

  class OrderStore {
    var orders: map<string, Order>
    var orderItems: seq<OrderItem>
    var nextItemId: int

    ghost predicate Valid()
      reads this
    {
      StoreInvariant(orders, orderItems, nextItemId)
    }

    constructor ()
      ensures Valid() && orders == map[] && orderItems == []
    {
      orders := map[];
      orderItems := [];
      nextItemId := 1;
    }

    /**
     * Places an order for `userId`. The id comes from the clock reading `clock`
     * and the random draw `r`; `now` stamps `createdAt` and `updatedAt`. On
     * success the order row and one row per item are written together; on any
     * failure neither is. The caller's items are stamped with the order id (and
     * the store's item id) in place, as far as the transaction got.
     */
    method PlaceOrder(userId: uint32, userCurrency: string, address: Address, email: string,
                      items: array<OrderItem>, clock: DateTime, r: nat, now: int, fault: Fault)
      returns (res: Result<Order, Error>)
      requires Valid()
      requires ValidDateTime(clock) && r < 1000
      modifies this, items
      ensures Valid()
      ensures userId == 0 || items.Length == 0 ==>
        res == Failure(InvalidInput) && unchanged(this) && items[..] == old(items[..])
      ensures userId != 0 && items.Length > 0 ==>
        var id := GenerateOrderID(clock, userId, r);
        if Commits(old(orders), id, fault, items.Length) then
          && res.Success?
          && res.value == Order(id, userId, userCurrency, SumCosts(old(items[..])), items.Length, address,
                                email, Pending, "", now, now, None, None, None)
          && orders == old(orders)[id := res.value]
          && orderItems == old(orderItems) + ItemRows(old(items[..]), id, old(nextItemId))
          && nextItemId == old(nextItemId) + items.Length
          && items[..] == ItemRows(old(items[..]), id, old(nextItemId))
        else
          && res == Failure(StoreFailure)
          && unchanged(this)
          && items[..] == StampedBeforeFailure(old(items[..]), id, old(nextItemId),
                                               Reached(old(orders), id, fault, items.Length))
    {
      if userId == 0 {
        return Failure(InvalidInput);
      }
      if items.Length == 0 {
        return Failure(InvalidInput);
      }
      var orderId := GenerateOrderID(clock, userId, r);
      var totalAmount := SumItemCosts(items);
      var order := Order(orderId, userId, userCurrency, totalAmount, items.Length, address,
                         email, Pending, "", now, now, None, None, None);

      // The transaction: the order row first, then each item row; nothing is
      // visible in the tables until every insert has succeeded.
      if orderId in orders || fault == FailsAt(0) {
        assert items[..] == StampedBeforeFailure(old(items[..]), orderId, nextItemId, 0);
        return Failure(StoreFailure);
      }
      var committed := InsertItems(items, orderId, nextItemId, fault);
      if !committed {
        return Failure(StoreFailure);
      }
      if fault == FailsAt(items.Length + 1) {
        // The commit itself fails: nothing reaches the tables, the items keep their stamps.
        return Failure(StoreFailure);
      }
      CommitKeepsInvariant(orders, orderItems, nextItemId, order, old(items[..]));
      orders := orders[orderId := order];
      orderItems := orderItems + items[..];
      nextItemId := nextItemId + items.Length;
      res := Success(order);
    }

    /**
     * Reads one order and its item rows. An empty id is invalid input; a missing
     * id is "not found". The items returned add up to the order's total and count.
     */
    method GetOrder(orderId: string, fault: Fault) returns (res: Result<(Order, seq<OrderItem>), Error>)
      requires Valid()
      ensures orderId == "" ==> res == Failure(InvalidInput)
      ensures orderId != "" && fault == FailsAt(0) ==> res == Failure(StoreFailure)
      ensures orderId != "" && fault != FailsAt(0) && orderId !in orders ==> res == Failure(OrderNotFound)
      ensures orderId != "" && fault != FailsAt(0) && orderId in orders ==>
        res == if fault == FailsAt(1) then Failure(StoreFailure)
               else Success((orders[orderId], ItemsOf(orderItems, orderId)))
      ensures res.Success? ==>
        && res.value.0.orderId == orderId
        && MatchesItems(res.value.0, res.value.1)
        && forall i :: 0 <= i < |res.value.1| ==> res.value.1[i].orderId == orderId
    {
      if orderId == "" {
        return Failure(InvalidInput);
      }
      if fault == FailsAt(0) {
        return Failure(StoreFailure);
      }
      if orderId !in orders {
        return Failure(OrderNotFound);
      }
      var order := orders[orderId];
      if fault == FailsAt(1) {
        return Failure(StoreFailure);
      }
      var found: seq<OrderItem> := [];
      for i := 0 to |orderItems|
        invariant found == ItemsOf(orderItems[..i], orderId)
      {
        assert orderItems[..i + 1][..i] == orderItems[..i];
        if orderItems[i].orderId == orderId {
          found := found + [orderItems[i]];
        }
      }
      assert orderItems[..|orderItems|] == orderItems;
      StoredOrder(orders, orderItems, nextItemId, orderId);
      return Success((order, found));
    }

    /**
     * The orders of one user, newest first. User id 0 is invalid input; a user
     * with no orders gets an empty list.
     */
    method ListOrders(userId: uint32, fault: Fault) returns (res: Result<seq<Order>, Error>)
      requires Valid()
      ensures userId == 0 ==> res == Failure(InvalidInput)
      ensures userId != 0 && fault == FailsAt(0) ==> res == Failure(StoreFailure)
      ensures userId != 0 && fault != FailsAt(0) ==> res.Success?
      ensures res.Success? ==>
        && IdsOf(res.value) == UserOrderIds(orders, userId)
        && |res.value| == |UserOrderIds(orders, userId)|
        && DistinctIds(res.value)
        && NewestFirst(res.value)
        && RowsOf(res.value, orders)
    {
      if userId == 0 {
        return Failure(InvalidInput);
      }
      if fault == FailsAt(0) {
        return Failure(StoreFailure);
      }
      var list: seq<Order> := [];
      var todo := orders.Keys;
      while todo != {}
        invariant todo <= orders.Keys
        invariant IdsOf(list) == UserOrderIds(orders, userId) - todo
        invariant DistinctIds(list) && NewestFirst(list) && RowsOf(list, orders)
        decreases todo
      {
        var id :| id in todo;
        var o := orders[id];
        if o.userId == userId {
          assert o.orderId == id by {
            StoredOrder(orders, orderItems, nextItemId, id);
          }
          list := InsertNewestFirst(list, o, orders);
        }
        UserIdsOneMore(orders, userId, todo, id);
        todo := todo - {id};
      }
      DistinctIdsCount(list);
      return Success(list);
    }

    /** `MarkOrderPaid`: `pending` to `paid`, recording the payment method and `paidAt`. */
    method MarkOrderPaid(orderId: string, paymentMethod: string, now: int, fault: Fault) returns (err: Option<Error>)
      requires Valid()
      modifies this
      ensures Valid()
      ensures orderItems == old(orderItems) && nextItemId == old(nextItemId)
      ensures err == TransitionOutcome(old(orders), orderId, Pay, fault)
      ensures orders == AfterTransition(old(orders), orderId, Pay, now, paymentMethod, fault)
    {
      err := Transition(Pay, orderId, paymentMethod, now, fault);
    }

    /** `ShipOrder`: `paid` to `shipped`, setting `shippedAt`. */
    method ShipOrder(orderId: string, now: int, fault: Fault) returns (err: Option<Error>)
      requires Valid()
      modifies this
      ensures Valid()
      ensures orderItems == old(orderItems) && nextItemId == old(nextItemId)
      ensures err == TransitionOutcome(old(orders), orderId, Ship, fault)
      ensures orders == AfterTransition(old(orders), orderId, Ship, now, "", fault)
    {
      err := Transition(Ship, orderId, "", now, fault);
    }

    /** `DeliverOrder`: `shipped` to `delivered`, setting `deliveredAt`. */
    method DeliverOrder(orderId: string, now: int, fault: Fault) returns (err: Option<Error>)
      requires Valid()
      modifies this
      ensures Valid()
      ensures orderItems == old(orderItems) && nextItemId == old(nextItemId)
      ensures err == TransitionOutcome(old(orders), orderId, Deliver, fault)
      ensures orders == AfterTransition(old(orders), orderId, Deliver, now, "", fault)
    {
      err := Transition(Deliver, orderId, "", now, fault);
    }

    /** `CancelOrder`: `pending` or `paid` to `cancelled`. */
    method CancelOrder(orderId: string, now: int, fault: Fault) returns (err: Option<Error>)
      requires Valid()
      modifies this
      ensures Valid()
      ensures orderItems == old(orderItems) && nextItemId == old(nextItemId)
      ensures err == TransitionOutcome(old(orders), orderId, Cancel, fault)
      ensures orders == AfterTransition(old(orders), orderId, Cancel, now, "", fault)
    {
      err := Transition(Cancel, orderId, "", now, fault);
    }

    /**
     * The body the four transitions share: reject an empty id, run the
     * conditional update, and when it changed no row, count rows with the id.
     */
    method Transition(t: Transition, orderId: string, paymentMethod: string, now: int, fault: Fault)
      returns (err: Option<Error>)
      requires Valid()
      modifies this
      ensures Valid()
      ensures orderItems == old(orderItems) && nextItemId == old(nextItemId)
      ensures err == TransitionOutcome(old(orders), orderId, t, fault)
      ensures orders == AfterTransition(old(orders), orderId, t, now, paymentMethod, fault)
    {
      TransitionKeepsInvariant(orders, orderItems, nextItemId, orderId, t, now, paymentMethod, fault);
      if orderId == "" {
        return Some(InvalidInput);
      }
      if fault == FailsAt(0) {
        return Some(StoreFailure);
      }
      var rowsAffected := UpdateWhereStatusIn(orderId, RequiredPrior(t), t, now, paymentMethod);
      if rowsAffected == 0 {
        // The count's own error is not checked: a failed count leaves it at 0.
        var count := 0;
        if fault != FailsAt(1) {
          count := CountOrders(orderId);
        }
        if count == 0 {
          return Some(OrderNotFound);
        }
        return Some(StatusConflict(t));
      }
      return None;
    }

    /** `UPDATE orders SET ... WHERE order_id = orderId AND order_status IN prior`. */
    method UpdateWhereStatusIn(orderId: string, prior: set<Status>, t: Transition, now: int, paymentMethod: string)
      returns (rowsAffected: nat)
      modifies this
      ensures orderItems == old(orderItems) && nextItemId == old(nextItemId)
      ensures rowsAffected == (if orderId in old(orders) && old(orders)[orderId].status in prior then 1 else 0)
      ensures orders == if rowsAffected == 1
                        then old(orders)[orderId := Apply(old(orders)[orderId], t, now, paymentMethod)]
                        else old(orders)
    {
      rowsAffected := 0;
      if orderId in orders && orders[orderId].status in prior {
        orders := orders[orderId := Apply(orders[orderId], t, now, paymentMethod)];
        rowsAffected := 1;
      }
    }

    /** `SELECT count(*) FROM orders WHERE order_id = orderId`. */
    method CountOrders(orderId: string) returns (count: nat)
      requires Valid()
      ensures count == |RowsWithId(orders, orderId)|
      ensures count <= 1 && (count == 1 <==> orderId in orders)
    {
      RowsWithIdAtMostOne(orders, orderItems, nextItemId, orderId);
      count := if orderId in orders then 1 else 0;
    }

    /**
     * The bulk update of the timeout sweep: every pending order created before
     * `cutoff` becomes cancelled (and gets `updatedAt = now`); the result is the
     * number of rows changed.
     */
    method CancelPendingCreatedBefore(cutoff: int, now: int) returns (rowsAffected: nat)
      requires Valid()
      modifies this
      ensures Valid()
      ensures orderItems == old(orderItems) && nextItemId == old(nextItemId)
      ensures orders == CancelPendingBefore(old(orders), cutoff, now)
      ensures rowsAffected == |PendingCreatedBefore(old(orders), cutoff)|
    {
      BulkCancelKeepsInvariant(orders, orderItems, nextItemId, cutoff, now);
      CancelSweepEnds(orders, cutoff, now);
      ghost var before := orders;
      var todo := orders.Keys;
      rowsAffected := 0;
      while todo != {}
        invariant todo <= before.Keys
        invariant orderItems == old(orderItems) && nextItemId == old(nextItemId)
        invariant orders == CancelPendingAmong(before, before.Keys - todo, cutoff, now)
        invariant rowsAffected == |PendingCreatedBeforeAmong(before, before.Keys - todo, cutoff)|
        decreases todo
      {
        var id :| id in todo;
        CancelSweepStep(before, todo, id, cutoff, now);
        if TimedOut(orders[id], cutoff) {
          orders := orders[id := Apply(orders[id], Cancel, now, "")];
          rowsAffected := rowsAffected + 1;
        }
        todo := todo - {id};
      }
    }

    /** `SELECT * FROM orders WHERE order_status = pending AND created_at BETWEEN from AND to`, in no fixed order. */
    method FindPendingCreatedBetween(from: int, to: int) returns (found: seq<Order>)
      requires Valid()
      ensures IdsOf(found) == PendingCreatedBetween(orders, from, to)
      ensures DistinctIds(found) && RowsOf(found, orders)
    {
      found := [];
      var todo := orders.Keys;
      while todo != {}
        invariant todo <= orders.Keys
        invariant IdsOf(found) == PendingCreatedBetween(orders, from, to) - todo
        invariant DistinctIds(found) && RowsOf(found, orders)
        decreases todo
      {
        var id :| id in todo;
        var o := orders[id];
        if o.status == Pending && from <= o.createdAt <= to {
          assert o.orderId == id by {
            StoredOrder(orders, orderItems, nextItemId, id);
          }
          assert o.orderId !in IdsOf(found);
          IdsOfSnoc(found, o);
          found := found + [o];
        }
        todo := todo - {id};
      }
    }
  }

  /** The order total: the sum of the items' costs. */
  method SumItemCosts(items: array<OrderItem>) returns (total: int)
    ensures total == SumCosts(items[..])
  {
    total := 0;
    for i := 0 to items.Length
      invariant total == SumCosts(items[..i])
    {
      assert items[..i + 1][..i] == items[..i];
      total := total + items[i].cost;
    }
    assert items[..items.Length] == items[..];
  }

  /**
   * The item inserts of the transaction, after the order row: each item is
   * stamped with the order id, then inserted, and on success receives the next
   * item id. Call k of `fault` (k >= 1) is the insert of the k-th item; the
   * first failing insert ends the loop.
   */
  method InsertItems(items: array<OrderItem>, orderId: string, firstItemId: int, fault: Fault) returns (committed: bool)
    requires fault != FailsAt(0)
    modifies items
    ensures committed <==> fault.Healthy? || fault.call > items.Length
    ensures committed ==> items[..] == ItemRows(old(items[..]), orderId, firstItemId)
    ensures !committed ==> items[..] == StampedBeforeFailure(old(items[..]), orderId, firstItemId, fault.call)
  {
    var i := 0;
    while i < items.Length
      invariant 0 <= i <= items.Length
      invariant fault.Healthy? || fault.call > i
      invariant forall j :: 0 <= j < i ==> items[j] == old(items[j]).(orderId := orderId, orderItemId := firstItemId + j)
      invariant forall j :: i <= j < items.Length ==> items[j] == old(items[j])
    {
      items[i] := items[i].(orderId := orderId);
      if fault == FailsAt(i + 1) {
        StampedUpTo(old(items[..]), items[..], orderId, firstItemId, i);
        return false;
      }
      items[i] := items[i].(orderItemId := firstItemId + i);
      i := i + 1;
    }
    AllStamped(old(items[..]), items[..], orderId, firstItemId);
    return true;
  }

  /** Items stamped one by one, each with the order id and the next item id, are the committed rows. */
  lemma AllStamped(before: seq<OrderItem>, after: seq<OrderItem>, orderId: string, firstItemId: int)
    requires |after| == |before|
    requires forall j :: 0 <= j < |before| ==> after[j] == before[j].(orderId := orderId, orderItemId := firstItemId + j)
    ensures after == ItemRows(before, orderId, firstItemId)
  {
  }

  /** The items when the insert of item `i` fails: those before it written, item `i` stamped only, the rest untouched. */
  lemma StampedUpTo(before: seq<OrderItem>, after: seq<OrderItem>, orderId: string, firstItemId: int, i: nat)
    requires |after| == |before| && i < |before|
    requires forall j :: 0 <= j < i ==> after[j] == before[j].(orderId := orderId, orderItemId := firstItemId + j)
    requires after[i] == before[i].(orderId := orderId)
    requires forall j :: i < j < |before| ==> after[j] == before[j]
    ensures after == StampedBeforeFailure(before, orderId, firstItemId, i + 1)
  {
  }

  /** Inserts `o` after every order at least as new, keeping the list newest first. */
  method InsertNewestFirst(list: seq<Order>, o: Order, ghost orders: map<string, Order>) returns (r: seq<Order>)
    requires NewestFirst(list) && DistinctIds(list) && o.orderId !in IdsOf(list)
    requires RowsOf(list, orders) && o.orderId in orders && orders[o.orderId] == o
    ensures NewestFirst(r) && DistinctIds(r) && RowsOf(r, orders)
    ensures IdsOf(r) == IdsOf(list) + {o.orderId}
  {
    var k := 0;
    while k < |list| && list[k].createdAt >= o.createdAt
      invariant 0 <= k <= |list|
      invariant forall i :: 0 <= i < k ==> list[i].createdAt >= o.createdAt
    {
      k := k + 1;
    }
    InsertAtNewestFirst(list, k, o);
    InsertAtIds(list, k, o, orders);
    r := InsertAt(list, k, o);
  }
}
