/**
 * The order data model: the closed set of order statuses, the `orders` row and
 * the `order_items` row. Money columns are `decimal(10,2)` in the store and are
 * kept here as integer cents; timestamps are integer seconds.
 */
module OrderModel {

  datatype Option<+T> = None | Some(value: T)

  datatype Result<+R, +E> = Success(value: R) | Failure(error: E)

  /** An unsigned 32-bit integer, the type of user and product ids. */
  type uint32 = x: int | 0 <= x < 0x1_0000_0000

  /** The six values the `order_status` column takes. */
  datatype Status = Pending | Paid | Shipped | Delivered | Cancelled | Refunded

  /** The string stored in the `order_status` column for each status. */
  function StatusName(s: Status): (name: string)
    ensures ParseStatus(name) == Some(s)
  {
    match s
    case Pending => "pending"
    case Paid => "paid"
    case Shipped => "shipped"
    case Delivered => "delivered"
    case Cancelled => "cancelled"
    case Refunded => "refunded"
  }

  /** Reads an `order_status` column value back; any other string is not a status. */
  function ParseStatus(name: string): (r: Option<Status>)
  {
    if name == "pending" then Some(Pending)
    else if name == "paid" then Some(Paid)
    else if name == "shipped" then Some(Shipped)
    else if name == "delivered" then Some(Delivered)
    else if name == "cancelled" then Some(Cancelled)
    else if name == "refunded" then Some(Refunded)
    else None
  }

  /**
   * The six names are pairwise distinct, and a column value that reads back as
   * a status is that status's name.
   */
  lemma StatusNamesDistinct(s: Status, t: Status, name: string)
    ensures StatusName(s) == StatusName(t) <==> s == t
    ensures ParseStatus(name).Some? ==> StatusName(ParseStatus(name).value) == name
  {
  }

  /** The shipping address copied into the order row. */
  datatype Address = Address(streetAddress: string, city: string, state: string, country: string, zipCode: int)

  /**
   * One `orders` row. `orderId` is the primary key. `paidAt`, `shippedAt` and
   * `deliveredAt` are null (None) until the matching transition sets them.
   */
  datatype Order = Order(
    orderId: string,
    userId: uint32,
    userCurrency: string,
    totalAmount: int,
    itemCount: int,
    address: Address,
    email: string,
    status: Status,
    paymentMethod: string,
    createdAt: int,
    updatedAt: int,
    paidAt: Option<int>,
    shippedAt: Option<int>,
    deliveredAt: Option<int>)

  /**
   * One `order_items` row. It belongs to its order only through `orderId`;
   * `orderItemId` is assigned by the store (auto-increment primary key).
   */
  datatype OrderItem = OrderItem(
    orderItemId: int,
    orderId: string,
    productId: uint32,
    productName: string,
    quantity: int,
    unitPrice: int,
    cost: int)

  const OrdersTable: string := "orders"
  const OrderItemsTable: string := "order_items"

  /**
   * The shape every stored order keeps: nothing produces `refunded`, and each
   * transition timestamp is set exactly when the order has been through that
   * transition.
   */
  predicate WellFormed(o: Order) {
    && o.orderId != ""
    && o.status != Refunded
    && (o.status == Pending ==> o.paidAt.None? && o.paymentMethod == "")
    && (o.status in {Paid, Shipped, Delivered} ==> o.paidAt.Some?)
    && (o.shippedAt.Some? <==> o.status in {Shipped, Delivered})
    && (o.deliveredAt.Some? <==> o.status == Delivered)
  }

  /**
   * The columns a status transition never touches: identity, owner, money,
   * address, contact and creation time.
   */
  predicate SameOrderData(o: Order, o': Order) {
    && o'.orderId == o.orderId
    && o'.userId == o.userId
    && o'.userCurrency == o.userCurrency
    && o'.totalAmount == o.totalAmount
    && o'.itemCount == o.itemCount
    && o'.address == o.address
    && o'.email == o.email
    && o'.createdAt == o.createdAt
  }

  /** The columns an item row keeps when it is written: product, quantity and money. */
  predicate SameItemData(a: OrderItem, b: OrderItem) {
    && b.productId == a.productId
    && b.productName == a.productName
    && b.quantity == a.quantity
    && b.unitPrice == a.unitPrice
    && b.cost == a.cost
  }

  /** The sum of the `cost` column over some item rows. */
  function SumCosts(items: seq<OrderItem>): int
  {
    if items == [] then 0 else SumCosts(items[..|items| - 1]) + items[|items| - 1].cost
  }

  /** The item rows that belong to `orderId`, in store order. */
  function ItemsOf(items: seq<OrderItem>, orderId: string): (r: seq<OrderItem>)
    ensures |r| <= |items|
    ensures forall i :: 0 <= i < |r| ==> r[i].orderId == orderId
  {
    if items == [] then []
    else
      var last := items[|items| - 1];
      var r := ItemsOf(items[..|items| - 1], orderId);
      if last.orderId == orderId then r + [last] else r
  }

  /** Two item lists with the same costs, position by position, cost the same. */
  lemma {:induction false} SumCostsSameCosts(a: seq<OrderItem>, b: seq<OrderItem>)
    requires |a| == |b|
    requires forall i :: 0 <= i < |a| ==> a[i].cost == b[i].cost
    ensures SumCosts(a) == SumCosts(b)
    decreases |a|
  {
    if a != [] {
      SumCostsSameCosts(a[..|a| - 1], b[..|b| - 1]);
    }
  }

  lemma {:induction false} ItemsOfAppend(a: seq<OrderItem>, b: seq<OrderItem>, orderId: string)
    ensures ItemsOf(a + b, orderId) == ItemsOf(a, orderId) + ItemsOf(b, orderId)
    decreases |b|
  {
    if b != [] {
      assert (a + b)[..|a + b| - 1] == a + b[..|b| - 1];
      ItemsOfAppend(a, b[..|b| - 1], orderId);
    } else {
      assert a + b == a;
    }
  }

  /** Filtering keeps every row when all rows belong to the order, and none when none does. */
  lemma {:induction false} ItemsOfUniform(items: seq<OrderItem>, orderId: string)
    ensures (forall i :: 0 <= i < |items| ==> items[i].orderId == orderId) ==> ItemsOf(items, orderId) == items
    ensures (forall i :: 0 <= i < |items| ==> items[i].orderId != orderId) ==> ItemsOf(items, orderId) == []
    decreases |items|
  {
    if items != [] {
      ItemsOfUniform(items[..|items| - 1], orderId);
      assert items[..|items| - 1] + [items[|items| - 1]] == items;
    }
  }
}
