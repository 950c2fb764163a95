/** The order and refund tables, and the three transactions that the durable workflows run over them. */
module Orders {
  import opened Base
  import Identifiers

  datatype Status = Pending | Paid | Processing | Shipped | Delivered | Cancelled | Refunded

  const CANCELLABLE: set<Status> := {Pending, Paid, Processing, Shipped}

  /** Amounts are NUMERIC(10, 2) values, counted in cents. */
  const AMOUNT_LIMIT: int := 10_000_000_000

  datatype Order = Order(owner: string, sku: string, quantity: int, status: Status)

  datatype RefundRow = RefundRow(orderId: nat, amount: int, reason: string, key: string)

  /** Committed contents of the tables `products` (sku to price), `orders` (by id) and `refunds`. */
  datatype Tables = Tables(products: map<string, int>, orders: map<nat, Order>, refunds: seq<RefundRow>)

  /** The constraints that the CREATE TABLE statements declare. */
  ghost predicate Schema(t: Tables)
  {
    && (forall s | s in t.products :: 0 < t.products[s])
    && (forall n | n in t.orders :: t.orders[n].sku in t.products && 1 <= t.orders[n].quantity <= 10)
    && (forall i | 0 <= i < |t.refunds| ::
          t.refunds[i].orderId in t.orders && 0 < t.refunds[i].amount < AMOUNT_LIMIT)
    && (forall i, j | 0 <= i < j < |t.refunds| ::
          t.refunds[i].orderId != t.refunds[j].orderId && t.refunds[i].key != t.refunds[j].key)
  }

  /** `p.price * o.quantity`. */
  function Total(products: map<string, int>, order: Order): (cents: int)
  {
    if order.sku in products then products[order.sku] * order.quantity else 0
  }

  predicate HasRefund(rows: seq<RefundRow>, n: nat)
  {
    exists i :: 0 <= i < |rows| && rows[i].orderId == n
  }

  /** The first matching row of `SELECT amount FROM refunds WHERE order_id = n`. */
  function FindRefund(rows: seq<RefundRow>, n: nat): (row: Option<RefundRow>)
    ensures row.Some? <==> HasRefund(rows, n)
    ensures row.Some? ==> row.value in rows && row.value.orderId == n
  {
    if rows == [] then None
    else if rows[0].orderId == n then Some(rows[0])
    else
      assert forall i :: 0 <= i < |rows[1..]| ==> rows[1..][i] == rows[i + 1];
      FindRefund(rows[1..], n)
  }

  /** The row is visible to this customer: `WHERE id = n AND customer_id = customer`. */
  predicate Owned(orders: map<nat, Order>, n: nat, customer: string)
  {
    n in orders && orders[n].owner == customer
  }

  datatype CancelReason =
    | OrderNotFound | OrderCancelled | AlreadyCancelled | DeliveredOrder | RefundedOrder | StatusNotCancellable

  datatype CancelResult = CancelResult(
    found: bool, orderId: string, cancelled: bool,
    status: Option<Status>, previous: Option<Status>, reason: CancelReason)

  datatype RefundReason = AlreadyRefunded | OrderNotDelivered

  datatype RefundResult = RefundResult(
    id: nat, status: Status, amount: int, refunded: bool, reason: Option<RefundReason>)

  datatype OrderTotal = OrderTotal(id: nat, status: Status, total: int)

  /** `CANCELLATION_REJECTION_REASONS.get(status, "status_not_cancellable")`. */
  function RejectionReason(status: Status): (reason: CancelReason)
  {
    match status
    case Cancelled => AlreadyCancelled
    case Delivered => DeliveredOrder
    case Refunded => RefundedOrder
    case _ => StatusNotCancellable
  }

  /** What a transaction returns; `Raised` is a database error, after which it has been rolled back. */
  datatype Reply =
    | CancelReply(cancel: CancelResult)
    | RefundReply(refund: Option<RefundResult>)
    | LoadReply(order: Option<OrderTotal>)
    | Raised

  datatype Call =
    | CancelCall(n: nat, customer: string)
    | RefundCall(n: nat, customer: string, reason: string, key: string)
    | LoadCall(n: nat, customer: string)

  function CancelMissing(n: nat): (r: CancelResult)
  {
    CancelResult(false, Identifiers.OrderId(n), false, None, None, OrderNotFound)
  }

  function CancelRefused(n: nat, status: Status): (r: CancelResult)
  {
    CancelResult(true, Identifiers.OrderId(n), false, Some(status), Some(status), RejectionReason(status))
  }

  function CancelDone(n: nat, previous: Status): (r: CancelResult)
  {
    CancelResult(true, Identifiers.OrderId(n), true, Some(Cancelled), Some(previous), OrderCancelled)
  }

  function WithStatus(orders: map<nat, Order>, n: nat, status: Status): (r: map<nat, Order>)
    requires n in orders
  {
    orders[n := orders[n].(status := status)]
  }

  /** The refunds table accepts this row: both UNIQUE constraints, the foreign key and the amount's CHECK and width. */
  predicate Insertable(t: Tables, row: RefundRow)
  {
    && row.orderId in t.orders && 0 < row.amount < AMOUNT_LIMIT
    && forall i | 0 <= i < |t.refunds| :: t.refunds[i].orderId != row.orderId && t.refunds[i].key != row.key
  }

  /** A transaction as one atomic step: the tables it commits and the reply it gives. */
  function Atomic(t: Tables, call: Call): (r: (Tables, Reply))
  {
    var n, customer := call.n, call.customer;
    match call
    case CancelCall(_, _) =>
      if !Owned(t.orders, n, customer) then (t, CancelReply(CancelMissing(n)))
      else
        var status := t.orders[n].status;
        if status !in CANCELLABLE then (t, CancelReply(CancelRefused(n, status)))
        else (t.(orders := WithStatus(t.orders, n, Cancelled)), CancelReply(CancelDone(n, status)))
    case RefundCall(_, _, reason, key) =>
      if !Owned(t.orders, n, customer) then (t, RefundReply(None))
      else
        var order := t.orders[n];
        var total := Total(t.products, order);
        (match FindRefund(t.refunds, n)
        case Some(row) =>
          (t, RefundReply(Some(RefundResult(n, Refunded, row.amount, false, Some(AlreadyRefunded)))))
        case None =>
          var row := RefundRow(n, total, reason, key);
          if order.status != Delivered then
            (t, RefundReply(Some(RefundResult(n, order.status, total, false, Some(OrderNotDelivered)))))
          else if !Insertable(t, row) then (t, Raised)
          else
            (t.(orders := WithStatus(t.orders, n, Refunded), refunds := t.refunds + [row]),
             RefundReply(Some(RefundResult(n, Refunded, total, true, None)))))
    case LoadCall(_, _) =>
      if !Owned(t.orders, n, customer) then (t, LoadReply(None))
      else (t, LoadReply(Some(OrderTotal(n, t.orders[n].status, Total(t.products, t.orders[n])))))
  }

  /** Orders move along one line and never leave it by fulfilment. No application code takes these steps. */
  function FulfilNext(status: Status): (next: Option<Status>)
  {
    match status
    case Pending => Some(Paid)
    case Paid => Some(Processing)
    case Processing => Some(Shipped)
    case Shipped => Some(Delivered)
    case _ => None
  }

  function Fulfil(t: Tables, n: nat): (r: Tables)
  {
    if n in t.orders && FulfilNext(t.orders[n].status).Some?
    then t.(orders := WithStatus(t.orders, n, FulfilNext(t.orders[n].status).value)) else t
  }

  /** `create_order_row`, with the id the table generates; a CHECK on quantity or an unknown sku leaves no row. */
  function Place(t: Tables, n: nat, customer: string, sku: string, quantity: int): (r: Tables)
  {
    if n !in t.orders && sku in t.products && 1 <= quantity <= 10
    then t.(orders := t.orders[n := Order(customer, sku, quantity, Pending)]) else t
  }
}

/** The same transactions as methods that change the tables statement by statement. */
module Database {
  import opened Base
  import opened Orders

  class Database {
    const products: map<string, int>
    var orders: map<nat, Order>
    var refunds: seq<RefundRow>

    constructor (t: Tables)
      ensures Rows() == t
    {
      products, orders, refunds := t.products, t.orders, t.refunds;
    }

    ghost function Rows(): (t: Tables)
      reads this
    {
      Tables(products, orders, refunds)
    }

    method GetRefundOrderRow(n: nat, customer: string) returns (row: Option<OrderTotal>)
      ensures Atomic(Rows(), LoadCall(n, customer)) == (Rows(), LoadReply(row))
    {
      if Owned(orders, n, customer) {
        row := Some(OrderTotal(n, orders[n].status, Total(products, orders[n])));
      } else {
        row := None;
      }
    }

    method CancelOrderRow(n: nat, customer: string) returns (result: CancelResult)
      modifies this
      ensures Atomic(old(Rows()), CancelCall(n, customer)) == (Rows(), CancelReply(result))
    {
      if !Owned(orders, n, customer) {
        return CancelMissing(n);
      }
      var previous := orders[n].status;
      if previous !in CANCELLABLE {
        return CancelRefused(n, previous);
      }
      orders := WithStatus(orders, n, Cancelled);
      result := CancelDone(n, previous);
    }

    /** The INSERT statement; false when a constraint rejects the row. */
    method InsertRefund(row: RefundRow) returns (ok: bool)
      modifies this`refunds
      ensures ok <==> Insertable(old(Rows()), row)
      ensures refunds == if ok then old(refunds) + [row] else old(refunds)
    {
      ok := row.orderId in orders && 0 < row.amount < AMOUNT_LIMIT;
      var i := 0;
      while ok && i < |refunds|
        invariant i <= |refunds|
        invariant ok ==> row.orderId in orders && 0 < row.amount < AMOUNT_LIMIT
        invariant ok ==> forall j | 0 <= j < i :: refunds[j].orderId != row.orderId && refunds[j].key != row.key
        invariant !ok ==> !Insertable(Rows(), row)
      {
        ok := refunds[i].orderId != row.orderId && refunds[i].key != row.key;
        i := i + 1;
      }
      if ok {
        refunds := refunds + [row];
      }
    }

    method RefundOrderRow(n: nat, customer: string, reason: string, key: string) returns (reply: Reply)
      modifies this
      ensures Atomic(old(Rows()), RefundCall(n, customer, reason, key)) == (Rows(), reply)
    {
      if !Owned(orders, n, customer) {
        return RefundReply(None);
      }
      var order, total := orders[n], Total(products, orders[n]);
      var existing := FindRefund(refunds, n);
      if existing.Some? {
        return RefundReply(Some(RefundResult(n, Refunded, existing.value.amount, false, Some(AlreadyRefunded))));
      }
      if order.status != Delivered {
        return RefundReply(Some(RefundResult(n, order.status, total, false, Some(OrderNotDelivered))));
      }
      var ok := InsertRefund(RefundRow(n, total, reason, key));
      if !ok {
        return Raised;
      }
      orders := WithStatus(orders, n, Refunded);
      reply := RefundReply(Some(RefundResult(n, Refunded, total, true, None)));
    }
  }
}
