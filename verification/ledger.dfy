/** What every transaction and every fulfilment step keeps true of the tables. */
module Ledger {
  import opened Base
  import opened Orders
  import Identifiers

  /** An operation on the tables: a transaction of the application, or a step of the shop around it. */
  datatype Op =
    | Transaction(call: Call)
    | Fulfilment(n: nat)
    | Placement(n: nat, customer: string, sku: string, quantity: int)

  function Apply(t: Tables, op: Op): (r: Tables)
  {
    match op
    case Transaction(call) => Atomic(t, call).0
    case Fulfilment(n) => Fulfil(t, n)
    case Placement(n, customer, sku, quantity) => Place(t, n, customer, sku, quantity)
  }

  /** The tables agree with each other. `seeded` are the orders whose status was `refunded` from the start,
      without a refund row. */
  ghost predicate Consistent(t: Tables, seeded: set<nat>)
  {
    && Schema(t)
    && (forall n | n in seeded :: n in t.orders && !HasRefund(t.refunds, n))
    && (forall n | n in t.orders :: t.orders[n].status == Refunded <==> n in seeded || HasRefund(t.refunds, n))
    && (forall i | 0 <= i < |t.refunds| ::
          t.refunds[i].amount == Total(t.products, t.orders[t.refunds[i].orderId]))
  }

  /** A database as `initialize_database` leaves it: any orders in any status, no refund rows. */
  ghost predicate Initial(t: Tables)
  {
    Schema(t) && t.refunds == []
  }

  ghost function SeededRefunds(t: Tables): (s: set<nat>)
  {
    set n | n in t.orders && t.orders[n].status == Refunded
  }

  lemma InitialIsConsistent(t: Tables)
    requires Initial(t)
    ensures Consistent(t, SeededRefunds(t))
  {
  }

  function Rank(status: Status): (r: nat)
  {
    match status
    case Pending => 0 case Paid => 1 case Processing => 2 case Shipped => 3
    case Delivered => 4 case Refunded => 5 case Cancelled => 6
  }

  /** The statuses that an order can ever reach from a given one. */
  predicate Reaches(from: Status, to: Status)
  {
    || from == to
    || (from in CANCELLABLE && to == Cancelled)
    || (to != Cancelled && Rank(from) < Rank(to) && from !in {Cancelled, Refunded})
  }

  /** How the tables can change: rows are never lost, and nothing but an order's status ever changes, forwards. */
  ghost predicate Evolves(t: Tables, u: Tables)
  {
    && u.products == t.products
    && t.refunds <= u.refunds
    && (forall n | n in t.orders :: n in u.orders
          && u.orders[n].owner == t.orders[n].owner
          && u.orders[n].sku == t.orders[n].sku
          && u.orders[n].quantity == t.orders[n].quantity
          && Reaches(t.orders[n].status, u.orders[n].status))
  }

  lemma EvolvesTransitive(t: Tables, u: Tables, v: Tables)
    requires Evolves(t, u) && Evolves(u, v)
    ensures Evolves(t, v)
  {
  }

  lemma HasRefundSnoc(rows: seq<RefundRow>, row: RefundRow, n: nat)
    ensures HasRefund(rows + [row], n) <==> HasRefund(rows, n) || row.orderId == n
  {
    var all := rows + [row];
    if row.orderId == n {
      assert all[|rows|].orderId == n;
    }
    if i :| 0 <= i < |rows| && rows[i].orderId == n {
      assert all[i].orderId == n;
    }
  }

  /** The heart of the ledger: a committed refund moves its order to `refunded` and adds one row with its total. */
  lemma RefundKeepsConsistent(t: Tables, seeded: set<nat>, row: RefundRow)
    requires Consistent(t, seeded) && Insertable(t, row)
    requires t.orders[row.orderId].status == Delivered
    requires row.amount == Total(t.products, t.orders[row.orderId])
    ensures Consistent(t.(orders := WithStatus(t.orders, row.orderId, Refunded), refunds := t.refunds + [row]), seeded)
  {
    var n := row.orderId;
    var u := t.(orders := WithStatus(t.orders, n, Refunded), refunds := t.refunds + [row]);
    forall m | m in u.orders
      ensures u.orders[m].status == Refunded <==> m in seeded || HasRefund(u.refunds, m)
    {
      HasRefundSnoc(t.refunds, row, m);
    }
    forall m | m in seeded
      ensures m in u.orders && !HasRefund(u.refunds, m)
    {
      HasRefundSnoc(t.refunds, row, m);
    }
  }

  lemma StatusChangeKeepsConsistent(t: Tables, seeded: set<nat>, n: nat, status: Status)
    requires Consistent(t, seeded) && n in t.orders && t.orders[n].status != Refunded && status != Refunded
    ensures Consistent(t.(orders := WithStatus(t.orders, n, status)), seeded)
  {
    var u := t.(orders := WithStatus(t.orders, n, status));
    assert forall m | m in u.orders :: Total(u.products, u.orders[m]) == Total(t.products, t.orders[m]);
  }

  lemma PlacementKeepsConsistent(t: Tables, seeded: set<nat>, n: nat, order: Order)
    requires Consistent(t, seeded) && n !in t.orders && order.status == Pending
    requires order.sku in t.products && 1 <= order.quantity <= 10
    ensures Consistent(t.(orders := t.orders[n := order]), seeded)
  {
    assert !HasRefund(t.refunds, n);
  }

  /** Every operation keeps the tables consistent. */
  lemma ApplyKeepsConsistent(t: Tables, op: Op, seeded: set<nat>)
    requires Consistent(t, seeded)
    ensures Consistent(Apply(t, op), seeded)
  {
    if Apply(t, op) != t {
      match op
      case Fulfilment(n) => StatusChangeKeepsConsistent(t, seeded, n, FulfilNext(t.orders[n].status).value);
      case Placement(n, customer, sku, quantity) =>
        PlacementKeepsConsistent(t, seeded, n, Order(customer, sku, quantity, Pending));
      case Transaction(call) =>
        if call.RefundCall? {
          var row := RefundRow(call.n, Total(t.products, t.orders[call.n]), call.reason, call.key);
          RefundKeepsConsistent(t, seeded, row);
        } else {
          StatusChangeKeepsConsistent(t, seeded, call.n, Cancelled);
        }
    }
  }

  /** Every operation only moves the tables forward. */
  lemma ApplyEvolves(t: Tables, op: Op)
    ensures Evolves(t, Apply(t, op))
  {
  }

  const LINE: seq<Status> := [Pending, Paid, Processing, Shipped, Delivered]

  function FulfilTimes(t: Tables, n: nat, k: nat): (r: Tables)
  {
    if k == 0 then t else Apply(FulfilTimes(t, n, k - 1), Fulfilment(n))
  }

  /** A pending order that is fulfilled step by step goes through the whole line, stays delivered at its end, and no
      other row changes. */
  lemma {:induction false} FulfilmentDelivers(t: Tables, n: nat, k: nat)
    requires n in t.orders && t.orders[n].status == Pending
    ensures FulfilTimes(t, n, k)
      == t.(orders := t.orders[n := t.orders[n].(status := if k < 4 then LINE[k] else Delivered)])
  {
    if k > 0 {
      FulfilmentDelivers(t, n, k - 1);
    }
  }

  /** An order that is placed is there, pending and the customer's, exactly if its id is new, its product is known and
      its quantity is from 1 to 10; otherwise the tables are as they were. */
  lemma PlacedExactlyWhen(t: Tables, n: nat, customer: string, sku: string, quantity: int)
    ensures
      var u := Apply(t, Placement(n, customer, sku, quantity));
      && (u != t <==> n !in t.orders && sku in t.products && 1 <= quantity <= 10)
      && (u != t ==> u == t.(orders := t.orders[n := Order(customer, sku, quantity, Pending)]))
  {
    var u := Apply(t, Placement(n, customer, sku, quantity));
    assert u != t ==> n in u.orders;
    assert n !in t.orders && n in u.orders ==> u != t;
  }

  /** Only the owner's own request changes an order, and only to the status that the request asks for. */
  lemma OnlyTheOwnerChangesAnOrder(t: Tables, call: Call, n: nat)
    requires n in t.orders
    ensures n in Atomic(t, call).0.orders
    ensures Atomic(t, call).0.orders[n] != t.orders[n] ==>
              && n == call.n && t.orders[n].owner == call.customer
              && (|| (call.CancelCall? && t.orders[n].status in CANCELLABLE
                      && Atomic(t, call).0.orders[n].status == Cancelled)
                  || (call.RefundCall? && t.orders[n].status == Delivered
                      && Atomic(t, call).0.orders[n].status == Refunded))
  {
  }

  /** What a transaction tells the owner of an order is what it found and what it left: the status before and after, the
      amount that is on record, and whether anything changed. */
  lemma ReplyDescribesTheTables(t: Tables, seeded: set<nat>, call: Call)
    requires Consistent(t, seeded) && Owned(t.orders, call.n, call.customer)
    ensures
      var (u, reply) := Atomic(t, call);
      var n := call.n;
      && n in u.orders
      && match reply
         case CancelReply(c) =>
           && c.found && c.orderId == Identifiers.OrderId(n)
           && c.previous == Some(t.orders[n].status) && c.status == Some(u.orders[n].status)
           && (c.cancelled <==> u != t) && (c.cancelled <==> c.reason == OrderCancelled)
           && (t.orders[n].status == Cancelled <==> c.reason == AlreadyCancelled)
           && (t.orders[n].status == Delivered <==> c.reason == DeliveredOrder)
           && (t.orders[n].status == Refunded <==> c.reason == RefundedOrder)
         case RefundReply(refund) =>
           && refund.Some? && refund.value.id == n && refund.value.status == u.orders[n].status
           && (refund.value.refunded <==> u != t) && (refund.value.refunded <==> refund.value.reason == None)
           && refund.value.amount == t.products[t.orders[n].sku] * t.orders[n].quantity
           && (refund.value.reason == Some(AlreadyRefunded) <==> HasRefund(t.refunds, n))
           && (HasRefund(u.refunds, n) <==> HasRefund(t.refunds, n) || refund.value.refunded)
         case LoadReply(order) =>
           && u == t
           && order == Some(OrderTotal(n, t.orders[n].status, t.products[t.orders[n].sku] * t.orders[n].quantity))
         case Raised =>
           u == t && call.RefundCall?
  {
    var n := call.n;
    if call.RefundCall? {
      HasRefundSnoc(t.refunds, RefundRow(n, Total(t.products, t.orders[n]), call.reason, call.key), n);
    }
  }

  /** Exactly what a refund that is paid writes: one row more, with price times quantity, the reason and the key that
      were given, and the status of this one order, which was the caller's and delivered. */
  lemma RefundAddsItsRow(t: Tables, seeded: set<nat>, n: nat, customer: string, reason: string, key: string)
    requires Consistent(t, seeded)
    ensures
      var (u, reply) := Atomic(t, RefundCall(n, customer, reason, key));
      u != t ==>
        && n in t.orders && t.orders[n].owner == customer && t.orders[n].status == Delivered
        && u.products == t.products
        && u.refunds == t.refunds + [RefundRow(n, t.products[t.orders[n].sku] * t.orders[n].quantity, reason, key)]
        && u.orders == t.orders[n := t.orders[n].(status := Refunded)]
        && reply.RefundReply? && reply.refund.Some? && reply.refund.value.refunded
  {
  }

  /** A cancellation cancels exactly the caller's own orders that have not been delivered and are not closed; and
      after it the order is the caller's and cancelled exactly if before it was the caller's, and cancellable or
      cancelled. */
  lemma CancelSucceedsExactlyWhen(t: Tables, n: nat, customer: string)
    ensures
      var (u, reply) := Atomic(t, CancelCall(n, customer));
      && reply.CancelReply?
      && (reply.cancel.found <==> n in t.orders && t.orders[n].owner == customer)
      && (reply.cancel.cancelled <==>
            n in t.orders && t.orders[n].owner == customer
            && t.orders[n].status !in {Delivered, Cancelled, Refunded})
      && (reply.cancel.cancelled ==> u == t.(orders := t.orders[n := t.orders[n].(status := Cancelled)]))
      && (!reply.cancel.found ==>
            reply.cancel == CancelResult(false, Identifiers.OrderId(n), false, None, None, OrderNotFound))
      && (reply.cancel.cancelled <==> u != t)
      && (Owned(u.orders, n, customer) && u.orders[n].status == Cancelled <==>
            Owned(t.orders, n, customer) && t.orders[n].status in CANCELLABLE + {Cancelled})
  {
    if Owned(t.orders, n, customer) && t.orders[n].status in CANCELLABLE {
      assert WithStatus(t.orders, n, Cancelled)[n].status != t.orders[n].status;
    }
  }

  /** The rows carry the keys that the workflows send. */
  ghost predicate KeysMatch(t: Tables)
  {
    forall i | 0 <= i < |t.refunds| :: t.refunds[i].key == Identifiers.IdempotencyKey(t.refunds[i].orderId)
  }

  /** The UNIQUE key never rejects another order: a delivered order of the caller without a row is refunded exactly
      when its total fits the amount column. */
  lemma RefundSucceedsExactlyWhen(t: Tables, seeded: set<nat>, n: nat, customer: string, reason: string)
    requires Consistent(t, seeded) && KeysMatch(t)
    ensures
      var reply := Atomic(t, RefundCall(n, customer, reason, Identifiers.IdempotencyKey(n))).1;
      (reply.RefundReply? && reply.refund.Some? && reply.refund.value.refunded) <==>
        (n in t.orders && t.orders[n].owner == customer && t.orders[n].status == Delivered
         && t.products[t.orders[n].sku] * t.orders[n].quantity < 10_000_000_000)
  {
    if Owned(t.orders, n, customer) && t.orders[n].status == Delivered {
      var row := RefundRow(n, Total(t.products, t.orders[n]), reason, Identifiers.IdempotencyKey(n));
      forall i | 0 <= i < |t.refunds|
        ensures t.refunds[i].key != row.key && t.refunds[i].orderId != n
      {
        assert t.refunds[i].orderId != n;
        Identifiers.IdempotencyKeyInjective(t.refunds[i].orderId, n);
      }
      assert 0 < t.products[t.orders[n].sku] * t.orders[n].quantity;
    }
  }

  lemma ApplyKeepsKeys(t: Tables, op: Op)
    requires KeysMatch(t)
    requires op.Transaction? && op.call.RefundCall? ==> op.call.key == Identifiers.IdempotencyKey(op.call.n)
    ensures KeysMatch(Apply(t, op))
  {
  }

  // ---- Conservation of money ----

  function SumAmounts(rows: seq<RefundRow>): (cents: int)
  {
    if rows == [] then 0 else SumAmounts(rows[..|rows| - 1]) + rows[|rows| - 1].amount
  }

  /** Totals of the orders below `bound` that are refunded now and were not seeded so. */
  ghost function RefundedTotals(t: Tables, seeded: set<nat>, bound: nat): (cents: int)
  {
    if bound == 0 then 0
    else
      var n := bound - 1;
      RefundedTotals(t, seeded, n)
      + if n in t.orders && t.orders[n].status == Refunded && n !in seeded then Total(t.products, t.orders[n]) else 0
  }

  /** Totals of the orders below `bound` that one of the rows names. */
  ghost function RowTotals(t: Tables, rows: seq<RefundRow>, bound: nat): (cents: int)
  {
    if bound == 0 then 0
    else
      var n := bound - 1;
      RowTotals(t, rows, n) + if n in t.orders && HasRefund(rows, n) then Total(t.products, t.orders[n]) else 0
  }

  lemma {:induction false} RowTotalsSnoc(t: Tables, rows: seq<RefundRow>, row: RefundRow, bound: nat)
    requires row.orderId in t.orders && !HasRefund(rows, row.orderId)
    ensures RowTotals(t, rows + [row], bound)
         == RowTotals(t, rows, bound) + if row.orderId < bound then Total(t.products, t.orders[row.orderId]) else 0
  {
    if bound > 0 {
      RowTotalsSnoc(t, rows, row, bound - 1);
      HasRefundSnoc(rows, row, bound - 1);
    }
  }

  lemma {:induction false} RowTotalsOfNone(t: Tables, bound: nat)
    ensures RowTotals(t, [], bound) == 0
  {
    if bound > 0 {
      RowTotalsOfNone(t, bound - 1);
    }
  }

  lemma {:induction false} AmountsAreRowTotals(t: Tables, rows: seq<RefundRow>, bound: nat)
    requires forall i | 0 <= i < |rows| :: rows[i].orderId in t.orders && rows[i].orderId < bound
               && rows[i].amount == Total(t.products, t.orders[rows[i].orderId])
    requires forall i, j | 0 <= i < j < |rows| :: rows[i].orderId != rows[j].orderId
    ensures SumAmounts(rows) == RowTotals(t, rows, bound)
  {
    if rows == [] {
      RowTotalsOfNone(t, bound);
    } else {
      var last := |rows| - 1;
      AmountsAreRowTotals(t, rows[..last], bound);
      assert rows == rows[..last] + [rows[last]];
      RowTotalsSnoc(t, rows[..last], rows[last], bound);
    }
  }

  lemma {:induction false} RowTotalsAreRefundedTotals(t: Tables, seeded: set<nat>, bound: nat)
    requires Consistent(t, seeded)
    ensures RowTotals(t, t.refunds, bound) == RefundedTotals(t, seeded, bound)
  {
    if bound > 0 {
      RowTotalsAreRefundedTotals(t, seeded, bound - 1);
    }
  }

  /** The money paid out is exactly the price of the orders that the application refunded. */
  lemma Conservation(t: Tables, seeded: set<nat>, bound: nat)
    requires Consistent(t, seeded)
    requires forall n | n in t.orders :: n < bound
    ensures SumAmounts(t.refunds) == RefundedTotals(t, seeded, bound)
  {
    AmountsAreRowTotals(t, t.refunds, bound);
    RowTotalsAreRefundedTotals(t, seeded, bound);
  }
}
