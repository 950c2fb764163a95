/** The order tools of the agents: what they check before they start a workflow. */
module AgentTools {
  import opened Base
  import opened Orders
  import opened Ledger
  import opened Identifiers

  datatype ToolReply =
    | InvalidOrderId
    | NotFound
    | Found(orderId: string, status: Status)
    | Refused(status: Status, reason: CancelReason)
    | Started(workflowId: string)

  /** `get_order_status_row`. */
  function StatusRow(t: Tables, n: nat, customer: string): (status: Option<Status>)
  {
    if Owned(t.orders, n, customer) then Some(t.orders[n].status) else None
  }

  datatype Tool = GetOrderStatus | CancelOrder | RequestRefund

  /** What a tool replies to an order id that the model wrote, on behalf of a customer. The cancellation tool refuses
      before it starts a workflow that is certain to be rejected; the refund tool looks at no table. */
  function Use(tool: Tool, t: Tables, text: string, userId: string): (reply: ToolReply)
  {
    match ParseOrderId(text)
    case None => InvalidOrderId
    case Some(n) =>
      if tool.RequestRefund? then Started(WorkflowId(Refunding, n))
      else
        match StatusRow(t, n, userId)
        case None => NotFound
        case Some(status) =>
          if tool.GetOrderStatus? then Found(OrderId(n), status)
          else if status !in CANCELLABLE then Refused(status, RejectionReason(status))
          else Started(WorkflowId(Cancelling, n))
  }

  lemma RefusalIsFinal(from: Status, to: Status)
    requires Reaches(from, to)
    ensures from !in CANCELLABLE ==> to !in CANCELLABLE
  {
  }

  /** The pre-check is right for ever when it refuses, and only advice when it does not: whatever happens to the tables
      in between, the cancellation transaction leaves a refused order alone, and cancels an accepted one exactly if its
      status still allows it. One that has been delivered meanwhile is rejected unchanged, and the reason says so. */
  lemma PrecheckAndTransaction(t: Tables, u: Tables, text: string, userId: string, n: nat)
    requires Evolves(t, u) && ParseOrderId(text) == Some(n) && !Use(CancelOrder, t, text, userId).NotFound?
    ensures
      var (v, reply) := Atomic(u, CancelCall(n, userId));
      && Owned(u.orders, n, userId) && reply.CancelReply? && reply.cancel.found
      && (Use(CancelOrder, t, text, userId).Refused? ==> v == u && !reply.cancel.cancelled)
      && (Use(CancelOrder, t, text, userId).Started? ==>
            (reply.cancel.cancelled <==> u.orders[n].status in CANCELLABLE))
      && (u.orders[n].status == Delivered ==>
            v == u && !reply.cancel.cancelled && reply.cancel.reason == DeliveredOrder)
  {
    RefusalIsFinal(t.orders[n].status, u.orders[n].status);
  }

  /** What the tools say and do, for every text and every tables: an id that is none is refused by all three; status and
      cancellation speak of the caller's own order, with its status; a workflow is started exactly for a cancellable
      order, or for any refund, and it is the one of that kind and order. */
  lemma ToolsSpeakTheTruth(t: Tables, tool: Tool, text: string, userId: string)
    ensures
      var reply, id := Use(tool, t, text, userId), ParseOrderId(text);
      && (reply == InvalidOrderId <==> id.None?)
      && (reply == NotFound <==>
            id.Some? && !tool.RequestRefund? && !(id.value in t.orders && t.orders[id.value].owner == userId))
      && (reply.Found? ==>
            tool.GetOrderStatus? && reply.orderId == OrderId(id.value) && reply.status == t.orders[id.value].status)
      && (reply.Refused? <==>
            tool.CancelOrder? && id.Some? && id.value in t.orders && t.orders[id.value].owner == userId
            && t.orders[id.value].status in {Delivered, Status.Cancelled, Status.Refunded})
      && (reply.Refused? ==>
            && reply.status == t.orders[id.value].status
            && reply.reason == if reply.status == Delivered then DeliveredOrder
               else if reply.status == Status.Refunded then RefundedOrder else AlreadyCancelled)
      && (reply.Started? <==>
            id.Some? && (tool.RequestRefund?
              || (tool.CancelOrder? && id.value in t.orders && t.orders[id.value].owner == userId
                  && t.orders[id.value].status in {Pending, Paid, Processing, Shipped})))
      && (reply.Started? ==>
            reply.workflowId == (if tool.CancelOrder? then "cancel-order-" else "refund-order-") + Decimal(id.value))
  {
  }

  /** Another customer's order looks exactly like a missing one, to every tool and to every transaction; the refund
      workflow that the refund tool starts finds no order. */
  lemma ForeignOrdersLookMissing(t: Tables, n: nat, text: string, userId: string, reason: string, key: string)
    requires n in t.orders && t.orders[n].owner != userId && ParseOrderId(text) == Some(n)
    ensures
      var without := t.(orders := t.orders - {n});
      && (forall tool :: Use(tool, t, text, userId) == Use(tool, without, text, userId))
      && Use(GetOrderStatus, t, text, userId) == Use(CancelOrder, t, text, userId) == NotFound
      && Atomic(t, LoadCall(n, userId)).1 == Atomic(without, LoadCall(n, userId)).1 == LoadReply(None)
      && Atomic(t, CancelCall(n, userId)).1 == Atomic(without, CancelCall(n, userId)).1
      && Atomic(t, RefundCall(n, userId, reason, key)).1 == Atomic(without, RefundCall(n, userId, reason, key)).1
      && Atomic(t, CancelCall(n, userId)).0 == Atomic(t, RefundCall(n, userId, reason, key)).0 == t
  {
  }
}

/** The key under which a conversation is checkpointed: `f"{user_id}:{thread_id}"`. */
module ConversationKey {

  function Key(userId: string, threadId: string): (key: string)
  {
    userId + ":" + threadId
  }

  /** Thread ids match [A-Za-z0-9_-]+, so they have no colon, and two different conversations never share a key, even
      when the user ids are arbitrary. */
  lemma KeyIsInjective(user1: string, thread1: string, user2: string, thread2: string)
    requires ':' !in thread1 && ':' !in thread2
    ensures Key(user1, thread1) == Key(user2, thread2) <==> user1 == user2 && thread1 == thread2
  {
    var a, b := Key(user1, thread1), Key(user2, thread2);
    if a == b {
      forall k | |user1| < k < |a|
        ensures a[k] != ':'
      {
        assert a[k] == thread1[k - |user1| - 1];
      }
      forall k | |user2| < k < |b|
        ensures b[k] != ':'
      {
        assert b[k] == thread2[k - |user2| - 1];
      }
      assert a[|user1|] == ':' && b[|user2|] == ':';
      assert |user1| == |user2|;
      assert a[..|user1|] == user1 && b[..|user2|] == user2;
      assert a[|user1| + 1..] == thread1 && b[|user2| + 1..] == thread2;
    }
  }
}
