/** The transactions as the database really runs them: statement by statement, concurrently, with row locks, private
    writes until COMMIT, and a rollback possible at any point. */
module Interleaving {
  import opened Base
  import opened Orders
  import opened Ledger

  datatype Pc =
    | Begin
    | Locked(row: Order)     // SELECT ... FOR UPDATE returned the row
    | Cleared(row: Order)    // the SELECT on refunds found nothing
    | Inserted(row: Order)   // the INSERT is done, visible to this session only
    | Returned(reply: Reply) // the body has returned, the COMMIT is outstanding
    | Committed(reply: Reply)
    | RolledBack

  datatype Session = Session(call: Call, pc: Pc, holds: bool, insert: Option<RefundRow>, update: Option<Status>)

  /** An entry of the serial order: a transaction by its session, or a step of the shop. */
  datatype Entry = Did(i: nat) | ShopDid(op: Op)

  /** `log` only records; no step reads it. */
  datatype System = System(tables: Tables, sessions: seq<Session>, log: seq<Entry>)

  datatype Step = Statement(i: nat) | Commit(i: nat) | Rollback(i: nat) | Shop(op: Op)

  predicate LockFree(sessions: seq<Session>, n: nat, self: int)
  {
    forall j | 0 <= j < |sessions| :: j != self && sessions[j].holds ==> sessions[j].call.n != n
  }

  /** No other session has inserted a row, not yet committed, that this one would conflict with. */
  predicate InsertFree(sessions: seq<Session>, row: RefundRow, self: int)
  {
    forall j | 0 <= j < |sessions| :: j != self && sessions[j].insert.Some? ==>
      sessions[j].insert.value.orderId != row.orderId && sessions[j].insert.value.key != row.key
  }

  function RowFor(t: Tables, call: Call, order: Order): (row: RefundRow)
    requires call.RefundCall?
  {
    RefundRow(call.n, Total(t.products, order), call.reason, call.key)
  }

  /** The reply that the opening SELECT already decides: a load, or an order that is not this customer's. */
  function OpenReply(t: Tables, call: Call): (reply: Option<Reply>)
  {
    var n := call.n;
    var owned := Owned(t.orders, n, call.customer);
    match call
    case CancelCall(_, _) => if owned then None else Some(CancelReply(CancelMissing(n)))
    case RefundCall(_, _, _, _) => if owned then None else Some(RefundReply(None))
    case LoadCall(_, _) =>
      if owned then Some(LoadReply(Some(OrderTotal(n, t.orders[n].status, Total(t.products, t.orders[n])))))
      else Some(LoadReply(None))
  }

  /** The SELECT that opens a transaction. A row that does not match the owner is not locked. */
  function Open(g: System, i: nat): (g': Option<System>)
    requires i < |g.sessions| && g.sessions[i].pc.Begin?
  {
    var s := g.sessions[i];
    match OpenReply(g.tables, s.call)
    case Some(reply) => Some(System(g.tables, g.sessions[i := s.(pc := Returned(reply))], g.log + [Did(i)]))
    case None =>
      if !LockFree(g.sessions, s.call.n, i) then None
      else Some(g.(sessions := g.sessions[i := s.(pc := Locked(g.tables.orders[s.call.n]), holds := true)]))
  }

  /** The next statement of session `i`; `None` while it has to wait for another session, or has no statement left. */
  function NextStatement(g: System, i: nat): (g': Option<System>)
    requires i < |g.sessions|
  {
    var s := g.sessions[i];
    var n := s.call.n;
    match s.pc
    case Begin => Open(g, i)
    case Locked(row) =>
      if s.call.CancelCall? then
        if row.status !in CANCELLABLE then
          Some(g.(sessions := g.sessions[i := s.(pc := Returned(CancelReply(CancelRefused(n, row.status))))]))
        else
          Some(g.(sessions := g.sessions[i :=
            s.(pc := Returned(CancelReply(CancelDone(n, row.status))), update := Some(Cancelled))]))
      else
        var existing := FindRefund(g.tables.refunds, n);
        if existing.Some? then
          var amount := existing.value.amount;
          var reply := RefundReply(Some(RefundResult(n, Refunded, amount, false, Some(AlreadyRefunded))));
          Some(g.(sessions := g.sessions[i := s.(pc := Returned(reply))]))
        else Some(g.(sessions := g.sessions[i := s.(pc := Cleared(row))]))
    case Cleared(row) =>
      if !s.call.RefundCall? then None
      else if row.status != Delivered then
        var total := Total(g.tables.products, row);
        var reply := RefundReply(Some(RefundResult(n, row.status, total, false, Some(OrderNotDelivered))));
        Some(g.(sessions := g.sessions[i := s.(pc := Returned(reply))]))
      else
        var refund := RowFor(g.tables, s.call, row);
        if !InsertFree(g.sessions, refund, i) then None
        else if !Insertable(g.tables, refund) then
          Some(g.(sessions := g.sessions[i := s.(pc := RolledBack, holds := false)]))
        else Some(g.(sessions := g.sessions[i := s.(pc := Inserted(row), insert := Some(refund))]))
    case Inserted(row) =>
      var reply := RefundReply(Some(RefundResult(n, Refunded, Total(g.tables.products, row), true, None)));
      Some(g.(sessions := g.sessions[i := s.(pc := Returned(reply), update := Some(Refunded))]))
    case _ => None
  }

  /** The committed tables once this session's private writes are in them. */
  function Publish(t: Tables, s: Session): (r: Tables)
  {
    var orders := if s.update.Some? && s.call.n in t.orders
                  then WithStatus(t.orders, s.call.n, s.update.value) else t.orders;
    Tables(t.products, orders, if s.insert.Some? then t.refunds + [s.insert.value] else t.refunds)
  }

  function Next(g: System, step: Step): (g': Option<System>)
  {
    match step
    case Statement(i) => if i < |g.sessions| then NextStatement(g, i) else None
    case Commit(i) =>
      if i < |g.sessions| && g.sessions[i].pc.Returned? then
        var s := g.sessions[i];
        Some(System(
          Publish(g.tables, s),
          g.sessions[i := Session(s.call, Committed(s.pc.reply), false, None, None)],
          if s.holds then g.log + [Did(i)] else g.log))
      else None
    case Rollback(i) =>
      if i < |g.sessions| && !g.sessions[i].pc.Committed? then
        Some(g.(sessions := g.sessions[i := Session(g.sessions[i].call, RolledBack, false, None, None)]))
      else None
    case Shop(op) =>
      if op.Transaction? || !LockFree(g.sessions, op.n, -1) then None
      else Some(System(Apply(g.tables, op), g.sessions, g.log + [ShopDid(op)]))
  }

  function Start(t: Tables, calls: seq<Call>): (g: System)
  {
    System(t, seq(|calls|, i requires 0 <= i < |calls| => Session(calls[i], Begin, false, None, None)), [])
  }

  /** The system after an interleaving, if every step of it could be taken. */
  function Run(g: System, trace: seq<Step>): (g': Option<System>)
  {
    if trace == [] then Some(g)
    else
      match Run(g, trace[..|trace| - 1])
      case None => None
      case Some(h) => Next(h, trace[|trace| - 1])
  }

  // ---- The serial execution that the log describes ----

  datatype Serial = Serial(tables: Tables, replies: map<nat, Reply>)

  /** Whole transactions, one after the other, in the order of the log. */
  function RunSerially(t: Tables, calls: seq<Call>, log: seq<Entry>): (r: Serial)
  {
    if log == [] then Serial(t, map[])
    else
      var before := RunSerially(t, calls, log[..|log| - 1]);
      match log[|log| - 1]
      case ShopDid(op) => Serial(Apply(before.tables, op), before.replies)
      case Did(i) =>
        if i < |calls| then
          var (tables, reply) := Atomic(before.tables, calls[i]);
          Serial(tables, before.replies[i := reply])
        else before
  }

  // ---- What holds between any two statements ----

  /** What a session knows about the committed tables while it holds its order's lock. */
  predicate Knows(t: Tables, s: Session)
  {
    var call, n := s.call, s.call.n;
    && (s.pc.Begin? || s.pc.Committed? || s.pc.RolledBack? || !s.holds ==>
          !s.holds && s.insert.None? && s.update.None?)
    && (s.pc.Locked? || s.pc.Cleared? || s.pc.Inserted? ==>
          s.holds && Owned(t.orders, n, call.customer) && t.orders[n] == s.pc.row
          && s.update.None? && !call.LoadCall?)
    && (s.pc.Locked? || s.pc.Cleared? ==> s.insert.None?)
    && (s.pc.Cleared? || s.pc.Inserted? ==> call.RefundCall? && FindRefund(t.refunds, n) == None)
    && (s.pc.Inserted? ==>
          s.pc.row.status == Delivered && s.insert == Some(RowFor(t, call, s.pc.row)) && Insertable(t, s.insert.value))
    && (s.pc.Returned? && s.holds ==>
          Owned(t.orders, n, call.customer) && !call.LoadCall? && KnowsReply(t, s, t.orders[n]))
  }

  predicate KnowsReply(t: Tables, s: Session, row: Order)
    requires s.pc.Returned? && !s.call.LoadCall?
  {
    var call, n, reply := s.call, s.call.n, s.pc.reply;
    if call.CancelCall? then
      && s.insert.None?
      && (if row.status in CANCELLABLE
          then s.update == Some(Cancelled) && reply == CancelReply(CancelDone(n, row.status))
          else s.update == None && reply == CancelReply(CancelRefused(n, row.status)))
    else
      var total := Total(t.products, row);
      match FindRefund(t.refunds, n)
      case Some(found) =>
        s.insert == None && s.update == None
        && reply == RefundReply(Some(RefundResult(n, Refunded, found.amount, false, Some(AlreadyRefunded))))
      case None =>
        if row.status != Delivered then
          s.insert == None && s.update == None
          && reply == RefundReply(Some(RefundResult(n, row.status, total, false, Some(OrderNotDelivered))))
        else
          s.insert == Some(RowFor(t, call, row)) && s.update == Some(Refunded) && Insertable(t, s.insert.value)
          && reply == RefundReply(Some(RefundResult(n, Refunded, total, true, None)))
  }

  ghost predicate LocksExclusive(sessions: seq<Session>)
  {
    forall i, j | 0 <= i < j < |sessions| ::
      sessions[i].holds && sessions[j].holds ==> sessions[i].call.n != sessions[j].call.n
  }

  ghost predicate InsertsDisjoint(sessions: seq<Session>)
  {
    forall i, j | 0 <= i < j < |sessions| ::
      sessions[i].insert.Some? && sessions[j].insert.Some? ==>
        sessions[i].insert.value.orderId != sessions[j].insert.value.orderId
        && sessions[i].insert.value.key != sessions[j].insert.value.key
  }

  /** The serial run gives every session that has its answer the same answer, and mentions no other session. */
  predicate Answered(s: Session, replies: map<nat, Reply>, i: nat)
  {
    && (s.pc.Committed? || (s.pc.Returned? && !s.holds) ==> i in replies && replies[i] == s.pc.reply)
    && (i in replies ==> s.pc.Committed? || (!s.holds && (s.pc.Returned? || s.pc.RolledBack?)))
    && (i in replies && s.pc.RolledBack? ==> ChangesNothing(replies[i]))
    && (s.pc.Returned? && !s.holds ==> ChangesNothing(s.pc.reply))
  }

  /** Replies of transactions that only read: a missing order, or a load. */
  predicate ChangesNothing(reply: Reply)
  {
    || reply.LoadReply?
    || (reply.RefundReply? && reply.refund.None?)
    || (reply.CancelReply? && !reply.cancel.found)
  }

  /** The sessions' knowledge is current, and no two of them are in each other's way. */
  ghost predicate SessionsOk(g: System)
  {
    && (forall i | 0 <= i < |g.sessions| :: Knows(g.tables, g.sessions[i]))
    && LocksExclusive(g.sessions)
    && InsertsDisjoint(g.sessions)
  }

  /** The log names the given sessions, each once. */
  ghost predicate Lists(log: seq<Entry>, ids: set<nat>, count: nat)
  {
    && (forall k | 0 <= k < |log| && log[k].Did? :: log[k].i in ids)
    && (forall i | i in ids :: i < count && Did(i) in log)
    && (forall k, l | 0 <= k < l < |log| && log[k].Did? && log[l].Did? :: log[k].i != log[l].i)
  }

  lemma ListsSnoc(log: seq<Entry>, ids: set<nat>, count: nat, e: Entry)
    requires Lists(log, ids, count)
    requires e.Did? ==> e.i !in ids && e.i < count
    ensures Lists(log + [e], if e.Did? then ids + {e.i} else ids, count)
  {
    var longer := log + [e];
    assert longer[|log|] == e;
    forall i | i in ids
      ensures Did(i) in longer
    {
      var k :| 0 <= k < |log| && log[k] == Did(i);
      assert longer[k] == Did(i);
    }
  }

  /** The replies of the serial execution answer the sessions. */
  ghost predicate Answers(sessions: seq<Session>, log: seq<Entry>, replies: map<nat, Reply>)
  {
    && (forall i | 0 <= i < |sessions| :: Answered(sessions[i], replies, i))
    && Lists(log, replies.Keys, |sessions|)
  }

  /** The log is a serial execution with the same tables and the same replies. */
  ghost predicate LogOk(g: System, t: Tables, calls: seq<Call>)
  {
    var serial := RunSerially(t, calls, g.log);
    && |g.sessions| == |calls|
    && (forall i | 0 <= i < |calls| :: g.sessions[i].call == calls[i])
    && serial.tables == g.tables
    && Answers(g.sessions, g.log, serial.replies)
  }

  ghost predicate Inv(g: System, t: Tables, calls: seq<Call>)
  {
    SessionsOk(g) && LogOk(g, t, calls)
  }

  /** Two tables look the same to a transaction on order `n`. */
  predicate SameFor(t: Tables, u: Tables, n: nat)
  {
    && t.products == u.products
    && n in t.orders && n in u.orders && t.orders[n] == u.orders[n]
    && FindRefund(t.refunds, n) == FindRefund(u.refunds, n)
  }

  lemma {:induction false} FindRefundSnoc(rows: seq<RefundRow>, row: RefundRow, n: nat)
    requires row.orderId != n
    ensures FindRefund(rows + [row], n) == FindRefund(rows, n)
  {
    if rows == [] {
      assert (rows + [row])[1..] == [];
    } else if rows[0].orderId != n {
      FindRefundSnoc(rows[1..], row, n);
      assert (rows + [row])[1..] == rows[1..] + [row];
    }
  }

  /** The commit of a session that holds its lock is exactly the atomic transaction, on the tables as they are then. */
  lemma CommitIsAtomic(t: Tables, s: Session)
    requires Knows(t, s) && s.pc.Returned? && s.holds
    ensures Atomic(t, s.call) == (Publish(t, s), s.pc.reply)
  {
  }

  lemma SerialSnoc(t: Tables, calls: seq<Call>, log: seq<Entry>, e: Entry)
    ensures
      var before := RunSerially(t, calls, log);
      RunSerially(t, calls, log + [e]) ==
        match e
        case ShopDid(op) => Serial(Apply(before.tables, op), before.replies)
        case Did(i) =>
          if i < |calls| then
            Serial(Atomic(before.tables, calls[i]).0, before.replies[i := Atomic(before.tables, calls[i]).1])
          else before
  {
    assert (log + [e])[..|log|] == log;
  }

  lemma StatementKeepsKnowledge(g: System, i: nat)
    requires i < |g.sessions| && Knows(g.tables, g.sessions[i]) && NextStatement(g, i).Some?
    ensures
      var g' := NextStatement(g, i).value;
      g'.tables == g.tables && |g'.sessions| == |g.sessions| && Knows(g.tables, g'.sessions[i])
  {
  }

  lemma StatementKeepsSessions(g: System, i: nat)
    requires SessionsOk(g) && i < |g.sessions| && NextStatement(g, i).Some?
    ensures SessionsOk(NextStatement(g, i).value)
  {
    var g' := NextStatement(g, i).value;
    StatementKeepsKnowledge(g, i);
    assert forall j | 0 <= j < |g.sessions| && j != i :: g'.sessions[j] == g.sessions[j];
    assert g'.sessions[i].call == g.sessions[i].call;
  }

  lemma StatementKeepsLog(g: System, i: nat, t: Tables, calls: seq<Call>)
    requires LogOk(g, t, calls) && i < |calls| && Knows(g.tables, g.sessions[i]) && NextStatement(g, i).Some?
    ensures LogOk(NextStatement(g, i).value, t, calls)
  {
    var g' := NextStatement(g, i).value;
    assert g'.tables == g.tables;
    assert forall j | 0 <= j < |calls| && j != i :: g'.sessions[j] == g.sessions[j];
    if g'.log != g.log {
      OpenKeepsLog(g, i, t, calls);
    }
  }

  lemma OpenReplyIsAtomic(t: Tables, call: Call)
    requires OpenReply(t, call).Some?
    ensures Atomic(t, call) == (t, OpenReply(t, call).value)
    ensures ChangesNothing(OpenReply(t, call).value)
  {
  }

  lemma DidKeepsAnswers(sessions: seq<Session>, log: seq<Entry>, replies: map<nat, Reply>, i: nat, s: Session)
    requires Answers(sessions, log, replies) && i < |sessions| && !s.holds
    requires !sessions[i].pc.Committed? && (sessions[i].pc.Begin? || sessions[i].holds)
    requires s.pc.Committed? || (s.pc.Returned? && ChangesNothing(s.pc.reply))
    ensures Answers(sessions[i := s], log + [Did(i)], replies[i := s.pc.reply])
  {
    assert Answered(sessions[i], replies, i);
    ListsSnoc(log, replies.Keys, |sessions|, Did(i));
    assert replies[i := s.pc.reply].Keys == replies.Keys + {i};
  }

  /** A session takes its place in the serial order when the atomic transaction would do, right then, what it did. */
  lemma DidKeepsLog(g: System, i: nat, s: Session, t: Tables, calls: seq<Call>)
    requires LogOk(g, t, calls) && i < |calls| && s.call == calls[i] && !s.holds
    requires !g.sessions[i].pc.Committed? && (g.sessions[i].pc.Begin? || g.sessions[i].holds)
    requires s.pc.Committed? || (s.pc.Returned? && ChangesNothing(s.pc.reply))
    requires Atomic(g.tables, calls[i]).1 == s.pc.reply
    ensures LogOk(System(Atomic(g.tables, calls[i]).0, g.sessions[i := s], g.log + [Did(i)]), t, calls)
  {
    SerialSnoc(t, calls, g.log, Did(i));
    DidKeepsAnswers(g.sessions, g.log, RunSerially(t, calls, g.log).replies, i, s);
  }

  /** A transaction that only reads takes its place in the serial order at its one SELECT. */
  lemma OpenKeepsLog(g: System, i: nat, t: Tables, calls: seq<Call>)
    requires LogOk(g, t, calls) && i < |calls| && g.sessions[i].pc.Begin?
    requires !g.sessions[i].holds && OpenReply(g.tables, calls[i]).Some?
    ensures LogOk(Open(g, i).value, t, calls)
  {
    OpenReplyIsAtomic(g.tables, calls[i]);
    DidKeepsLog(g, i, Open(g, i).value.sessions[i], t, calls);
  }

  lemma CommitKeepsSessions(g: System, i: nat)
    requires SessionsOk(g) && i < |g.sessions| && g.sessions[i].pc.Returned?
    ensures SessionsOk(Next(g, Commit(i)).value)
  {
    var s := g.sessions[i];
    var g' := Next(g, Commit(i)).value;
    assert forall j | 0 <= j < |g.sessions| && j != i :: g'.sessions[j] == g.sessions[j];
    forall j | 0 <= j < |g.sessions| && j != i
      ensures Knows(g'.tables, g.sessions[j])
    {
      CommitLeavesOthers(g, i, j);
    }
  }

  lemma CommitLeavesOthers(g: System, i: nat, j: nat)
    requires SessionsOk(g) && i < |g.sessions| && j < |g.sessions| && i != j && g.sessions[i].pc.Returned?
    ensures Knows(Publish(g.tables, g.sessions[i]), g.sessions[j])
  {
    var s, r := g.sessions[i], g.sessions[j];
    assert Knows(g.tables, s) && Knows(g.tables, r);
    if s.holds {
      if r.holds && s.insert.Some? {
        FindRefundSnoc(g.tables.refunds, s.insert.value, r.call.n);
      }
    }
  }

  /** A transaction that took the lock takes its place in the serial order at its COMMIT. */
  lemma CommitKeepsLog(g: System, i: nat, t: Tables, calls: seq<Call>)
    requires LogOk(g, t, calls) && i < |calls| && g.sessions[i].pc.Returned? && Knows(g.tables, g.sessions[i])
    ensures LogOk(Next(g, Commit(i)).value, t, calls)
  {
    var s := g.sessions[i];
    var g' := Next(g, Commit(i)).value;
    assert forall j | 0 <= j < |calls| && j != i :: g'.sessions[j] == g.sessions[j];
    if s.holds {
      CommitIsAtomic(g.tables, s);
      DidKeepsLog(g, i, g'.sessions[i], t, calls);
    } else {
      assert g'.tables == g.tables;
    }
  }

  lemma RollbackKeepsInv(g: System, i: nat, t: Tables, calls: seq<Call>)
    requires Inv(g, t, calls) && i < |calls| && !g.sessions[i].pc.Committed?
    ensures Inv(Next(g, Rollback(i)).value, t, calls)
  {
  }

  lemma ShopIsLocal(g: System, op: Op, j: nat)
    requires SessionsOk(g) && Next(g, Shop(op)).Some? && j < |g.sessions|
    ensures Knows(Apply(g.tables, op), g.sessions[j])
  {
    var s := g.sessions[j];
    assert Knows(g.tables, s);
    assert s.holds ==> s.call.n != op.n;
  }

  lemma ShopKeepsInv(g: System, op: Op, t: Tables, calls: seq<Call>)
    requires Inv(g, t, calls) && Next(g, Shop(op)).Some?
    ensures Inv(Next(g, Shop(op)).value, t, calls)
  {
    forall j | 0 <= j < |calls|
      ensures Knows(Apply(g.tables, op), g.sessions[j])
    {
      ShopIsLocal(g, op, j);
    }
    SerialSnoc(t, calls, g.log, ShopDid(op));
    ListsSnoc(g.log, RunSerially(t, calls, g.log).replies.Keys, |calls|, ShopDid(op));
  }

  lemma {:induction false} RunKeepsInv(t: Tables, calls: seq<Call>, trace: seq<Step>)
    requires Run(Start(t, calls), trace).Some?
    ensures Inv(Run(Start(t, calls), trace).value, t, calls)
  {
    if trace != [] {
      var front, step := trace[..|trace| - 1], trace[|trace| - 1];
      RunKeepsInv(t, calls, front);
      var g := Run(Start(t, calls), front).value;
      match step
      case Statement(i) =>
        StatementKeepsSessions(g, i);
        StatementKeepsLog(g, i, t, calls);
      case Commit(i) =>
        CommitKeepsSessions(g, i);
        CommitKeepsLog(g, i, t, calls);
      case Rollback(i) => RollbackKeepsInv(g, i, t, calls);
      case Shop(op) => ShopKeepsInv(g, op, t, calls);
    }
  }

  // ---- Main results ----

  /** Position of the only entry of session `i` in a log. */
  predicate DidOnce(log: seq<Entry>, i: nat)
  {
    && Did(i) in log
    && forall k, l | 0 <= k < |log| && 0 <= l < |log| && log[k] == Did(i) && log[l] == Did(i) :: k == l
  }

  /** A state between two statements of some interleaving. */
  ghost predicate Reached(t: Tables, calls: seq<Call>, g: System)
  {
    exists trace :: Run(Start(t, calls), trace) == Some(g)
  }

  lemma ReachedIsOk(t: Tables, calls: seq<Call>, g: System)
    requires Reached(t, calls, g)
    ensures Inv(g, t, calls)
  {
    var trace :| Run(Start(t, calls), trace) == Some(g);
    RunKeepsInv(t, calls, trace);
  }

  /** The steps of the shop in an interleaving, and those in a serial order. */
  function ShopSteps(trace: seq<Step>): (ops: seq<Op>)
  {
    if trace == [] then []
    else
      var last := trace[|trace| - 1];
      ShopSteps(trace[..|trace| - 1]) + if last.Shop? then [last.op] else []
  }

  function ShopEntries(order: seq<Entry>): (ops: seq<Op>)
  {
    if order == [] then []
    else
      var last := order[|order| - 1];
      ShopEntries(order[..|order| - 1]) + if last.ShopDid? then [last.op] else []
  }

  /** The tables and the replies are those of whole transactions run one after the other in this order, with each
      committed session in it exactly once, and no other session but ones that merely read. */
  ghost predicate SerialOrder(t: Tables, calls: seq<Call>, g: System, order: seq<Entry>)
  {
    var serial := RunSerially(t, calls, order);
    && |g.sessions| == |calls|
    && serial.tables == g.tables
    && (forall i | 0 <= i < |calls| && g.sessions[i].pc.Committed? ::
          DidOnce(order, i) && i in serial.replies && serial.replies[i] == g.sessions[i].pc.reply)
    && (forall i | 0 <= i < |calls| && !g.sessions[i].pc.Committed? && Did(i) in order ::
          DidOnce(order, i) && i in serial.replies && ChangesNothing(serial.replies[i]))
    && (forall i: nat | Did(i) in order :: i < |calls|)
  }

  /** `past` is what had happened by the time the sessions were in this state: every session that had committed, none
      that had not begun, and exactly these steps of the shop. */
  ghost predicate HappenedBy(past: seq<Entry>, sessions: seq<Session>, ops: seq<Op>)
  {
    && (forall i | 0 <= i < |sessions| && sessions[i].pc.Committed? :: Did(i) in past)
    && (forall i | 0 <= i < |sessions| && sessions[i].pc.Begin? :: Did(i) !in past)
    && ShopEntries(past) == ops
  }

  /** Real time, for transactions and the shop alike: at every point of the interleaving the order can be cut into what
      had happened by then and what had not. */
  ghost predicate RespectsRealTime(t: Tables, calls: seq<Call>, trace: seq<Step>, order: seq<Entry>)
  {
    forall k | 0 <= k <= |trace| :: CutAt(t, calls, trace, order, k)
  }

  ghost predicate CutAt(t: Tables, calls: seq<Call>, trace: seq<Step>, order: seq<Entry>, k: nat)
    requires k <= |trace|
  {
    && Run(Start(t, calls), trace[..k]).Some?
    && exists past :: past <= order
         && HappenedBy(past, Run(Start(t, calls), trace[..k]).value.sessions, ShopSteps(trace[..k]))
  }

  lemma {:induction false} LogKeepsShopSteps(t: Tables, calls: seq<Call>, trace: seq<Step>)
    requires Run(Start(t, calls), trace).Some?
    ensures ShopEntries(Run(Start(t, calls), trace).value.log) == ShopSteps(trace)
  {
    if trace != [] {
      var front, step := trace[..|trace| - 1], trace[|trace| - 1];
      LogKeepsShopSteps(t, calls, front);
      StepLogsShopStep(Run(Start(t, calls), front).value, step);
    }
  }

  lemma StepLogsShopStep(g: System, step: Step)
    requires Next(g, step).Some?
    ensures ShopEntries(Next(g, step).value.log) == ShopEntries(g.log) + if step.Shop? then [step.op] else []
  {
    var log := Next(g, step).value.log;
    if log != g.log {
      assert log[..|log| - 1] == g.log;
    }
  }

  lemma LogIsCut(t: Tables, calls: seq<Call>, trace: seq<Step>, k: nat)
    requires Run(Start(t, calls), trace).Some? && k <= |trace|
    ensures CutAt(t, calls, trace, Run(Start(t, calls), trace).value.log, k)
  {
    var start, a, b := Start(t, calls), trace[..k], trace[k..];
    assert trace == a + b;
    RunPrefix(start, a, b);
    var g := Run(start, a).value;
    RunSplits(start, a, b);
    RunExtendsLog(g, b);
    RunKeepsInv(t, calls, a);
    LogKeepsShopSteps(t, calls, a);
    LogHappened(g, t, calls, ShopSteps(a));
  }

  lemma LogHappened(g: System, t: Tables, calls: seq<Call>, ops: seq<Op>)
    requires Inv(g, t, calls) && ShopEntries(g.log) == ops
    ensures HappenedBy(g.log, g.sessions, ops)
  {
    var replies := RunSerially(t, calls, g.log).replies;
    forall i | 0 <= i < |g.sessions|
      ensures Did(i) in g.log <==> i in replies
    {
    }
    assert forall i | 0 <= i < |g.sessions| :: Answered(g.sessions[i], replies, i);
  }

  lemma LogIsSerialOrder(g: System, t: Tables, calls: seq<Call>)
    requires Inv(g, t, calls)
    ensures SerialOrder(t, calls, g, g.log)
  {
  }

  /** Strict serializability: every interleaving ends in the tables, and gives every committed session the reply, of the
      whole transactions run one after the other in some order; the shop's steps in that order are exactly those that
      were taken, in their sequence; and the order respects real time. */
  lemma Serializable(t: Tables, calls: seq<Call>, trace: seq<Step>) returns (order: seq<Entry>)
    requires Run(Start(t, calls), trace).Some?
    ensures SerialOrder(t, calls, Run(Start(t, calls), trace).value, order)
    ensures ShopEntries(order) == ShopSteps(trace)
    ensures RespectsRealTime(t, calls, trace, order)
  {
    RunKeepsInv(t, calls, trace);
    LogKeepsShopSteps(t, calls, trace);
    order := Run(Start(t, calls), trace).value.log;
    LogIsSerialOrder(Run(Start(t, calls), trace).value, t, calls);
    forall k | 0 <= k <= |trace|
      ensures CutAt(t, calls, trace, order, k)
    {
      LogIsCut(t, calls, trace, k);
    }
  }

  /** So a session that has committed before another one begins comes first, in every such order. */
  lemma RealTimeOrder(t: Tables, calls: seq<Call>, trace: seq<Step>, order: seq<Entry>, k: nat, i: nat, j: nat)
    requires k <= |trace| && RespectsRealTime(t, calls, trace, order) && DidOnce(order, i)
    requires Run(Start(t, calls), trace[..k]).Some?
    requires
      var sessions := Run(Start(t, calls), trace[..k]).value.sessions;
      i < |sessions| && j < |sessions| && sessions[i].pc.Committed? && sessions[j].pc.Begin?
    ensures Before(order, i, j)
  {
    assert CutAt(t, calls, trace, order, k);
    var past :| past <= order
      && HappenedBy(past, Run(Start(t, calls), trace[..k]).value.sessions, ShopSteps(trace[..k]));
    EarlyEntriesComeFirst(past, order, i, j);
  }

  lemma {:induction false} SerialKeepsConsistent(t: Tables, calls: seq<Call>, log: seq<Entry>, seeded: set<nat>)
    requires Consistent(t, seeded)
    ensures Consistent(RunSerially(t, calls, log).tables, seeded)
    ensures Evolves(t, RunSerially(t, calls, log).tables)
  {
    if log != [] {
      var front, last := log[..|log| - 1], log[|log| - 1];
      SerialKeepsConsistent(t, calls, front, seeded);
      var u := RunSerially(t, calls, front).tables;
      var op := match last
        case ShopDid(op) => op
        case Did(i) => if i < |calls| then Transaction(calls[i]) else Fulfilment(0);
      if last.ShopDid? || last.i < |calls| {
        ApplyKeepsConsistent(u, op, seeded);
        ApplyEvolves(u, op);
        EvolvesTransitive(t, u, Apply(u, op));
      }
    }
  }

  /** So the ledger is consistent after every interleaving, wherever it is cut off. */
  lemma LedgerUnderInterleaving(t: Tables, calls: seq<Call>, g: System, seeded: set<nat>)
    requires Consistent(t, seeded) && Reached(t, calls, g)
    ensures Consistent(g.tables, seeded) && Evolves(t, g.tables)
  {
    ReachedIsOk(t, calls, g);
    SerialKeepsConsistent(t, calls, g.log, seeded);
  }

  lemma {:induction false} RunExtendsLog(g: System, trace: seq<Step>)
    requires Run(g, trace).Some?
    ensures g.log <= Run(g, trace).value.log
  {
    if trace != [] {
      RunExtendsLog(g, trace[..|trace| - 1]);
    }
  }

  lemma {:induction false} RunSplits(g: System, a: seq<Step>, b: seq<Step>)
    requires Run(g, a).Some?
    ensures Run(g, a + b) == Run(Run(g, a).value, b)
  {
    if b == [] {
      assert a + b == a;
    } else {
      RunSplits(g, a, b[..|b| - 1]);
      assert (a + b)[..|a + b| - 1] == a + b[..|b| - 1];
    }
  }

  ghost predicate Before(log: seq<Entry>, i: nat, j: nat)
  {
    forall k, l | 0 <= k < |log| && 0 <= l < |log| && log[k] == Did(i) && log[l] == Did(j) :: k < l
  }

  lemma EarlyEntriesComeFirst(early: seq<Entry>, log: seq<Entry>, i: nat, j: nat)
    requires early <= log && Did(i) in early && Did(j) !in early && DidOnce(log, i)
    ensures Before(log, i, j)
  {
    var m :| 0 <= m < |early| && early[m] == Did(i);
    assert log[m] == Did(i);
    assert forall x | 0 <= x < |early| :: log[x] == early[x] && early[x] != Did(j);
  }

  lemma {:induction false} RunPrefix(g: System, a: seq<Step>, b: seq<Step>)
    requires Run(g, a + b).Some?
    ensures Run(g, a).Some?
  {
    if b == [] {
      assert a + b == a;
    } else {
      assert (a + b)[..|a + b| - 1] == a + b[..|b| - 1];
      RunPrefix(g, a, b[..|b| - 1]);
    }
  }

  predicate Finished(s: Session)
  {
    s.pc.Committed? || s.pc.RolledBack?
  }

  /** No deadlock: while some session is unfinished, some unfinished session can take its next statement or commit. */
  lemma NoDeadlock(t: Tables, calls: seq<Call>, g: System) returns (step: Step)
    requires Reached(t, calls, g)
    requires exists i | 0 <= i < |g.sessions| :: !Finished(g.sessions[i])
    ensures (step.Statement? || step.Commit?) && Next(g, step).Some?
  {
    ReachedIsOk(t, calls, g);
    if i :| 0 <= i < |g.sessions| && g.sessions[i].pc.Returned? {
      step := Commit(i);
    } else if i :| 0 <= i < |g.sessions| && g.sessions[i].pc.Inserted? {
      step := Statement(i);
    } else {
      // Nobody has a private row, so no INSERT waits; and nobody waits who holds a lock.
      assert forall j | 0 <= j < |g.sessions| :: g.sessions[j].insert.None?;
      if i :| 0 <= i < |g.sessions| && g.sessions[i].holds {
        step := Statement(i);
      } else {
        var i :| 0 <= i < |g.sessions| && !Finished(g.sessions[i]);
        step := Statement(i);
      }
    }
  }

  /** Another session holds the lock on this session's order. */
  predicate LockedByOther(g: System, i: nat)
    requires i < |g.sessions|
  {
    exists j :: 0 <= j < |g.sessions| && j != i && g.sessions[j].holds && g.sessions[j].call.n == g.sessions[i].call.n
  }

  /** Another session has inserted a refund with this order or this key, and not yet committed. */
  predicate InsertedByOther(g: System, i: nat, key: string)
    requires i < |g.sessions|
  {
    exists j :: 0 <= j < |g.sessions| && j != i && g.sessions[j].insert.Some?
      && (g.sessions[j].insert.value.orderId == g.sessions[i].call.n || g.sessions[j].insert.value.key == key)
  }

  /** When a session waits: before the SELECT of its caller's order, exactly while another session has locked the row,
      unless it only loads; and before the INSERT of a delivered order's refund, exactly while another session's
      uncommitted row has the same order or key. At no other point does it wait for anything. */
  lemma WaitsExactlyWhen(t: Tables, calls: seq<Call>, g: System, i: nat)
    requires Reached(t, calls, g) && i < |g.sessions| && !Finished(g.sessions[i]) && !g.sessions[i].pc.Returned?
    ensures
      var s := g.sessions[i];
      Next(g, Statement(i)).None? <==>
        || (s.pc.Begin? && !s.call.LoadCall? && s.call.n in g.tables.orders
            && g.tables.orders[s.call.n].owner == s.call.customer && LockedByOther(g, i))
        || (s.pc.Cleared? && s.pc.row.status == Delivered && s.call.RefundCall? && InsertedByOther(g, i, s.call.key))
  {
    ReachedIsOk(t, calls, g);
    assert Knows(g.tables, g.sessions[i]);
    assert LockFree(g.sessions, g.sessions[i].call.n, i) <==> !LockedByOther(g, i);
  }

  /** The other steps: a COMMIT is possible exactly when the body has returned; a rollback as long as there has been no
      COMMIT, and it leaves nothing behind, neither in the tables nor a lock nor a private row; and the shop changes an
      order exactly while no session has locked it. */
  lemma OtherSteps(g: System, i: nat, op: Op)
    requires i < |g.sessions|
    ensures Next(g, Commit(i)).Some? <==> g.sessions[i].pc.Returned?
    ensures Next(g, Rollback(i)).Some? <==> !g.sessions[i].pc.Committed?
    ensures !g.sessions[i].pc.Committed? ==>
      var h := Next(g, Rollback(i)).value;
      && h.tables == g.tables && h.log == g.log
      && h.sessions == g.sessions[i := Session(g.sessions[i].call, RolledBack, false, None, None)]
    ensures Next(g, Shop(op)).Some? <==>
      !op.Transaction? && forall j | 0 <= j < |g.sessions| && g.sessions[j].holds :: g.sessions[j].call.n != op.n
    ensures Next(g, Shop(op)).Some? ==>
      Next(g, Shop(op)).value.tables == Apply(g.tables, op) && Next(g, Shop(op)).value.sessions == g.sessions
  {
  }
}
