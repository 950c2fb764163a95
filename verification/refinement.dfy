/** The protocol with transactions as they really run, statement by statement and interleaved, refines the protocol in
    which a transaction is one atomic step. */
module Refinement {
  import opened Base
  import opened Orders
  import opened Ledger
  import opened Workflows
  import I = Interleaving
  import P = Protocol
  import PI = ProtocolInvariant
  import PS = ProtocolSafety

  /** Whose attempt a session is. */
  datatype Tag = Tag(run: nat, command: Command, number: nat)

  /** Session `a` runs the transaction of attempt `a`. */
  datatype System = System(tables: Tables, runs: seq<P.Run>, tags: seq<Tag>, sessions: seq<I.Session>)

  datatype Step =
    | Service(step: P.Step)   // a step of the workflow service that touches no attempt's transaction
    | BeginAttempt(r: nat)    // a worker opens a session for the run's activity
    | Database(action: I.Step) // a statement, a commit, a rollback, or a step of the shop
    | Report(r: nat)          // the live attempt's session is over, and its outcome reaches the service

  predicate ServiceStep(step: P.Step)
  {
    step.StartRun? || step.Signal? || step.WorkflowTask? || step.GiveUp? || step.Expire?
  }

  function Sessions(f: System): (d: I.System)
  {
    I.System(f.tables, f.sessions, [])
  }

  /** What the service is told about a session that is over; one that was rolled back has failed. */
  function Told(s: I.Session): (reply: Reply)
    requires I.Finished(s)
  {
    if s.pc.Committed? then s.pc.reply else Raised
  }

  function NewSession(call: Call): (s: I.Session)
  {
    I.Session(call, I.Begin, false, None, None)
  }

  /** A step that is not possible changes nothing. */
  function Next(f: System, step: Step): (f': System)
  {
    match step
    case Service(s) =>
      if ServiceStep(s) then f.(runs := P.Next(P.System(f.tables, f.runs, [], []), s).runs) else f
    case BeginAttempt(r) =>
      if r < |f.runs| && P.CanAttempt(f.runs[r]) then
        var run, activity := f.runs[r], f.runs[r].activity.value;
        System(f.tables,
          f.runs[r := run.(activity := Some(activity.(tries := activity.tries + 1, live := Some(|f.sessions|))))],
          f.tags + [Tag(r, activity.command, activity.tries + 1)],
          f.sessions + [NewSession(P.CallFor(activity.command, run.input))])
      else f
    case Database(s) =>
      (match I.Next(Sessions(f), s)
       case None => f
       case Some(d) => f.(tables := d.tables, sessions := d.sessions))
    case Report(r) =>
      if r < |f.runs| && P.HasLive(f.runs[r]) then
        var run, a := f.runs[r], f.runs[r].activity.value.live.value;
        if a < |f.sessions| && I.Finished(f.sessions[a])
        then f.(runs := f.runs[r := run.(activity := Some(P.AfterReport(run.activity.value, Told(f.sessions[a]))))])
        else f
      else f
  }

  function Begin(t: Tables): (f: System)
  {
    System(t, [], [], [])
  }

  function After(f: System, trace: seq<Step>): (f': System)
  {
    Fold(Next, f, trace)
  }

  // ---- The relation ----

  /** The atomic protocol's reply of an attempt and its session. A transaction takes place at its COMMIT, or, if it only
      reads, at its one SELECT; it may then still be rolled back, which its reply does not show. */
  predicate ReplyOf(s: I.Session, reply: Option<Reply>)
  {
    match s.pc
    case Committed(r) => reply == Some(r)
    case Returned(r) => if s.holds then reply == None else reply == Some(r)
    case RolledBack => reply.Some? && (reply.value.Raised? || I.ChangesNothing(reply.value))
    case _ => reply == None
  }

  predicate AttemptOf(tag: Tag, s: I.Session, attempt: P.Attempt)
  {
    && attempt.run == tag.run && attempt.command == tag.command && attempt.number == tag.number
    && attempt.call == s.call && ReplyOf(s, attempt.reply)
  }

  ghost predicate AttemptsOf(f: System, attempts: seq<P.Attempt>)
  {
    && |attempts| == |f.tags| == |f.sessions|
    && forall a | 0 <= a < |attempts| :: AttemptOf(f.tags[a], f.sessions[a], attempts[a])
  }

  /** The atomic protocol is in the same state, as far as anyone can see. */
  ghost predicate Refines(f: System, g: P.System)
  {
    && g.tables == f.tables && g.runs == f.runs
    && AttemptsOf(f, g.attempts)
    && I.SessionsOk(Sessions(f))
  }

  // ---- Steps of the service ----

  lemma AddSession(d: I.System, call: Call)
    requires I.SessionsOk(d)
    ensures I.SessionsOk(d.(sessions := d.sessions + [NewSession(call)]))
  {
    var sessions := d.sessions + [NewSession(call)];
    assert I.Knows(d.tables, NewSession(call));
    assert forall i | 0 <= i < |d.sessions| :: sessions[i] == d.sessions[i];
  }

  lemma BeginRefines(f: System, g: P.System, r: nat)
    requires Refines(f, g)
    ensures Refines(Next(f, BeginAttempt(r)), P.Next(g, P.BeginAttempt(r)))
  {
    if r < |f.runs| && P.CanAttempt(f.runs[r]) {
      AddSession(Sessions(f), P.CallFor(f.runs[r].activity.value.command, f.runs[r].input));
    }
  }

  /** A session that was rolled back is reported as an error; the atomic protocol may already have its reply, and gives
      the attempt up instead. */
  lemma ReportRefines(f: System, g: P.System, r: nat) returns (step: P.Step)
    requires Refines(f, g)
    ensures Refines(Next(f, Report(r)), P.Next(g, step))
  {
    step := P.Report(r);
    if r < |f.runs| && P.HasLive(f.runs[r]) {
      var a := f.runs[r].activity.value.live.value;
      if a < |f.sessions| {
        assert AttemptOf(f.tags[a], f.sessions[a], g.attempts[a]);
        if !I.Finished(f.sessions[a]) {
          step := P.Shop(Transaction(LoadCall(0, "")));
        } else if f.sessions[a].pc.RolledBack? {
          step := P.GiveUp(r);
        }
      }
    }
  }

  // ---- Steps of the database ----

  /** One session changes, and with it its attempt's reply. */
  lemma ReplaceSession(f: System, attempts: seq<P.Attempt>, a: nat, s: I.Session, reply: Option<Reply>)
    requires AttemptsOf(f, attempts) && a < |attempts| && s.call == f.sessions[a].call && ReplyOf(s, reply)
    ensures AttemptsOf(f.(sessions := f.sessions[a := s]), attempts[a := attempts[a].(reply := reply)])
  {
    assert AttemptOf(f.tags[a], f.sessions[a], attempts[a]);
  }

  /** The reply that the atomic protocol gives the attempt at a statement: at a SELECT that decides everything, at an
      INSERT that fails, and otherwise none yet. */
  lemma StatementReplies(d: I.System, a: nat)
    requires a < |d.sessions| && I.Knows(d.tables, d.sessions[a]) && I.NextStatement(d, a).Some?
    ensures
      var s, s' := d.sessions[a], I.NextStatement(d, a).value.sessions[a];
      && ReplyOf(s, None)
      && (|| ReplyOf(s', None)
          || (s'.pc.RolledBack? && ReplyOf(s', Some(Raised)))
          || (Atomic(d.tables, s.call).0 == d.tables && ReplyOf(s', Some(Atomic(d.tables, s.call).1))))
  {
    var s := d.sessions[a];
    if s.pc.Begin? && I.OpenReply(d.tables, s.call).Some? {
      I.OpenReplyIsAtomic(d.tables, s.call);
    }
  }

  lemma ReplyIsUnique(s: I.Session, reply: Option<Reply>)
    requires ReplyOf(s, None) && ReplyOf(s, reply)
    ensures reply == None
  {
  }

  lemma TransactIs(g: P.System, a: nat, survives: bool, reply: Reply)
    requires a < |g.attempts| && g.attempts[a].reply.None?
    requires reply == if survives then Atomic(g.tables, g.attempts[a].call).1 else Raised
    ensures
      var h := P.Next(g, P.Transact(a, survives));
      && h.tables == (if survives then Atomic(g.tables, g.attempts[a].call).0 else g.tables)
      && h.runs == g.runs && h.attempts == g.attempts[a := g.attempts[a].(reply := Some(reply))]
  {
  }

  lemma NothingHappens(g: P.System)
    ensures P.Next(g, P.Shop(Transaction(LoadCall(0, "")))) == g
  {
  }

  lemma StatementRefines(f: System, g: P.System, a: nat) returns (step: P.Step)
    requires Refines(f, g) && a < |f.sessions| && I.NextStatement(Sessions(f), a).Some?
    ensures Refines(Next(f, Database(I.Statement(a))), P.Next(g, step))
  {
    var d := Sessions(f);
    var s' := I.NextStatement(d, a).value.sessions[a];
    assert I.Knows(d.tables, d.sessions[a]);
    StatementReplies(d, a);
    I.StatementKeepsSessions(d, a);
    assert I.SessionsOk(Sessions(f.(sessions := d.sessions[a := s'])));
    assert AttemptOf(f.tags[a], f.sessions[a], g.attempts[a]);
    ReplyIsUnique(f.sessions[a], g.attempts[a].reply);
    assert Next(f, Database(I.Statement(a))) == f.(sessions := f.sessions[a := s']);
    if ReplyOf(s', None) {
      step := P.Shop(Transaction(LoadCall(0, "")));
      NothingHappens(g);
      ReplaceSession(f, g.attempts, a, s', None);
      assert g.attempts[a := g.attempts[a].(reply := None)] == g.attempts;
    } else {
      var survives := !s'.pc.RolledBack?;
      var reply := if survives then Atomic(d.tables, f.sessions[a].call).1 else Raised;
      step := P.Transact(a, survives);
      TransactIs(g, a, survives, reply);
      ReplaceSession(f, g.attempts, a, s', Some(reply));
    }
  }

  function CommittedSession(s: I.Session): (r: I.Session)
    requires s.pc.Returned?
  {
    I.Session(s.call, I.Committed(s.pc.reply), false, None, None)
  }

  lemma CommitRefines(f: System, g: P.System, a: nat) returns (step: P.Step)
    requires Refines(f, g) && a < |f.sessions| && f.sessions[a].pc.Returned?
    ensures Refines(Next(f, Database(I.Commit(a))), P.Next(g, step))
  {
    var s := f.sessions[a];
    assert I.Knows(f.tables, s);
    assert AttemptOf(f.tags[a], s, g.attempts[a]);
    I.CommitKeepsSessions(Sessions(f), a);
    ReplaceSession(f, g.attempts, a, CommittedSession(s), Some(s.pc.reply));
    if s.holds {
      I.CommitIsAtomic(f.tables, s);
      step := P.Transact(a, true);
      TransactIs(g, a, true, s.pc.reply);
    } else {
      step := P.Shop(Transaction(LoadCall(0, "")));
      NothingHappens(g);
      assert g.attempts[a := g.attempts[a].(reply := Some(s.pc.reply))] == g.attempts;
    }
  }

  function RolledBackSession(s: I.Session): (r: I.Session)
  {
    I.Session(s.call, I.RolledBack, false, None, None)
  }

  lemma RollbackKeepsSessions(d: I.System, a: nat)
    requires I.SessionsOk(d) && a < |d.sessions|
    ensures I.SessionsOk(d.(sessions := d.sessions[a := RolledBackSession(d.sessions[a])]))
  {
  }

  /** The reply that an unfinished session's attempt has when it is rolled back; there may be one, of a transaction that
      only read. */
  lemma RollbackReply(t: Tables, s: I.Session, reply: Option<Reply>)
    requires !s.pc.Committed? && ReplyOf(s, reply) && (s.pc.Returned? && !s.holds ==> I.ChangesNothing(s.pc.reply))
    ensures reply.Some? ==> ReplyOf(RolledBackSession(s), reply)
  {
  }

  lemma RollbackRefines(f: System, g: P.System, a: nat) returns (step: P.Step)
    requires Refines(f, g) && a < |f.sessions| && !f.sessions[a].pc.Committed?
    requires f.sessions[a].pc.Returned? && !f.sessions[a].holds ==> I.ChangesNothing(f.sessions[a].pc.reply)
    ensures Refines(Next(f, Database(I.Rollback(a))), P.Next(g, step))
  {
    var s, reply := f.sessions[a], g.attempts[a].reply;
    assert AttemptOf(f.tags[a], s, g.attempts[a]);
    RollbackKeepsSessions(Sessions(f), a);
    RollbackReply(f.tables, s, reply);
    if reply.Some? {
      step := P.Shop(Transaction(LoadCall(0, "")));
      NothingHappens(g);
      ReplaceSession(f, g.attempts, a, RolledBackSession(s), reply);
      assert g.attempts[a := g.attempts[a].(reply := reply)] == g.attempts;
    } else {
      step := P.Transact(a, false);
      TransactIs(g, a, false, Raised);
      ReplaceSession(f, g.attempts, a, RolledBackSession(s), Some(Raised));
    }
  }

  lemma ShopRefines(f: System, g: P.System, op: Op)
    requires Refines(f, g) && I.Next(Sessions(f), I.Shop(op)).Some?
    ensures Refines(Next(f, Database(I.Shop(op))), P.Next(g, P.Shop(op)))
  {
    forall j | 0 <= j < |f.sessions|
      ensures I.Knows(Apply(f.tables, op), f.sessions[j])
    {
      I.ShopIsLocal(Sessions(f), op, j);
    }
  }

  /** Sessions that have read and not locked have a reply that changes nothing. */
  ghost predicate ReadersOnlyRead(f: System)
  {
    forall a | 0 <= a < |f.sessions| && f.sessions[a].pc.Returned? && !f.sessions[a].holds ::
      I.ChangesNothing(f.sessions[a].pc.reply)
  }

  lemma StatementReads(d: I.System, a: nat)
    requires a < |d.sessions| && I.Knows(d.tables, d.sessions[a]) && I.NextStatement(d, a).Some?
    ensures
      var s' := I.NextStatement(d, a).value.sessions[a];
      s'.pc.Returned? && !s'.holds ==> I.ChangesNothing(s'.pc.reply)
  {
    if d.sessions[a].pc.Begin? && I.OpenReply(d.tables, d.sessions[a].call).Some? {
      I.OpenReplyIsAtomic(d.tables, d.sessions[a].call);
    }
  }

  lemma StepKeepsReaders(f: System, g: P.System, step: Step)
    requires Refines(f, g) && ReadersOnlyRead(f)
    ensures ReadersOnlyRead(Next(f, step))
  {
    if step.Database? && step.action.Statement? {
      var a := step.action.i;
      if a < |f.sessions| && I.NextStatement(Sessions(f), a).Some? {
        assert I.Knows(f.tables, f.sessions[a]);
        StatementReads(Sessions(f), a);
      }
    }
  }

  // ---- The simulation ----

  lemma DatabaseRefines(f: System, g: P.System, s: I.Step) returns (step: P.Step)
    requires Refines(f, g) && ReadersOnlyRead(f) && I.Next(Sessions(f), s).Some?
    ensures Refines(Next(f, Database(s)), P.Next(g, step))
  {
    match s
    case Statement(a) => step := StatementRefines(f, g, a);
    case Commit(a) => step := CommitRefines(f, g, a);
    case Rollback(a) => step := RollbackRefines(f, g, a);
    case Shop(op) =>
      ShopRefines(f, g, op);
      step := P.Shop(op);
  }

  /** Every step of the statements' protocol is one step of the atomic one, if only one that changes nothing. */
  lemma StepRefines(f: System, g: P.System, step: Step) returns (atomic: P.Step)
    requires Refines(f, g) && ReadersOnlyRead(f)
    ensures Refines(Next(f, step), P.Next(g, atomic))
  {
    atomic := P.Shop(Transaction(LoadCall(0, "")));
    NothingHappens(g);
    match step
    case Service(s) =>
      if ServiceStep(s) {
        atomic := s;
      }
    case BeginAttempt(r) =>
      BeginRefines(f, g, r);
      atomic := P.BeginAttempt(r);
    case Report(r) => atomic := ReportRefines(f, g, r);
    case Database(s) =>
      if I.Next(Sessions(f), s).Some? {
        atomic := DatabaseRefines(f, g, s);
      }
  }

  /** Refinement: whatever the statement-level protocol does, the atomic one can do as well, with the same tables
      and the same runs at the end; and it can go on from there. */
  lemma {:induction false} RunRefines(f: System, g: P.System, trace: seq<Step>) returns (atomic: seq<P.Step>)
    requires Refines(f, g) && ReadersOnlyRead(f)
    ensures Refines(After(f, trace), P.After(g, atomic)) && ReadersOnlyRead(After(f, trace))
  {
    if trace == [] {
      atomic := [];
    } else {
      var front, step := trace[..|trace| - 1], trace[|trace| - 1];
      var before := RunRefines(f, g, front);
      var last := StepRefines(After(f, front), P.After(g, before), step);
      StepKeepsReaders(After(f, front), P.After(g, before), step);
      assert trace == front + [step];
      FoldSnoc(Next, f, front, step);
      PS.AfterSnoc(g, before, last);
      atomic := before + [last];
    }
  }

  ghost predicate LeadsTo(f: System, h: System)
  {
    exists trace :: After(f, trace) == h
  }

  ghost predicate Possible(t: Tables, f: System)
  {
    Initial(t) && LeadsTo(Begin(t), f)
  }

  /** So every pair of states, one after the other, has a counterpart in the atomic protocol, with the same tables and
      the same runs. */
  lemma HasCounterpart(t: Tables, f: System, h: System) returns (g: P.System, k: P.System)
    requires Possible(t, f) && LeadsTo(f, h)
    ensures P.Possible(t, g) && P.LeadsTo(g, k) && Refines(f, g) && Refines(h, k)
  {
    var before :| After(Begin(t), before) == f;
    var after :| After(f, after) == h;
    var a := RunRefines(Begin(t), P.Begin(t), before);
    g := P.After(P.Begin(t), a);
    var b := RunRefines(f, g, after);
    k := P.After(g, b);
  }

  // ---- What that is worth ----

  lemma IsLater(f: System)
    ensures LeadsTo(f, f)
  {
    assert After(f, []) == f;
  }

  /** Exactly once, with every transaction interrupted between any two of its statements. */
  lemma ExactlyOnceByStatements(t: Tables, f: System)
    requires Possible(t, f)
    ensures
      var rows := f.tables.refunds;
      && (forall i, j | 0 <= i < j < |rows| :: rows[i].orderId != rows[j].orderId)
      && (forall i | 0 <= i < |rows| ::
            && rows[i].orderId in f.tables.orders
            && f.tables.orders[rows[i].orderId].sku in f.tables.products
            && rows[i].amount
                 == f.tables.products[f.tables.orders[rows[i].orderId].sku] * f.tables.orders[rows[i].orderId].quantity
            && f.tables.orders[rows[i].orderId].status == Status.Refunded)
  {
    IsLater(f);
    var g, _ := HasCounterpart(t, f, f);
    PS.ExactlyOnce(t, g);
  }

  /** And truthful completion: a refund run that is COMPLETED names a refunded order, then and ever after. */
  lemma CompletedMeansRefundedByStatements(t: Tables, f: System, h: System, r: nat)
    requires Possible(t, f) && LeadsTo(f, h) && r < |f.runs|
    requires f.runs[r].machine.RefundMachine? && f.runs[r].machine.refund.state.Completed?
    ensures P.IsRefunded(f.tables, f.runs[r].input) && P.IsRefunded(h.tables, f.runs[r].input)
  {
    var g, k := HasCounterpart(t, f, h);
    PS.CompletedMeansRefunded(t, g, k, r);
  }
}
