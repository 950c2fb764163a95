/** The other direction of the refinement: whatever the atomic protocol does, transactions that run statement by
    statement can do as well. */
module Realization {
  import opened Base
  import opened Orders
  import opened Ledger
  import opened Workflows
  import opened Refinement
  import I = Interleaving
  import P = Protocol
  import PS = ProtocolSafety

  /** The session of an attempt has not begun, or is over with the attempt's reply. */
  predicate SettledAs(s: I.Session, reply: Option<Reply>)
  {
    && !s.holds && s.insert.None? && s.update.None?
    && match s.pc
       case Begin => reply == None
       case Committed(r) => reply == Some(r)
       case RolledBack => reply == Some(Raised)
       case _ => false
  }

  predicate RealizesAttempt(attempt: P.Attempt, tag: Tag, s: I.Session)
  {
    && attempt.run == tag.run && attempt.command == tag.command && attempt.number == tag.number
    && attempt.call == s.call && SettledAs(s, attempt.reply)
  }

  /** The statements' protocol is in the same state, with no transaction under way. */
  ghost predicate Realizes(g: P.System, f: System)
  {
    && f.tables == g.tables && f.runs == g.runs
    && |g.attempts| == |f.tags| == |f.sessions|
    && forall a | 0 <= a < |g.attempts| :: RealizesAttempt(g.attempts[a], f.tags[a], f.sessions[a])
  }

  // ---- Going from state to state ----

  lemma OneStep(f: System, step: Step, h: System)
    requires h == Next(f, step)
    ensures LeadsTo(f, h)
  {
    assert [step][..0] == [] && After(f, []) == f;
    FoldSnoc(Next, f, [], step);
    assert [] + [step] == [step];
    assert After(f, [step]) == h;
  }

  lemma AndThen(f: System, g: System, h: System)
    requires LeadsTo(f, g) && LeadsTo(g, h)
    ensures LeadsTo(f, h)
  {
    var a :| After(f, a) == g;
    var b :| After(g, b) == h;
    FoldSplits(Next, f, a, b);
    assert After(f, a + b) == h;
  }

  // ---- One transaction without interruption ----

  function With(f: System, a: nat, s: I.Session): (h: System)
    requires a < |f.sessions|
    ensures |h.sessions| == |f.sessions|
  {
    f.(sessions := f.sessions[a := s])
  }

  /** No other session has a lock or a row of its own. */
  ghost predicate Alone(f: System, a: nat)
  {
    forall j | 0 <= j < |f.sessions| && j != a :: !f.sessions[j].holds && f.sessions[j].insert.None?
  }

  /** A statement takes the session from `s` to `s'`. */
  lemma TakesStatement(f: System, a: nat, s: I.Session, s': I.Session)
    requires a < |f.sessions|
    requires
      var d := I.NextStatement(Sessions(With(f, a, s)), a);
      d.Some? && d.value.tables == f.tables && d.value.sessions == With(f, a, s').sessions
    ensures LeadsTo(With(f, a, s), With(f, a, s'))
  {
    OneStep(With(f, a, s), Database(I.Statement(a)), With(f, a, s'));
  }

  lemma Opens(f: System, a: nat, s: I.Session, s': I.Session)
    requires a < |f.sessions| && Alone(f, a) && s.pc.Begin?
    requires
      match I.OpenReply(f.tables, s.call)
      case Some(reply) => s' == s.(pc := I.Returned(reply))
      case None => s' == s.(pc := I.Locked(f.tables.orders[s.call.n]), holds := true)
    ensures LeadsTo(With(f, a, s), With(f, a, s'))
  {
    assert I.LockFree(With(f, a, s).sessions, s.call.n, a);
    assert f.sessions[a := s][a := s'] == f.sessions[a := s'];
    TakesStatement(f, a, s, s');
  }

  lemma GoesOn(f: System, a: nat, s: I.Session, s': I.Session)
    requires a < |f.sessions| && Alone(f, a)
    requires
      match s.pc
      case Locked(row) =>
        if s.call.CancelCall? then
          if row.status !in CANCELLABLE then
            s' == s.(pc := I.Returned(CancelReply(CancelRefused(s.call.n, row.status))))
          else
            s' == s.(pc := I.Returned(CancelReply(CancelDone(s.call.n, row.status))), update := Some(Cancelled))
        else
          (match FindRefund(f.tables.refunds, s.call.n)
           case Some(found) =>
             s' == s.(pc := I.Returned(RefundReply(Some(
               RefundResult(s.call.n, Refunded, found.amount, false, Some(AlreadyRefunded))))))
           case None => s' == s.(pc := I.Cleared(row)))
      case Cleared(row) =>
        s.call.RefundCall?
        && if row.status != Delivered then
             s' == s.(pc := I.Returned(RefundReply(Some(RefundResult(
               s.call.n, row.status, Total(f.tables.products, row), false, Some(OrderNotDelivered))))))
           else if Insertable(f.tables, I.RowFor(f.tables, s.call, row)) then
             s' == s.(pc := I.Inserted(row), insert := Some(I.RowFor(f.tables, s.call, row)))
           else s' == s.(pc := I.RolledBack, holds := false)
      case Inserted(row) =>
        s' == s.(update := Some(Refunded), pc := I.Returned(RefundReply(Some(
          RefundResult(s.call.n, Refunded, Total(f.tables.products, row), true, None)))))
      case _ => false
    ensures LeadsTo(With(f, a, s), With(f, a, s'))
  {
    assert f.sessions[a := s][a := s'] == f.sessions[a := s'];
    if s.pc.Cleared? {
      assert I.InsertFree(With(f, a, s).sessions, I.RowFor(f.tables, s.call, s.pc.row), a);
    }
    TakesStatement(f, a, s, s');
  }

  /** A COMMIT: the private writes become the tables'. */
  lemma Commits(f: System, a: nat, s: I.Session, tables: Tables)
    requires a < |f.sessions| && s.pc.Returned? && tables == I.Publish(f.tables, s)
    ensures LeadsTo(With(f, a, s), With(f, a, CommittedSession(s)).(tables := tables))
  {
    var s' := CommittedSession(s);
    assert f.sessions[a := s][a := s'] == f.sessions[a := s'];
    OneStep(With(f, a, s), Database(I.Commit(a)), With(f, a, s').(tables := tables));
  }

  /** The session of a transaction that is over: an error has rolled it back. */
  function Over(call: Call, reply: Reply): (s: I.Session)
  {
    I.Session(call, if reply.Raised? then I.RolledBack else I.Committed(reply), false, None, None)
  }

  ghost predicate RunsAtomically(f: System, a: nat, call: Call)
    requires a < |f.sessions|
  {
    LeadsTo(With(f, a, NewSession(call)),
      With(f, a, Over(call, Atomic(f.tables, call).1)).(tables := Atomic(f.tables, call).0))
  }

  /** A transaction that its opening SELECT decides. */
  lemma ReadsOnly(f: System, a: nat, call: Call)
    requires a < |f.sessions| && Alone(f, a) && I.OpenReply(f.tables, call).Some?
    ensures RunsAtomically(f, a, call)
  {
    var s := NewSession(call);
    var s1 := s.(pc := I.Returned(I.OpenReply(f.tables, call).value));
    Opens(f, a, s, s1);
    Commits(f, a, s1, f.tables);
    AndThen(With(f, a, s), With(f, a, s1), With(f, a, Over(call, s1.pc.reply)).(tables := f.tables));
    I.OpenReplyIsAtomic(f.tables, call);
  }

  lemma ReturnsThenCommits(f: System, a: nat, call: Call, s: I.Session)
    requires a < |f.sessions| && s.call == call && s.pc.Returned?
    requires LeadsTo(With(f, a, NewSession(call)), With(f, a, s))
    requires Atomic(f.tables, call) == (I.Publish(f.tables, s), s.pc.reply) && !s.pc.reply.Raised?
    ensures RunsAtomically(f, a, call)
  {
    var tables := I.Publish(f.tables, s);
    Commits(f, a, s, tables);
    AndThen(With(f, a, NewSession(call)), With(f, a, s), With(f, a, Over(call, s.pc.reply)).(tables := tables));
  }

  lemma Locks(f: System, a: nat, call: Call) returns (s: I.Session)
    requires a < |f.sessions| && Alone(f, a) && I.OpenReply(f.tables, call).None?
    ensures call.n in f.tables.orders
    ensures s == I.Session(call, I.Locked(f.tables.orders[call.n]), true, None, None)
    ensures LeadsTo(With(f, a, NewSession(call)), With(f, a, s))
  {
    s := NewSession(call).(pc := I.Locked(f.tables.orders[call.n]), holds := true);
    Opens(f, a, NewSession(call), s);
  }

  lemma CancelsAlone(f: System, a: nat, call: Call)
    requires a < |f.sessions| && Alone(f, a) && call.CancelCall? && I.OpenReply(f.tables, call).None?
    ensures RunsAtomically(f, a, call)
  {
    var s := Locks(f, a, call);
    var row := f.tables.orders[call.n];
    var s1 := if row.status !in CANCELLABLE then s.(pc := I.Returned(CancelReply(CancelRefused(call.n, row.status))))
              else s.(pc := I.Returned(CancelReply(CancelDone(call.n, row.status))), update := Some(Cancelled));
    GoesOn(f, a, s, s1);
    AndThen(With(f, a, NewSession(call)), With(f, a, s), With(f, a, s1));
    ReturnsThenCommits(f, a, call, s1);
  }

  lemma ClearsAlone(f: System, a: nat, call: Call) returns (s: I.Session)
    requires a < |f.sessions| && Alone(f, a) && call.RefundCall? && I.OpenReply(f.tables, call).None?
    requires FindRefund(f.tables.refunds, call.n).None?
    ensures call.n in f.tables.orders
    ensures s == I.Session(call, I.Cleared(f.tables.orders[call.n]), true, None, None)
    ensures LeadsTo(With(f, a, NewSession(call)), With(f, a, s))
  {
    var s0 := Locks(f, a, call);
    s := s0.(pc := I.Cleared(f.tables.orders[call.n]));
    GoesOn(f, a, s0, s);
    AndThen(With(f, a, NewSession(call)), With(f, a, s0), With(f, a, s));
  }

  lemma FindsPaidAlone(f: System, a: nat, call: Call)
    requires a < |f.sessions| && Alone(f, a) && call.RefundCall? && I.OpenReply(f.tables, call).None?
    requires FindRefund(f.tables.refunds, call.n).Some?
    ensures RunsAtomically(f, a, call)
  {
    var s := Locks(f, a, call);
    var amount := FindRefund(f.tables.refunds, call.n).value.amount;
    var s1 := s.(pc := I.Returned(RefundReply(Some(
      RefundResult(call.n, Refunded, amount, false, Some(AlreadyRefunded))))));
    GoesOn(f, a, s, s1);
    AndThen(With(f, a, NewSession(call)), With(f, a, s), With(f, a, s1));
    ReturnsThenCommits(f, a, call, s1);
  }

  lemma RefusesAlone(f: System, a: nat, call: Call)
    requires a < |f.sessions| && Alone(f, a) && call.RefundCall? && I.OpenReply(f.tables, call).None?
    requires FindRefund(f.tables.refunds, call.n).None? && f.tables.orders[call.n].status != Delivered
    ensures RunsAtomically(f, a, call)
  {
    var s := ClearsAlone(f, a, call);
    var row := f.tables.orders[call.n];
    var s1 := s.(pc := I.Returned(RefundReply(Some(RefundResult(
      call.n, row.status, Total(f.tables.products, row), false, Some(OrderNotDelivered))))));
    GoesOn(f, a, s, s1);
    AndThen(With(f, a, NewSession(call)), With(f, a, s), With(f, a, s1));
    ReturnsThenCommits(f, a, call, s1);
  }

  lemma PaysAlone(f: System, a: nat, call: Call)
    requires a < |f.sessions| && Alone(f, a) && call.RefundCall? && I.OpenReply(f.tables, call).None?
    requires FindRefund(f.tables.refunds, call.n).None? && f.tables.orders[call.n].status == Delivered
    ensures RunsAtomically(f, a, call)
  {
    var s := ClearsAlone(f, a, call);
    var row := f.tables.orders[call.n];
    var refund := I.RowFor(f.tables, call, row);
    if Insertable(f.tables, refund) {
      var s1 := s.(pc := I.Inserted(row), insert := Some(refund));
      GoesOn(f, a, s, s1);
      AndThen(With(f, a, NewSession(call)), With(f, a, s), With(f, a, s1));
      var reply := RefundReply(Some(RefundResult(call.n, Refunded, Total(f.tables.products, row), true, None)));
      var s2 := s1.(update := Some(Refunded), pc := I.Returned(reply));
      GoesOn(f, a, s1, s2);
      AndThen(With(f, a, NewSession(call)), With(f, a, s1), With(f, a, s2));
      ReturnsThenCommits(f, a, call, s2);
    } else {
      var s1 := s.(pc := I.RolledBack, holds := false);
      GoesOn(f, a, s, s1);
      AndThen(With(f, a, NewSession(call)), With(f, a, s), With(f, a, s1));
      assert s1 == Over(call, Raised);
      assert With(f, a, s1).(tables := f.tables) == With(f, a, s1);
    }
  }

  lemma TransactionRunsAlone(f: System, a: nat, call: Call)
    requires a < |f.sessions| && Alone(f, a)
    ensures RunsAtomically(f, a, call)
  {
    if I.OpenReply(f.tables, call).Some? {
      ReadsOnly(f, a, call);
    } else if call.CancelCall? {
      CancelsAlone(f, a, call);
    } else if FindRefund(f.tables.refunds, call.n).Some? {
      FindsPaidAlone(f, a, call);
    } else if f.tables.orders[call.n].status != Delivered {
      RefusesAlone(f, a, call);
    } else {
      PaysAlone(f, a, call);
    }
  }

  // ---- The simulation ----

  lemma TransactIsRealized(g: P.System, f: System, a: nat, survives: bool) returns (h: System)
    requires Realizes(g, f) && a < |g.attempts| && g.attempts[a].reply.None?
    ensures LeadsTo(f, h) && Realizes(P.Next(g, P.Transact(a, survives)), h)
  {
    var call := g.attempts[a].call;
    assert RealizesAttempt(g.attempts[a], f.tags[a], f.sessions[a]);
    assert f.sessions[a] == NewSession(call);
    assert With(f, a, NewSession(call)) == f;
    if survives {
      forall j | 0 <= j < |f.sessions| && j != a
        ensures !f.sessions[j].holds && f.sessions[j].insert.None?
      {
        assert RealizesAttempt(g.attempts[j], f.tags[j], f.sessions[j]);
      }
      TransactionRunsAlone(f, a, call);
      var (tables, reply) := Atomic(f.tables, call);
      h := With(f, a, Over(call, reply)).(tables := tables);
      TransactIs(g, a, true, reply);
    } else {
      h := With(f, a, RolledBackSession(f.sessions[a]));
      OneStep(f, Database(I.Rollback(a)), h);
      TransactIs(g, a, false, Raised);
    }
  }

  lemma ServiceIsRealized(g: P.System, f: System, step: P.Step)
    requires Realizes(g, f) && ServiceStep(step)
    ensures Realizes(P.Next(g, step), Next(f, Service(step)))
  {
  }

  lemma BeginIsRealized(g: P.System, f: System, r: nat)
    requires Realizes(g, f)
    ensures Realizes(P.Next(g, P.BeginAttempt(r)), Next(f, BeginAttempt(r)))
  {
  }

  lemma ReportIsRealized(g: P.System, f: System, r: nat)
    requires Realizes(g, f)
    ensures Realizes(P.Next(g, P.Report(r)), Next(f, Report(r)))
  {
    if r < |g.runs| && P.HasLive(g.runs[r]) && g.runs[r].activity.value.live.value < |g.attempts| {
      var a := g.runs[r].activity.value.live.value;
      assert RealizesAttempt(g.attempts[a], f.tags[a], f.sessions[a]);
    }
  }

  lemma ShopIsRealized(g: P.System, f: System, op: Op)
    requires Realizes(g, f) && !op.Transaction?
    ensures Realizes(P.Next(g, P.Shop(op)), Next(f, Database(I.Shop(op))))
  {
    forall j | 0 <= j < |f.sessions|
      ensures !f.sessions[j].holds
    {
      assert RealizesAttempt(g.attempts[j], f.tags[j], f.sessions[j]);
    }
  }

  lemma NoStep(f: System)
    ensures LeadsTo(f, f)
  {
    assert After(f, []) == f;
  }

  lemma StepIsRealized(g: P.System, f: System, step: P.Step) returns (h: System)
    requires Realizes(g, f)
    ensures LeadsTo(f, h) && Realizes(P.Next(g, step), h)
  {
    h := f;
    NoStep(f);
    match step
    case BeginAttempt(r) =>
      BeginIsRealized(g, f, r);
      h := Next(f, BeginAttempt(r));
      OneStep(f, BeginAttempt(r), h);
    case Report(r) =>
      ReportIsRealized(g, f, r);
      h := Next(f, Report(r));
      OneStep(f, Report(r), h);
    case Transact(a, survives) =>
      if a < |g.attempts| && g.attempts[a].reply.None? {
        h := TransactIsRealized(g, f, a, survives);
      }
    case Shop(op) =>
      if !op.Transaction? {
        ShopIsRealized(g, f, op);
        h := Next(f, Database(I.Shop(op)));
        OneStep(f, Database(I.Shop(op)), h);
      }
    case _ =>
      ServiceIsRealized(g, f, step);
      h := Next(f, Service(step));
      OneStep(f, Service(step), h);
  }

  /** Some state that statements lead to is a counterpart of this one. */
  ghost predicate CanRealize(f: System, g: P.System)
  {
    exists h :: LeadsTo(f, h) && Realizes(g, h)
  }

  lemma OneMoreStep(f: System, g: P.System, step: P.Step, k: P.System)
    requires CanRealize(f, g) && k == P.Next(g, step)
    ensures CanRealize(f, k)
  {
    var before :| LeadsTo(f, before) && Realizes(g, before);
    var h := StepIsRealized(g, before, step);
    AndThen(f, before, h);
  }

  /** Every run of the atomic protocol is one of the statements' protocol, with the same tables, the same runs and the
      same replies. */
  lemma {:induction false} RunIsRealized(f: System, g: P.System, trace: seq<P.Step>, k: P.System)
    requires CanRealize(f, g) && k == P.After(g, trace)
    ensures CanRealize(f, k)
  {
    if trace != [] {
      var front, step := trace[..|trace| - 1], trace[|trace| - 1];
      RunIsRealized(f, g, front, P.After(g, front));
      OneMoreStep(f, P.After(g, front), step, k);
    }
  }

  /** So both protocols reach the same tables and the same workflow runs: what is possible in one is possible in the
      other. */
  lemma SameStatesArePossible(t: Tables, tables: Tables, runs: seq<P.Run>)
    ensures
      (exists g :: P.Possible(t, g) && g.tables == tables && g.runs == runs) <==>
      (exists f :: Possible(t, f) && f.tables == tables && f.runs == runs)
  {
    if g :| P.Possible(t, g) && g.tables == tables && g.runs == runs {
      var trace :| P.After(P.Begin(t), trace) == g;
      NoStep(Begin(t));
      assert Realizes(P.Begin(t), Begin(t));
      RunIsRealized(Begin(t), P.Begin(t), trace, g);
      var f :| LeadsTo(Begin(t), f) && Realizes(g, f);
      assert Possible(t, f);
    }
    if f :| Possible(t, f) && f.tables == tables && f.runs == runs {
      NoStep(f);
      var g, _ := HasCounterpart(t, f, f);
      assert P.Possible(t, g);
    }
  }
}
