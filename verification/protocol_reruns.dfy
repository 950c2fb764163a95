/** Runs after runs: a workflow id may be used again once its run has closed, and attempts of closed runs may still
    commit. */
module ProtocolReruns {
  import opened Base
  import opened Orders
  import opened Ledger
  import opened Workflows
  import opened Identifiers
  import opened Protocol
  import opened ProtocolInvariant
  import opened ProtocolSafety

  predicate RefundRunFor(run: Run, n: nat)
  {
    run.machine.RefundMachine? && run.input.n == n
  }

  /** A run that can only find its order refunded. */
  predicate LateRun(run: Run)
    requires run.machine.RefundMachine?
  {
    && run.consumed.None?
    && match run.machine.refund.state
       case Started => run.activity.None?
       case CheckingOrder =>
         && run.activity.Some? && run.activity.value.command == ScheduleLoad
         && (run.activity.value.answer.Some? && run.activity.value.answer.value.Loaded? ==>
               run.activity.value.answer.value.order.status == Status.Refunded)
       case Completed(FoundRefunded) => run.activity.None?
       case Failed => run.activity.None?
       case _ => false
  }

  predicate LateAttempt(attempt: Attempt)
  {
    && attempt.command == ScheduleLoad
    && (attempt.reply.Some? && attempt.reply.value.LoadReply? && attempt.reply.value.order.Some? ==>
          attempt.reply.value.order.value.status == Status.Refunded)
    && (attempt.reply.Some? ==> attempt.reply.value.LoadReply? || attempt.reply.value.Raised?)
  }

  ghost predicate LateRuns(runs: seq<Run>, n: nat, first: nat)
  {
    forall r | first <= r < |runs| && RefundRunFor(runs[r], n) :: LateRun(runs[r])
  }

  ghost predicate LateAttempts(runs: seq<Run>, attempts: seq<Attempt>, n: nat, first: nat)
  {
    forall a | 0 <= a < |attempts| && first <= attempts[a].run < |runs| && RefundRunFor(runs[attempts[a].run], n) ::
      LateAttempt(attempts[a])
  }

  /** Order `n` is refunded, and the refund runs for it from `first` on can only find that out. */
  ghost predicate Late(g: System, n: nat, first: nat)
  {
    && n in g.tables.orders && g.tables.orders[n].status == Status.Refunded
    && LateRuns(g.runs, n, first)
    && LateAttempts(g.runs, g.attempts, n, first)
  }

  lemma LateTask(run: Run, taken: nat, answered: bool)
    requires run.machine.RefundMachine? && LateRun(run) && TaskEnabled(run, taken, answered)
    ensures AfterTask(run, taken, answered).machine.RefundMachine? && LateRun(AfterTask(run, taken, answered))
  {
  }

  lemma LateReport(run: Run, reply: Reply)
    requires run.machine.RefundMachine? && LateRun(run) && HasLive(run)
    requires LateAttempt(Attempt(0, ScheduleLoad, 0, LoadCall(0, ""), Some(reply)))
    ensures LateRun(run.(activity := Some(AfterReport(run.activity.value, reply))))
  {
  }

  /** A step changes at most one run, and neither its input nor its kind. */
  lemma KindStays(g: System, step: Step, r: nat)
    requires r < |g.runs|
    ensures r < |Next(g, step).runs|
    ensures Next(g, step).runs[r].input == g.runs[r].input
    ensures Next(g, step).runs[r].machine.RefundMachine? == g.runs[r].machine.RefundMachine?
  {
  }

  lemma LateRunStep(g: System, seeded: set<nat>, n: nat, first: nat, step: Step, r: nat)
    requires LiveOk(g.runs, g.attempts) && first <= r < |g.runs|
    requires RefundRunFor(g.runs[r], n) && LateRun(g.runs[r]) && LateAttempts(g.runs, g.attempts, n, first)
    ensures r < |Next(g, step).runs|
    ensures Next(g, step).runs[r].machine.RefundMachine? && LateRun(Next(g, step).runs[r])
  {
    KindStays(g, step, r);
    if step.WorkflowTask? {
      if step.r == r && TaskEnabled(g.runs[r], step.taken, step.answered) {
        LateTask(g.runs[r], step.taken, step.answered);
      }
    } else if step.Report? {
      if step.r == r && HasLive(g.runs[r]) {
        var attempt := g.attempts[g.runs[r].activity.value.live.value];
        if attempt.reply.Some? {
          LateReport(g.runs[r], attempt.reply.value);
        }
      }
    }
  }

  /** A transaction on a refunded order replies that it is refunded. */
  lemma LateReply(t: Tables, input: Input, command: Command)
    requires input.n in t.orders && t.orders[input.n].status == Status.Refunded && command == ScheduleLoad
    ensures
      var reply := Atomic(t, CallFor(command, input)).1;
      reply.LoadReply? && (reply.order.Some? ==> reply.order.value.status == Status.Refunded)
  {
  }

  /** A step leaves an attempt alone, or is its transaction. */
  lemma AttemptStep(g: System, step: Step, a: nat)
    requires a < |g.attempts|
    ensures a < |Next(g, step).attempts|
    ensures
      var attempt := g.attempts[a];
      || Next(g, step).attempts[a] == attempt
      || Next(g, step).attempts[a] == attempt.(reply := Some(Raised))
      || Next(g, step).attempts[a] == attempt.(reply := Some(Atomic(g.tables, attempt.call).1))
  {
  }

  lemma OldAttemptStep(g: System, seeded: set<nat>, n: nat, step: Step, a: nat)
    requires a < |g.attempts| && AttemptOk(g.tables, seeded, g.runs, g.attempts[a])
    requires n in g.tables.orders && g.tables.orders[n].status == Status.Refunded
    requires g.runs[g.attempts[a].run].input.n == n && LateAttempt(g.attempts[a])
    ensures a < |Next(g, step).attempts| && LateAttempt(Next(g, step).attempts[a])
  {
    AttemptStep(g, step, a);
    LateReply(g.tables, g.runs[g.attempts[a].run].input, ScheduleLoad);
  }

  lemma NewAttemptStep(g: System, n: nat, first: nat, step: Step, a: nat)
    requires LateRuns(g.runs, n, first) && |g.attempts| <= a < |Next(g, step).attempts|
    requires first <= Next(g, step).attempts[a].run < |g.runs| && RefundRunFor(g.runs[Next(g, step).attempts[a].run], n)
    ensures LateAttempt(Next(g, step).attempts[a])
  {
    assert step.BeginAttempt? && LateRun(g.runs[step.r]);
  }

  lemma LateAttemptStep(g: System, seeded: set<nat>, n: nat, first: nat, step: Step, a: nat)
    requires Inv(g, seeded) && Late(g, n, first) && a < |Next(g, step).attempts|
    requires first <= Next(g, step).attempts[a].run < |g.runs| && RefundRunFor(g.runs[Next(g, step).attempts[a].run], n)
    ensures LateAttempt(Next(g, step).attempts[a])
  {
    if a < |g.attempts| {
      AttemptStep(g, step, a);
      assert LateAttempt(g.attempts[a]);
      OldAttemptStep(g, seeded, n, step, a);
    } else {
      NewAttemptStep(g, n, first, step, a);
    }
  }

  lemma LateRunsStep(g: System, seeded: set<nat>, n: nat, first: nat, step: Step)
    requires LiveOk(g.runs, g.attempts) && first <= |g.runs|
    requires LateRuns(g.runs, n, first) && LateAttempts(g.runs, g.attempts, n, first)
    ensures LateRuns(Next(g, step).runs, n, first) && first <= |Next(g, step).runs|
  {
    var runs := Next(g, step).runs;
    assert |g.runs| <= |runs|;
    forall r | first <= r < |runs| && RefundRunFor(runs[r], n)
      ensures LateRun(runs[r])
    {
      if r < |g.runs| {
        KindStays(g, step, r);
        LateRunStep(g, seeded, n, first, step, r);
      }
    }
  }

  lemma LateAttemptsStep(g: System, seeded: set<nat>, n: nat, first: nat, step: Step)
    requires Inv(g, seeded) && Late(g, n, first)
    ensures LateAttempts(Next(g, step).runs, Next(g, step).attempts, n, first)
  {
    var g' := Next(g, step);
    forall a | 0 <= a < |g'.attempts| && first <= g'.attempts[a].run < |g'.runs|
        && RefundRunFor(g'.runs[g'.attempts[a].run], n)
      ensures LateAttempt(g'.attempts[a])
    {
      AttemptsNameOldRuns(g, seeded, step, a);
      KindStays(g, step, g'.attempts[a].run);
      LateAttemptStep(g, seeded, n, first, step, a);
    }
  }

  lemma LateAgain(g: System, g': System, n: nat, first: nat)
    requires Late(g, n, first) && Evolves(g.tables, g'.tables)
    requires LateRuns(g'.runs, n, first) && LateAttempts(g'.runs, g'.attempts, n, first)
    ensures Late(g', n, first)
  {
  }

  lemma LateStep(g: System, seeded: set<nat>, n: nat, first: nat, step: Step)
    requires Inv(g, seeded) && Late(g, n, first) && first <= |g.runs|
    ensures Late(Next(g, step), n, first) && first <= |Next(g, step).runs|
  {
    NextEvolves(g, step);
    LateRunsStep(g, seeded, n, first, step);
    LateAttemptsStep(g, seeded, n, first, step);
    LateAgain(g, Next(g, step), n, first);
  }

  lemma AttemptsNameOldRuns(g: System, seeded: set<nat>, step: Step, a: nat)
    requires Inv(g, seeded) && a < |Next(g, step).attempts|
    ensures Next(g, step).attempts[a].run < |g.runs|
  {
    if a < |g.attempts| {
      assert AttemptOk(g.tables, seeded, g.runs, g.attempts[a]);
    }
  }

  lemma {:induction false} LateForEver(g: System, seeded: set<nat>, n: nat, first: nat, trace: seq<Step>)
    requires Inv(g, seeded) && Late(g, n, first) && first <= |g.runs|
    ensures Inv(After(g, trace), seeded)
    ensures Late(After(g, trace), n, first)
    ensures first <= |After(g, trace).runs|
  {
    if trace != [] {
      var front := trace[..|trace| - 1];
      LateForEver(g, seeded, n, first, front);
      NextKeepsInv(After(g, front), seeded, trace[|trace| - 1]);
      LateStep(After(g, front), seeded, n, first, trace[|trace| - 1]);
    }
  }

  /** The rows of one order. */
  function RowsOf(rows: seq<RefundRow>, n: nat): (r: seq<RefundRow>)
  {
    if rows == [] then []
    else RowsOf(rows[..|rows| - 1], n) + if rows[|rows| - 1].orderId == n then [rows[|rows| - 1]] else []
  }

  lemma {:induction false} NewRowsAreElsewhere(rows: seq<RefundRow>, more: seq<RefundRow>, n: nat)
    requires rows <= more && HasRefund(rows, n)
    requires forall i, j | 0 <= i < j < |more| :: more[i].orderId != more[j].orderId
    ensures RowsOf(more, n) == RowsOf(rows, n)
  {
    if |more| > |rows| {
      var i :| 0 <= i < |rows| && rows[i].orderId == n;
      assert more[i].orderId == n;
      NewRowsAreElsewhere(rows, more[..|more| - 1], n);
    } else {
      assert rows == more;
    }
  }

  lemma BecomesLate(g: System, seeded: set<nat>, n: nat)
    requires Inv(g, seeded) && n in g.tables.orders && g.tables.orders[n].status == Status.Refunded
    ensures Late(g, n, |g.runs|)
  {
    assert forall a | 0 <= a < |g.attempts| :: AttemptOk(g.tables, seeded, g.runs, g.attempts[a]);
  }

  lemma LateMeans(h: System, n: nat, first: nat, r: nat)
    requires Late(h, n, first) && first <= r < |h.runs| && RefundRunFor(h.runs[r], n)
    ensures LateRun(h.runs[r])
    ensures forall a | 0 <= a < |h.attempts| && h.attempts[a].run == r :: h.attempts[a].command == ScheduleLoad
  {
  }

  /** Whatever became of the run that refunded an order, FAILED included, a run started afterwards never waits for an
      approval, never schedules the refund and never adds a row: it ends COMPLETED because it found the order
      refunded, or FAILED. */
  lemma RerunFindsTheRefund(t: Tables, g: System, h: System, n: nat)
    requires Possible(t, g) && LeadsTo(g, h)
    ensures n in g.tables.orders && g.tables.orders[n].status == Status.Refunded ==>
      && (forall r | |g.runs| <= r < |h.runs| && RefundRunFor(h.runs[r], n) ::
            && LateRun(h.runs[r])
            && (forall a | 0 <= a < |h.attempts| && h.attempts[a].run == r :: h.attempts[a].command == ScheduleLoad))
      && RowsOf(h.tables.refunds, n) == RowsOf(g.tables.refunds, n)
  {
    var seeded := SeededRefunds(t);
    if n in g.tables.orders && g.tables.orders[n].status == Status.Refunded {
      PossibleIsOk(t, g);
      BecomesLate(g, seeded, n);
      var trace :| After(g, trace) == h;
      LateForEver(g, seeded, n, |g.runs|, trace);
      forall r | |g.runs| <= r < |h.runs| && RefundRunFor(h.runs[r], n)
        ensures LateRun(h.runs[r])
        ensures forall a | 0 <= a < |h.attempts| && h.attempts[a].run == r :: h.attempts[a].command == ScheduleLoad
      {
        LateMeans(h, n, |g.runs|, r);
      }
      LaterEvolves(g, h);
      RowsStay(g.tables, h.tables, seeded, n);
    }
  }

  lemma RowsStay(t: Tables, u: Tables, seeded: set<nat>, n: nat)
    requires Consistent(t, seeded) && Consistent(u, seeded) && Evolves(t, u)
    requires n in t.orders && t.orders[n].status == Status.Refunded
    ensures RowsOf(u.refunds, n) == RowsOf(t.refunds, n)
  {
    if HasRefund(t.refunds, n) {
      NewRowsAreElsewhere(t.refunds, u.refunds, n);
    } else {
      assert n in seeded;
      NoRowsOf(t.refunds, n);
      NoRowsOf(u.refunds, n);
    }
  }

  lemma {:induction false} NoRowsOf(rows: seq<RefundRow>, n: nat)
    requires !HasRefund(rows, n)
    ensures RowsOf(rows, n) == []
  {
    if rows != [] {
      assert rows[|rows| - 1].orderId != n;
      NoRowsOf(rows[..|rows| - 1], n);
    }
  }
}
