/** How final a denial is. The approval belongs to a run, and so do the attempts that it allows; a later run that is
    denied does not call them back. */
module ProtocolDenials {
  import opened Base
  import opened Orders
  import opened Ledger
  import opened Workflows
  import opened Identifiers
  import opened Protocol
  import opened ProtocolInvariant
  import opened ProtocolSafety
  import opened ProtocolSteps

  function RefundId(n: nat): (id: string)
  {
    WorkflowId(Kind.Refunding, n)
  }

  predicate Approves(step: Step, n: nat)
  {
    step.Signal? && step.id == RefundId(n) && step.approval.approved
  }

  ghost predicate NoApproval(trace: seq<Step>, n: nat)
  {
    forall i | 0 <= i < |trace| :: !Approves(trace[i], n)
  }

  predicate Paid(g: System, n: nat)
  {
    n in g.tables.orders && g.tables.orders[n].status == Status.Refunded
  }

  /** The order can still be refunded although nobody approves anything any more. */
  ghost predicate CanBePaidUnapproved(g: System, n: nat)
  {
    exists trace :: NoApproval(trace, n) && Paid(After(g, trace), n)
  }

  predicate IsOutstanding(attempt: Attempt, n: nat)
  {
    attempt.command == ScheduleExecute && attempt.call.n == n && attempt.reply.None?
  }

  /** An execution attempt for the order has begun, and its transaction has neither committed nor rolled back. */
  predicate Outstanding(attempts: seq<Attempt>, n: nat)
  {
    exists a :: 0 <= a < |attempts| && IsOutstanding(attempts[a], n)
  }

  // ---- Without an outstanding attempt ----

  /** An open refund run that has no approval, neither handled nor waiting in its inbox. */
  predicate QuietRun(run: Run)
    requires run.machine.RefundMachine?
  {
    && (var state := run.machine.refund.state; state.Started? || state.CheckingOrder? || state.WaitingForApproval?)
    && (run.machine.refund.approval.Some? ==> !run.machine.refund.approval.value.approved)
    && (forall i | 0 <= i < |run.inbox| :: !run.inbox[i].approved)
  }

  ghost predicate QuietRuns(runs: seq<Run>, n: nat)
  {
    forall r | 0 <= r < |runs| && Open(runs[r]) && runs[r].machine.RefundMachine? && runs[r].input.n == n ::
      QuietRun(runs[r])
  }

  ghost predicate Quiet(g: System, n: nat)
  {
    && n in g.tables.orders && g.tables.orders[n].status != Status.Refunded
    && Total(g.tables.products, g.tables.orders[n]) > APPROVAL_THRESHOLD
    && QuietRuns(g.runs, n)
    && !Outstanding(g.attempts, n)
  }

  lemma QuietTask(t: Tables, seeded: set<nat>, run: Run, taken: nat, answered: bool)
    requires RunOk(t, seeded, run) && TaskEnabled(run, taken, answered)
    requires run.machine.RefundMachine? && QuietRun(run)
    requires run.input.n in t.orders && Total(t.products, t.orders[run.input.n]) > APPROVAL_THRESHOLD
    ensures
      var run' := AfterTask(run, taken, answered);
      run'.machine.RefundMachine? && (Open(run') ==> QuietRun(run'))
  {
    assert forall i | 0 <= i < taken :: run.inbox[..taken][i] == run.inbox[i];
    assert forall i | 0 <= i < |run.inbox| - taken :: run.inbox[taken..][i] == run.inbox[taken + i];
  }

  /** How one run changes in a step. */
  lemma RunChange(g: System, step: Step, r: nat)
    requires r < |g.runs|
    ensures r < |Next(g, step).runs|
    ensures
      var run, run' := g.runs[r], Next(g, step).runs[r];
      && run'.input == run.input
      && (|| (run'.machine == run.machine && run'.inbox == run.inbox && (Open(run') ==> Open(run)))
          || (step.Signal? && run.id == step.id && Open(run) && run' == run.(inbox := run.inbox + [step.approval]))
          || (step.WorkflowTask? && TaskEnabled(run, step.taken, step.answered)
              && run' == AfterTask(run, step.taken, step.answered)))
  {
  }

  lemma QuietRunStep(g: System, seeded: set<nat>, n: nat, step: Step, r: nat)
    requires Inv(g, seeded) && Quiet(g, n) && !Approves(step, n) && r < |g.runs|
    requires g.runs[r].input.n == n && g.runs[r].machine.RefundMachine? && Open(g.runs[r])
    ensures r < |Next(g, step).runs| && Next(g, step).runs[r].machine.RefundMachine?
    ensures Open(Next(g, step).runs[r]) ==> QuietRun(Next(g, step).runs[r])
  {
    var run := g.runs[r];
    assert RunOk(g.tables, seeded, run);
    RunChange(g, step, r);
    if step.WorkflowTask? && TaskEnabled(run, step.taken, step.answered) {
      QuietTask(g.tables, seeded, run, step.taken, step.answered);
    }
  }

  lemma ClosedOrOtherStays(g: System, step: Step, r: nat)
    requires r < |g.runs|
    ensures r < |Next(g, step).runs| && Next(g, step).runs[r].input == g.runs[r].input
    ensures Next(g, step).runs[r].machine.RefundMachine? == g.runs[r].machine.RefundMachine?
    ensures Open(Next(g, step).runs[r]) ==> Open(g.runs[r])
  {
  }

  lemma QuietRunsStep(g: System, seeded: set<nat>, n: nat, step: Step)
    requires Inv(g, seeded) && Quiet(g, n) && !Approves(step, n)
    ensures QuietRuns(Next(g, step).runs, n)
  {
    var runs := Next(g, step).runs;
    forall r | 0 <= r < |runs| && Open(runs[r]) && runs[r].machine.RefundMachine? && runs[r].input.n == n
      ensures QuietRun(runs[r])
    {
      if r < |g.runs| {
        ClosedOrOtherStays(g, step, r);
        QuietRunStep(g, seeded, n, step, r);
      } else {
      }
    }
  }

  /** A step begins an attempt of an open run, or leaves the attempts that there are but for their replies. */
  lemma AttemptChange(g: System, step: Step, a: nat)
    requires a < |Next(g, step).attempts|
    ensures a < |g.attempts| ==>
      && Next(g, step).attempts[a].command == g.attempts[a].command
      && Next(g, step).attempts[a].call == g.attempts[a].call
      && (Next(g, step).attempts[a].reply.None? ==> g.attempts[a].reply.None?)
    ensures a >= |g.attempts| ==>
      && step.BeginAttempt? && step.r < |g.runs| && CanAttempt(g.runs[step.r])
      && Next(g, step).attempts[a].command == g.runs[step.r].activity.value.command
      && Next(g, step).attempts[a].call == CallFor(Next(g, step).attempts[a].command, g.runs[step.r].input)
  {
  }

  lemma QuietAttemptsStep(g: System, seeded: set<nat>, n: nat, step: Step)
    requires Inv(g, seeded) && Quiet(g, n)
    ensures !Outstanding(Next(g, step).attempts, n)
  {
    var attempts := Next(g, step).attempts;
    forall a | 0 <= a < |attempts|
      ensures !IsOutstanding(attempts[a], n)
    {
      AttemptChange(g, step, a);
      if a < |g.attempts| {
        assert !IsOutstanding(g.attempts[a], n);
      } else {
        assert RunOk(g.tables, seeded, g.runs[step.r]);
      }
    }
  }

  /** The status of an order becomes `refunded` only in a transaction that had been outstanding. */
  lemma RefundedByOutstanding(g: System, seeded: set<nat>, n: nat, a: nat, survives: bool)
    requires Inv(g, seeded) && a < |g.attempts| && g.attempts[a].reply.None? && !IsOutstanding(g.attempts[a], n)
    requires n in g.tables.orders && g.tables.orders[n].status != Status.Refunded
    ensures
      var orders := AfterTransact(g, a, survives).tables.orders;
      n in orders && orders[n].status != Status.Refunded
  {
    assert AttemptOk(g.tables, seeded, g.runs, g.attempts[a]);
    OnlyTheOwnerChangesAnOrder(g.tables, g.attempts[a].call, n);
  }

  lemma ShopNeverRefunds(t: Tables, op: Op, n: nat)
    requires !op.Transaction? && n in t.orders && t.orders[n].status != Status.Refunded
    ensures n in Apply(t, op).orders && Apply(t, op).orders[n].status != Status.Refunded
  {
  }

  lemma NotRefundedStep(g: System, seeded: set<nat>, n: nat, step: Step)
    requires Inv(g, seeded) && !Outstanding(g.attempts, n)
    requires n in g.tables.orders && g.tables.orders[n].status != Status.Refunded
    ensures n in Next(g, step).tables.orders && Next(g, step).tables.orders[n].status != Status.Refunded
  {
    match step
    case Transact(a, survives) =>
      if a < |g.attempts| && g.attempts[a].reply.None? {
        assert !IsOutstanding(g.attempts[a], n);
        RefundedByOutstanding(g, seeded, n, a, survives);
      }
    case Shop(op) =>
      if !op.Transaction? {
        ShopNeverRefunds(g.tables, op, n);
      }
    case _ =>
  }

  lemma TotalStays(t: Tables, u: Tables, n: nat)
    requires Evolves(t, u) && n in t.orders
    ensures n in u.orders && Total(u.products, u.orders[n]) == Total(t.products, t.orders[n])
  {
  }

  lemma QuietTablesStep(g: System, seeded: set<nat>, n: nat, step: Step)
    requires Inv(g, seeded) && Quiet(g, n)
    ensures n in Next(g, step).tables.orders && Next(g, step).tables.orders[n].status != Status.Refunded
    ensures Total(Next(g, step).tables.products, Next(g, step).tables.orders[n]) > APPROVAL_THRESHOLD
  {
    NotRefundedStep(g, seeded, n, step);
    NextEvolves(g, step);
    TotalStays(g.tables, Next(g, step).tables, n);
  }

  lemma QuietStep(g: System, seeded: set<nat>, n: nat, step: Step)
    requires Inv(g, seeded) && Quiet(g, n) && !Approves(step, n)
    ensures Quiet(Next(g, step), n)
  {
    QuietTablesStep(g, seeded, n, step);
    QuietRunsStep(g, seeded, n, step);
    QuietAttemptsStep(g, seeded, n, step);
  }

  lemma {:induction false} QuietForEver(g: System, seeded: set<nat>, n: nat, trace: seq<Step>)
    requires Inv(g, seeded) && Quiet(g, n) && NoApproval(trace, n)
    ensures Inv(After(g, trace), seeded) && Quiet(After(g, trace), n)
  {
    if trace != [] {
      var front, step := trace[..|trace| - 1], trace[|trace| - 1];
      QuietForEver(g, seeded, n, front);
      assert trace == front + [step];
      AfterSnoc(g, front, step);
      NextKeepsInv(After(g, front), seeded, step);
      QuietStep(After(g, front), seeded, n, step);
    }
  }

  // ---- With one ----

  lemma OutstandingIsDelivered(g: System, seeded: set<nat>, n: nat, a: nat)
    requires Inv(g, seeded) && a < |g.attempts| && IsOutstanding(g.attempts[a], n)
    requires n in g.tables.orders && g.tables.orders[n].status != Status.Refunded
    ensures g.tables.orders[n].status == Delivered && g.attempts[a].call.RefundCall?
    ensures Owned(g.tables.orders, n, g.attempts[a].call.customer)
    ensures g.attempts[a].call.key == IdempotencyKey(n)
  {
    assert AttemptOk(g.tables, seeded, g.runs, g.attempts[a]);
  }

  lemma RefundPays(t: Tables, seeded: set<nat>, n: nat, customer: string, reason: string)
    requires Consistent(t, seeded) && KeysMatch(t) && Owned(t.orders, n, customer)
    requires t.orders[n].status == Delivered && Total(t.products, t.orders[n]) < AMOUNT_LIMIT
    ensures
      var u := Atomic(t, RefundCall(n, customer, reason, IdempotencyKey(n))).0;
      n in u.orders && u.orders[n].status == Status.Refunded
  {
    RefundSucceedsExactlyWhen(t, seeded, n, customer, reason);
  }

  lemma OutstandingPays(g: System, seeded: set<nat>, n: nat, a: nat)
    requires Inv(g, seeded) && a < |g.attempts| && IsOutstanding(g.attempts[a], n)
    requires n in g.tables.orders && g.tables.orders[n].status != Status.Refunded
    requires Total(g.tables.products, g.tables.orders[n]) < AMOUNT_LIMIT
    ensures Paid(Next(g, Transact(a, true)), n) && Next(g, Transact(a, true)).runs == g.runs
  {
    var call := g.attempts[a].call;
    OutstandingIsDelivered(g, seeded, n, a);
    RefundPays(g.tables, seeded, n, call.customer, call.reason);
    TransactIs(g, a);
  }

  /** An amount that does not fit its column is never paid. */
  lemma TooMuchIsNeverPaid(t: Tables, u: Tables, seeded: set<nat>, n: nat)
    requires Consistent(t, seeded) && Consistent(u, seeded) && Evolves(t, u)
    requires n in t.orders && t.orders[n].status != Status.Refunded
    requires Total(t.products, t.orders[n]) >= AMOUNT_LIMIT
    ensures n in u.orders && u.orders[n].status != Status.Refunded
  {
    assert n !in seeded && Total(u.products, u.orders[n]) == Total(t.products, t.orders[n]);
    assert forall i | 0 <= i < |u.refunds| ::
      Total(u.products, u.orders[u.refunds[i].orderId]) == u.refunds[i].amount < AMOUNT_LIMIT;
  }

  lemma OneStepPays(g: System, n: nat, step: Step)
    requires Paid(Next(g, step), n) && !Approves(step, n)
    ensures CanBePaidUnapproved(g, n)
  {
    AfterSnoc(g, [], step);
    assert [] + [step] == [step];
    assert NoApproval([step], n) && Paid(After(g, [step]), n);
  }

  lemma NoOpenRunIsQuiet(runs: seq<Run>, seeded: set<nat>, t: Tables, n: nat)
    requires forall r | 0 <= r < |runs| :: RunOk(t, seeded, runs[r])
    requires FindOpen(runs, RefundId(n)).None?
    ensures QuietRuns(runs, n)
  {
    forall r | 0 <= r < |runs|
      ensures runs[r].machine.RefundMachine? ==> runs[r].id == RefundId(runs[r].input.n)
    {
      assert RunOk(t, seeded, runs[r]);
    }
  }

  /** Exactly when a denial is final. Say that no refund run for an order above the threshold is open, its last one
      having been denied, or having ended in any other way. Unless someone approves a refund of it again, it will
      never be refunded, exactly if no execution attempt for it is outstanding or its total does not fit the amount
      column. */
  lemma DenialIsFinalExactlyWhen(t: Tables, g: System, n: nat)
    requires Possible(t, g) && n in g.tables.orders && g.tables.orders[n].status != Status.Refunded
    requires Total(g.tables.products, g.tables.orders[n]) > APPROVAL_THRESHOLD
    requires FindOpen(g.runs, RefundId(n)).None?
    ensures CanBePaidUnapproved(g, n) <==>
      Outstanding(g.attempts, n) && Total(g.tables.products, g.tables.orders[n]) < AMOUNT_LIMIT
  {
    var seeded := SeededRefunds(t);
    PossibleIsOk(t, g);
    if Outstanding(g.attempts, n) && Total(g.tables.products, g.tables.orders[n]) < AMOUNT_LIMIT {
      var a :| 0 <= a < |g.attempts| && IsOutstanding(g.attempts[a], n);
      OutstandingPays(g, seeded, n, a);
      OneStepPays(g, n, Transact(a, true));
    } else {
      forall trace | NoApproval(trace, n)
        ensures !Paid(After(g, trace), n)
      {
        NeverPaid(g, seeded, n, trace);
      }
    }
  }

  lemma NeverPaid(g: System, seeded: set<nat>, n: nat, trace: seq<Step>)
    requires Inv(g, seeded) && n in g.tables.orders && g.tables.orders[n].status != Status.Refunded
    requires Total(g.tables.products, g.tables.orders[n]) > APPROVAL_THRESHOLD
    requires FindOpen(g.runs, RefundId(n)).None? && NoApproval(trace, n)
    requires !Outstanding(g.attempts, n) || Total(g.tables.products, g.tables.orders[n]) >= AMOUNT_LIMIT
    ensures !Paid(After(g, trace), n)
  {
    if !Outstanding(g.attempts, n) {
      NoOpenRunIsQuiet(g.runs, seeded, g.tables, n);
      QuietForEver(g, seeded, n, trace);
    } else {
      AfterKeepsInv(g, trace, seeded);
      AfterEvolves(g, trace);
      TooMuchIsNeverPaid(g.tables, After(g, trace).tables, seeded, n);
    }
  }

  // ---- A refund that is paid after its last request was denied ----

  function Order(t: Tables, input: Input): (order: OrderTotal)
    requires input.n in t.orders
  {
    OrderTotal(input.n, t.orders[input.n].status, Total(t.products, t.orders[input.n]))
  }

  /** A refund of it needs an approval and can be paid. */
  predicate NeedsApproval(t: Tables, input: Input)
  {
    && Owned(t.orders, input.n, input.requestedBy) && t.orders[input.n].status == Delivered
    && APPROVAL_THRESHOLD < Total(t.products, t.orders[input.n]) < AMOUNT_LIMIT
  }

  function RefundRun(input: Input, w: Refund, inbox: seq<Approval>, activity: Option<Activity>,
        consumed: Option<Approval>): (run: Run)
  {
    Run(RefundId(input.n), input, RefundMachine(w), inbox, activity, false, consumed)
  }

  function WaitingRun(t: Tables, input: Input): (run: Run)
    requires input.n in t.orders
  {
    RefundRun(input, Refund(WaitingForApproval(Order(t, input).total), None), [], None, None)
  }

  function LoadAttempt(t: Tables, r: nat, input: Input): (attempt: Attempt)
    requires input.n in t.orders
  {
    Attempt(r, ScheduleLoad, 1, LoadCall(input.n, input.requestedBy), Some(LoadReply(Some(Order(t, input)))))
  }

  lemma Starts(states: System -> bool, g: System, input: Input, h: System)
    requires StepClosed(states) && states(g) && FindOpen(g.runs, RefundId(input.n)).None?
    requires h == g.(runs := g.runs + [RefundRun(input, FRESH_REFUND, [], None, None)])
    ensures states(h)
  {
    StepTo(states, g, StartRun(Kind.Refunding, input), h);
  }

  function CheckingRun(input: Input, tries: nat, live: Option<nat>, answer: Option<Answer>): (run: Run)
  {
    RefundRun(input, Refund(CheckingOrder, None), [], Some(Activity(ScheduleLoad, tries, live, answer)), None)
  }

  /** A new run asks for its load. */
  lemma Started(states: System -> bool, g: System, input: Input, h: System)
    requires StepClosed(states) && states(g) && FindOpen(g.runs, RefundId(input.n)).None?
    requires h == g.(runs := g.runs + [CheckingRun(input, 0, None, None)])
    ensures states(h)
  {
    var g1 := g.(runs := g.runs + [RefundRun(input, FRESH_REFUND, [], None, None)]);
    Starts(states, g, input, g1);
    assert AfterTask(g1.runs[|g.runs|], 0, false) == CheckingRun(input, 0, None, None);
    TaskTo(states, g1, |g.runs|, 0, false, h);
  }

  function Attempting(activity: Activity, live: nat): (r: Activity)
  {
    activity.(tries := activity.tries + 1, live := Some(live))
  }

  /** Some attempt of the run's activity begins. */
  lemma Attempted(states: System -> bool, g: System, r: nat, h: System)
    requires StepClosed(states) && states(g) && r < |g.runs| && CanAttempt(g.runs[r])
    requires
      var run, activity := g.runs[r], g.runs[r].activity.value;
      h == System(g.tables, g.runs[r := run.(activity := Some(Attempting(activity, |g.attempts|)))],
        g.attempts + [Attempt(r, activity.command, activity.tries + 1, CallFor(activity.command, run.input), None)],
        g.inserters)
    ensures states(h)
  {
    StepTo(states, g, BeginAttempt(r), h);
  }

  /** The last attempt, a load, is answered. */
  lemma Loads(states: System -> bool, g: System, r: nat, a: nat, input: Input, h: System)
    requires StepClosed(states) && states(g) && r < |g.runs| && a < |g.attempts|
    requires Owned(g.tables.orders, input.n, input.requestedBy)
    requires g.attempts[a] == Attempt(r, ScheduleLoad, 1, LoadCall(input.n, input.requestedBy), None)
    requires g.runs[r] == CheckingRun(input, 1, Some(a), None)
    requires h == System(g.tables,
      g.runs[r := CheckingRun(input, 1, None, Some(Loaded(Order(g.tables, input))))],
      g.attempts[a := LoadAttempt(g.tables, r, input)], g.inserters)
    ensures states(h)
  {
    var reply := LoadReply(Some(Order(g.tables, input)));
    var g1 := g.(attempts := g.attempts[a := LoadAttempt(g.tables, r, input)]);
    TransactTo(states, g, a, reply, g1);
    ReportTo(states, g1, r, reply, h);
  }

  lemma LoadedRunWaits(t: Tables, input: Input)
    requires NeedsApproval(t, input)
    ensures
      var run := CheckingRun(input, 1, None, Some(Loaded(Order(t, input))));
      TaskEnabled(run, 0, true) && AfterTask(run, 0, true) == WaitingRun(t, input)
  {
  }

  /** From the start of a run to its wait. */
  lemma ComesToWait(states: System -> bool, g: System, input: Input, h: System)
    requires StepClosed(states) && states(g)
    requires FindOpen(g.runs, RefundId(input.n)).None? && NeedsApproval(g.tables, input)
    requires h == System(g.tables, g.runs + [WaitingRun(g.tables, input)],
      g.attempts + [LoadAttempt(g.tables, |g.runs|, input)], g.inserters)
    ensures states(h)
  {
    var r, a := |g.runs|, |g.attempts|;
    var attempt := Attempt(r, ScheduleLoad, 1, LoadCall(input.n, input.requestedBy), None);
    var loaded := CheckingRun(input, 1, None, Some(Loaded(Order(g.tables, input))));
    var g1 := g.(runs := g.runs + [CheckingRun(input, 0, None, None)]);
    var g2 := System(g.tables, g.runs + [CheckingRun(input, 1, Some(a), None)], g.attempts + [attempt], g.inserters);
    var g3 := System(g.tables, g.runs + [loaded], h.attempts, g.inserters);
    Started(states, g, input, g1);
    assert g1.runs[r := CheckingRun(input, 1, Some(a), None)] == g2.runs;
    Attempted(states, g1, r, g2);
    assert g2.runs[r := loaded] == g3.runs && g2.attempts[a := LoadAttempt(g.tables, r, input)] == g3.attempts;
    Loads(states, g2, r, a, input, g3);
    LoadedRunWaits(g.tables, input);
    assert g3.runs[r := WaitingRun(g.tables, input)] == h.runs;
    TaskTo(states, g3, r, 0, true, h);
  }

  function DecidedRun(t: Tables, input: Input, approval: Approval): (run: Run)
    requires input.n in t.orders
  {
    RefundRun(input, Refund(Decided(Order(t, input).total, Some(approval)), Some(approval)), [],
      if approval.approved then Some(Activity(ScheduleExecute, 0, None, None)) else None, Some(approval))
  }

  lemma WaitingRunDecides(t: Tables, input: Input, approval: Approval)
    requires input.n in t.orders
    ensures
      var run := WaitingRun(t, input).(inbox := [approval]);
      TaskEnabled(run, 1, false) && AfterTask(run, 1, false) == DecidedRun(t, input, approval)
  {
    assert [approval][..1] == [approval] && [approval][1..] == [];
  }

  /** The run that waits is signalled, and decides. */
  lemma IsDecided(states: System -> bool, g: System, r: nat, input: Input, approval: Approval, h: System)
    requires StepClosed(states) && states(g) && input.n in g.tables.orders
    requires r < |g.runs| && FindOpen(g.runs, RefundId(input.n)) == Some(r) && g.runs[r] == WaitingRun(g.tables, input)
    requires h == SetRun(g, r, DecidedRun(g.tables, input, approval))
    ensures states(h)
  {
    var g1 := SetRun(g, r, g.runs[r].(inbox := [approval]));
    assert g.runs[r].inbox + [approval] == [approval];
    StepTo(states, g, Signal(RefundId(input.n), approval), g1);
    WaitingRunDecides(g.tables, input, approval);
    assert h == SetRun(g1, r, DecidedRun(g.tables, input, approval));
    TaskTo(states, g1, r, 1, false, h);
  }

  function LostAttempt(r: nat, number: nat, input: Input): (attempt: Attempt)
  {
    Attempt(r, ScheduleExecute, number, CallFor(ScheduleExecute, input), None)
  }

  function ExecutingRun(input: Input, amount: int, approval: Approval, tries: nat, answer: Option<Answer>): (run: Run)
  {
    RefundRun(input, Refund(RefundState.Refunding(amount), Some(approval)), [],
      Some(Activity(ScheduleExecute, tries, None, answer)), Some(approval))
  }

  /** An execution attempt begins, and the service gives it up. */
  lemma LosesAttempt(states: System -> bool, g: System, r: nat, input: Input, amount: int, approval: Approval,
        tries: nat, h: System)
    requires StepClosed(states) && states(g) && r < |g.runs| && tries < MAXIMUM_ATTEMPTS
    requires g.runs[r] == ExecutingRun(input, amount, approval, tries, None)
    requires h == System(g.tables,
      g.runs[r := ExecutingRun(input, amount, approval, tries + 1,
        if tries + 1 < MAXIMUM_ATTEMPTS then None else Some(ActivityFailed))],
      g.attempts + [LostAttempt(r, tries + 1, input)], g.inserters)
    ensures states(h)
  {
    var activity := Attempting(g.runs[r].activity.value, |g.attempts|);
    var g1 := System(g.tables, g.runs[r := g.runs[r].(activity := Some(activity))],
      g.attempts + [LostAttempt(r, tries + 1, input)], g.inserters);
    Attempted(states, g, r, g1);
    assert h.runs == g1.runs[r := h.runs[r]];
    GiveUpTo(states, g1, r, h);
  }

  function FailedRun(input: Input, approval: Approval): (run: Run)
  {
    RefundRun(input, Refund(Failed, Some(approval)), [], None, Some(approval))
  }

  /** A run that executes loses all its attempts, and fails. */
  lemma Fails(states: System -> bool, g: System, r: nat, input: Input, amount: int, approval: Approval, h: System)
    requires StepClosed(states) && states(g)
    requires r < |g.runs| && g.runs[r] == ExecutingRun(input, amount, approval, 0, None)
    requires h == System(g.tables, g.runs[r := FailedRun(input, approval)],
      g.attempts + [LostAttempt(r, 1, input)] + [LostAttempt(r, 2, input)] + [LostAttempt(r, 3, input)], g.inserters)
    ensures states(h)
  {
    var run1 := ExecutingRun(input, amount, approval, 1, None);
    var run2 := ExecutingRun(input, amount, approval, 2, None);
    var run3 := ExecutingRun(input, amount, approval, 3, Some(ActivityFailed));
    var attempts := g.attempts + [LostAttempt(r, 1, input)];
    var g1 := System(g.tables, g.runs[r := run1], attempts, g.inserters);
    var g2 := System(g.tables, g.runs[r := run2], attempts + [LostAttempt(r, 2, input)], g.inserters);
    var g3 := System(g.tables, g.runs[r := run3], h.attempts, g.inserters);
    LosesAttempt(states, g, r, input, amount, approval, 0, g1);
    assert g1.runs[r := run2] == g2.runs && g2.runs[r := run3] == g3.runs;
    LosesAttempt(states, g1, r, input, amount, approval, 1, g2);
    LosesAttempt(states, g2, r, input, amount, approval, 2, g3);
    assert AfterTask(run3, 0, true) == FailedRun(input, approval);
    assert g3.runs[r := FailedRun(input, approval)] == h.runs;
    TaskTo(states, g3, r, 0, true, h);
  }

  /** A run that was approved has failed, having lost its attempts; the next one for the same order was denied. */
  predicate FailedThenDenied(t: Tables, g: System, input: Input)
  {
    && g.tables == t
    && |g.runs| == 2 && g.runs[0].input == input && g.runs[1].input == input
    && g.runs[0].machine.RefundMachine? && g.runs[0].machine.refund.state == Failed
    && g.runs[0].consumed.Some? && g.runs[0].consumed.value.approved
    && g.runs[1].machine.RefundMachine? && g.runs[1].machine.refund.state == Rejected(ApprovalDenied)
    && FindOpen(g.runs, RefundId(input.n)).None?
    && |g.attempts| > 1 && IsOutstanding(g.attempts[1], input.n)
  }

  const YES := Approval(true, "")

  const NO := Approval(false, "")

  function AfterFailing(t: Tables, input: Input): (g: System)
    requires input.n in t.orders
  {
    System(t, [FailedRun(input, YES)],
      [LoadAttempt(t, 0, input)]
        + [LostAttempt(0, 1, input)] + [LostAttempt(0, 2, input)] + [LostAttempt(0, 3, input)], [])
  }

  lemma OnlyRun(run: Run, id: string)
    requires Open(run) && run.id == id
    ensures FindOpen([run], id) == Some(0)
  {
  }

  lemma ApprovedRunFails(states: System -> bool, t: Tables, input: Input)
    requires StepClosed(states) && states(Begin(t)) && NeedsApproval(t, input)
    ensures states(AfterFailing(t, input))
  {
    var g1 := System(t, [WaitingRun(t, input)], [LoadAttempt(t, 0, input)], []);
    var g2 := System(t, [DecidedRun(t, input, YES)], [LoadAttempt(t, 0, input)], []);
    assert [] + [WaitingRun(t, input)] == g1.runs && [] + [LoadAttempt(t, 0, input)] == g1.attempts;
    ComesToWait(states, Begin(t), input, g1);
    OnlyRun(WaitingRun(t, input), RefundId(input.n));
    assert g1.runs[0 := DecidedRun(t, input, YES)] == g2.runs;
    IsDecided(states, g1, 0, input, YES, g2);
    assert g2.runs[0 := FailedRun(input, YES)] == [FailedRun(input, YES)];
    Fails(states, g2, 0, input, Order(t, input).total, YES, AfterFailing(t, input));
  }

  lemma LastOfTwo(first: Run, last: Run, id: string)
    requires !Open(first)
    ensures Open(last) && last.id == id ==> FindOpen([first, last], id) == Some(1)
    ensures !Open(last) ==> FindOpen([first, last], id).None?
    ensures FindOpen([first], id).None?
  {
    assert [first, last][..1] == [first] && [first][..0] == [];
  }

  function AfterDenial(t: Tables, input: Input): (g: System)
    requires input.n in t.orders
  {
    System(t, [FailedRun(input, YES), DecidedRun(t, input, NO)],
      AfterFailing(t, input).attempts + [LoadAttempt(t, 1, input)], [])
  }

  lemma DenialIsReached(states: System -> bool, t: Tables, input: Input)
    requires StepClosed(states) && states(Begin(t)) && NeedsApproval(t, input)
    ensures states(AfterDenial(t, input))
  {
    var g1 := AfterFailing(t, input);
    var g2 := AfterDenial(t, input).(runs := [FailedRun(input, YES), WaitingRun(t, input)]);
    ApprovedRunFails(states, t, input);
    LastOfTwo(FailedRun(input, YES), WaitingRun(t, input), RefundId(input.n));
    assert g1.runs + [WaitingRun(t, input)] == g2.runs;
    ComesToWait(states, g1, input, g2);
    assert g2.runs[1 := DecidedRun(t, input, NO)] == AfterDenial(t, input).runs;
    IsDecided(states, g2, 1, input, NO, AfterDenial(t, input));
  }

  /** From any initial tables, for any delivered order above the threshold: a state in which a refund of it was approved
      and its run has failed, and the run after that was denied; one more step, a late transaction of the first run, and
      the refund is paid, while no run changes: the first is FAILED although it has committed. */
  lemma PaidAfterDenial(t: Tables, input: Input) returns (g: System)
    requires Initial(t) && NeedsApproval(t, input)
    ensures Possible(t, g) && FailedThenDenied(t, g, input)
    ensures Possible(t, Next(g, Transact(1, true))) && Paid(Next(g, Transact(1, true)), input.n)
    ensures Next(g, Transact(1, true)).runs == g.runs
  {
    g := AfterDenial(t, input);
    PossibleIsClosed(t);
    DenialIsReached(h => Possible(t, h), t, input);
    LastOfTwo(FailedRun(input, YES), DecidedRun(t, input, NO), RefundId(input.n));
    PossibleIsOk(t, g);
    OutstandingPays(g, SeededRefunds(t), input.n, 1);
    StepIsPossible(t, g, Transact(1, true));
  }
}
