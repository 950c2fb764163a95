/** What the protocol guarantees over all its runs: any number of starts, signals, retries, lost acknowledgements, late
    attempts, expiries and re-runs, with the shop fulfilling and taking orders in between. */
module ProtocolSafety {
  import opened Base
  import opened Orders
  import opened Ledger
  import opened Workflows
  import opened Identifiers
  import opened Protocol
  import opened ProtocolInvariant

  // ---- Runs of the system ----

  lemma AfterSnoc(g: System, front: seq<Step>, step: Step)
    ensures After(g, front + [step]) == Next(After(g, front), step)
  {
    FoldSnoc(Next, g, front, step);
  }

  lemma AfterSplits(g: System, a: seq<Step>, b: seq<Step>)
    ensures After(g, a + b) == After(After(g, a), b)
  {
    FoldSplits(Next, g, a, b);
  }

  lemma NextEvolves(g: System, step: Step)
    ensures Evolves(g.tables, Next(g, step).tables)
  {
    match step
    case Transact(a, survives) =>
      if a < |g.attempts| {
        ApplyEvolves(g.tables, Transaction(g.attempts[a].call));
      }
    case Shop(op) => ApplyEvolves(g.tables, op);
    case _ =>
  }

  /** The tables only move forward. */
  lemma {:induction false} AfterEvolves(g: System, trace: seq<Step>)
    ensures Evolves(g.tables, After(g, trace).tables)
  {
    if trace != [] {
      AfterEvolves(g, trace[..|trace| - 1]);
      NextEvolves(After(g, trace[..|trace| - 1]), trace[|trace| - 1]);
      EvolvesTransitive(g.tables, After(g, trace[..|trace| - 1]).tables, After(g, trace).tables);
    }
  }

  lemma LaterEvolves(g: System, h: System)
    requires LeadsTo(g, h)
    ensures Evolves(g.tables, h.tables)
  {
    var trace :| After(g, trace) == h;
    AfterEvolves(g, trace);
  }

  lemma LaterIsPossible(t: Tables, g: System, h: System)
    requires Possible(t, g) && LeadsTo(g, h)
    ensures Possible(t, h)
  {
    var a :| After(Begin(t), a) == g;
    var b :| After(g, b) == h;
    AfterSplits(Begin(t), a, b);
  }

  // ---- Runs that have ended ----

  lemma EndedStaysEnded(g: System, step: Step, r: nat)
    requires r < |g.runs| && !Open(g.runs[r])
    ensures r < |Next(g, step).runs| && Next(g, step).runs[r] == g.runs[r]
  {
  }

  /** A run that has ended, by itself or at its execution timeout, never changes again: no late report reaches it, and
      no signal. */
  lemma {:induction false} EndedIsFinal(g: System, trace: seq<Step>, r: nat)
    requires r < |g.runs| && (g.runs[r].expired || Closed(g.runs[r].machine))
    ensures r < |After(g, trace).runs| && After(g, trace).runs[r] == g.runs[r]
  {
    if trace != [] {
      var front := trace[..|trace| - 1];
      EndedIsFinal(g, front, r);
      EndedStaysEnded(After(g, front), trace[|trace| - 1], r);
    }
  }

  /** The execution timeout ends any run that is open, and does nothing else: an attempt of it goes on. */
  lemma ExpiryEndsTheRun(g: System, r: nat)
    requires r < |g.runs| && !g.runs[r].expired && !Closed(g.runs[r].machine)
    ensures
      var h := Next(g, Expire(r));
      && h.tables == g.tables && h.attempts == g.attempts && |h.runs| == |g.runs|
      && h.runs[r].expired && h.runs[r].machine == g.runs[r].machine
      && (forall s | 0 <= s < |g.runs| && s != r :: h.runs[s] == g.runs[s])
  {
  }

  // ---- Exactly once ----

  /** The attempts that refunded an order and its refund rows, in any state that satisfies the invariant. */
  lemma RefundersAreUnique(t: Tables, attempts: seq<Attempt>, inserters: seq<nat>, a: nat, b: nat)
    requires Schema(t) && RowsOk(t, attempts, inserters) && a < |attempts| && b < |attempts|
    requires DidRefund(attempts[a]) && DidRefund(attempts[b]) && attempts[a].call.n == attempts[b].call.n
    ensures a == b
  {
    assert a in inserters && b in inserters;
    var i :| 0 <= i < |inserters| && inserters[i] == a;
    var j :| 0 <= j < |inserters| && inserters[j] == b;
    assert t.refunds[i].orderId == t.refunds[j].orderId;
  }

  /** Some attempt has committed a refund of this order. */
  predicate WasRefundedBySome(attempts: seq<Attempt>, n: nat)
  {
    exists a :: 0 <= a < |attempts| && DidRefund(attempts[a]) && attempts[a].call.n == n
  }

  lemma RowsHaveRefunders(g: System, seeded: set<nat>, n: nat)
    requires Inv(g, seeded)
    ensures HasRefund(g.tables.refunds, n) <==> WasRefundedBySome(g.attempts, n)
  {
    var rows := g.tables.refunds;
    if HasRefund(rows, n) {
      var i :| 0 <= i < |rows| && rows[i].orderId == n;
      assert DidRefund(g.attempts[g.inserters[i]]);
    }
    if WasRefundedBySome(g.attempts, n) {
      var a :| 0 <= a < |g.attempts| && DidRefund(g.attempts[a]) && g.attempts[a].call.n == n;
      assert a in g.inserters;
      var i :| 0 <= i < |g.inserters| && g.inserters[i] == a;
      assert rows[i].orderId == n;
    }
  }

  /** Exactly-once effect. In every possible state an order has at most one refund row, with its full price, and is
      then `refunded`; at most one attempt ever committed a refund of it, and one did exactly if there is a row. */
  lemma ExactlyOnce(t: Tables, g: System)
    requires Possible(t, g)
    ensures
      var rows := g.tables.refunds;
      && (forall i, j | 0 <= i < j < |rows| :: rows[i].orderId != rows[j].orderId)
      && (forall i | 0 <= i < |rows| ::
            && rows[i].orderId in g.tables.orders
            && g.tables.orders[rows[i].orderId].sku in g.tables.products
            && rows[i].amount
                 == g.tables.products[g.tables.orders[rows[i].orderId].sku] * g.tables.orders[rows[i].orderId].quantity
            && g.tables.orders[rows[i].orderId].status == Status.Refunded)
      && (forall a, b | 0 <= a < b < |g.attempts| && DidRefund(g.attempts[a]) && DidRefund(g.attempts[b]) ::
            g.attempts[a].call.n != g.attempts[b].call.n)
      && (forall n :: HasRefund(rows, n) <==> WasRefundedBySome(g.attempts, n))
  {
    PossibleIsOk(t, g);
    forall a, b | 0 <= a < b < |g.attempts| && DidRefund(g.attempts[a]) && DidRefund(g.attempts[b])
      ensures g.attempts[a].call.n != g.attempts[b].call.n
    {
      if g.attempts[a].call.n == g.attempts[b].call.n {
        RefundersAreUnique(g.tables, g.attempts, g.inserters, a, b);
      }
    }
    forall n
      ensures HasRefund(g.tables.refunds, n) <==> WasRefundedBySome(g.attempts, n)
    {
      RowsHaveRefunders(g, SeededRefunds(t), n);
    }
  }

  /** The money paid out is exactly the price of the orders that the protocol refunded. */
  lemma LedgerConservation(t: Tables, g: System, bound: nat)
    requires Possible(t, g)
    requires forall n | n in g.tables.orders :: n < bound
    ensures SumAmounts(g.tables.refunds) == RefundedTotals(g.tables, SeededRefunds(t), bound)
    ensures forall n | n in g.tables.orders ::
      g.tables.orders[n].status == Status.Refunded <==> n in SeededRefunds(t) || HasRefund(g.tables.refunds, n)
    ensures forall n | n in SeededRefunds(t) :: !HasRefund(g.tables.refunds, n)
  {
    PossibleIsOk(t, g);
    Conservation(g.tables, SeededRefunds(t), bound);
  }

  // ---- Truthful completion ----

  /** A refund run that is COMPLETED, in whichever way, speaks the truth: its order is the requester's and refunded,
      then and in every later state. */
  lemma CompletedMeansRefunded(t: Tables, g: System, h: System, r: nat)
    requires Possible(t, g) && LeadsTo(g, h) && r < |g.runs|
    requires g.runs[r].machine.RefundMachine? && g.runs[r].machine.refund.state.Completed?
    ensures IsRefunded(g.tables, g.runs[r].input) && IsRefunded(h.tables, g.runs[r].input)
  {
    PossibleIsOk(t, g);
    assert RunOk(g.tables, SeededRefunds(t), g.runs[r]);
    LaterEvolves(g, h);
    TruthIsStable(g.tables, h.tables, SeededRefunds(t), g.runs[r].input);
  }

  /** A COMPLETED cancellation need not have cancelled anything: it also completes when the order is missing or past
      cancelling. What it reports is true for ever: if it found the order, then the order is `cancelled`, then and
      later, exactly when the reported status is. */
  lemma CancellationReportsTheTruth(t: Tables, g: System, h: System, r: nat)
    requires Possible(t, g) && LeadsTo(g, h) && r < |g.runs|
    requires g.runs[r].machine.CancelMachine? && g.runs[r].machine.cancel.CancelCompleted?
    requires g.runs[r].machine.cancel.result.found
    ensures
      var run := g.runs[r];
      && Owned(h.tables.orders, run.input.n, run.input.requestedBy)
      && (h.tables.orders[run.input.n].status == Cancelled <==> run.machine.cancel.result.status == Some(Cancelled))
  {
    PossibleIsOk(t, g);
    assert RunOk(g.tables, SeededRefunds(t), g.runs[r]);
    LaterEvolves(g, h);
    TruthIsStable(g.tables, h.tables, SeededRefunds(t), g.runs[r].input);
  }

  /** Once a run has come to REFUNDING, no attempt of it is ever told that the order is missing or not delivered: only
      database errors and lost attempts can make it fail. */
  lemma ExecutionIsNeverRefused(t: Tables, g: System, a: nat)
    requires Possible(t, g) && a < |g.attempts|
    requires g.attempts[a].command == ScheduleExecute && g.attempts[a].reply.Some?
    ensures !Translate(g.attempts[a].reply.value).NonRetryable?
  {
    PossibleIsOk(t, g);
    assert AttemptOk(g.tables, SeededRefunds(t), g.runs, g.attempts[a]);
  }

  // ---- Approval ----

  /** Approval safety: every refund above the threshold was committed by an attempt of a run that had consumed an
      approval, and a run that consumed a denial has no execution attempt at all. */
  lemma ApprovalSafety(t: Tables, g: System)
    requires Possible(t, g)
    ensures
      && |g.inserters| == |g.tables.refunds|
      && (forall i | 0 <= i < |g.inserters| ::
            var row, a := g.tables.refunds[i], g.inserters[i];
            && a < |g.attempts| && DidRefund(g.attempts[a]) && g.attempts[a].call.n == row.orderId
            && g.attempts[a].run < |g.runs|
            && var run := g.runs[g.attempts[a].run];
               row.amount > 20_000 ==> run.consumed.Some? && run.consumed.value.approved)
      && (forall a | 0 <= a < |g.attempts| && g.attempts[a].command == ScheduleExecute ::
            g.attempts[a].run < |g.runs|
            && var run := g.runs[g.attempts[a].run]; run.consumed.Some? ==> run.consumed.value.approved)
  {
    PossibleIsOk(t, g);
    forall a | 0 <= a < |g.attempts| && g.attempts[a].command == ScheduleExecute
      ensures g.attempts[a].run < |g.runs|
      ensures var run := g.runs[g.attempts[a].run];
        && Granted(g.tables, SeededRefunds(t), run)
        && g.attempts[a].call.n == run.input.n
        && (run.consumed.Some? ==> run.consumed.value.approved)
    {
      assert AttemptOk(g.tables, SeededRefunds(t), g.runs, g.attempts[a]);
      assert RunOk(g.tables, SeededRefunds(t), g.runs[g.attempts[a].run]);
    }
  }

  /** Step `k` signals this approval to run `r`, which is then the open run with its id. */
  predicate SentAt(after: seq<Step> -> System, trace: seq<Step>, k: nat, r: nat, id: string, approval: Approval)
  {
    k < |trace| && trace[k] == Signal(id, approval) && FindOpen(after(trace[..k]).runs, id) == Some(r)
  }

  ghost predicate WasSent(after: seq<Step> -> System, trace: seq<Step>, r: nat, id: string, approval: Approval)
  {
    exists k: nat :: SentAt(after, trace, k, r, id, approval)
  }

  ghost predicate SignalsWereSent(after: seq<Step> -> System, trace: seq<Step>, r: nat, run: Run)
  {
    && (forall i | 0 <= i < |run.inbox| :: WasSent(after, trace, r, run.id, run.inbox[i]))
    && (run.machine.RefundMachine? && run.machine.refund.approval.Some? ==>
          WasSent(after, trace, r, run.id, run.machine.refund.approval.value))
    && (run.consumed.Some? ==> WasSent(after, trace, r, run.id, run.consumed.value))
  }

  /** The approvals that a run holds or has consumed. */
  predicate Holds(run: Run, approval: Approval)
  {
    || approval in run.inbox
    || (run.machine.RefundMachine? && run.machine.refund.approval == Some(approval))
    || run.consumed == Some(approval)
  }

  lemma TaskInventsNoApproval(run: Run, taken: nat, answered: bool, approval: Approval)
    requires TaskEnabled(run, taken, answered) && Holds(AfterTask(run, taken, answered), approval)
    ensures Holds(run, approval)
  {
    assert forall i | 0 <= i < taken :: run.inbox[..taken][i] == run.inbox[i];
    assert forall i | taken <= i < |run.inbox| :: run.inbox[taken..][i - taken] == run.inbox[i];
  }

  lemma SentIsHeld(after: seq<Step> -> System, trace: seq<Step>, r: nat, run: Run)
    ensures SignalsWereSent(after, trace, r, run) <==>
      forall approval | Holds(run, approval) :: WasSent(after, trace, r, run.id, approval)
  {
  }

  lemma SentStaysSent(after: seq<Step> -> System, front: seq<Step>, step: Step, r: nat, id: string, approval: Approval)
    requires WasSent(after, front, r, id, approval)
    ensures WasSent(after, front + [step], r, id, approval)
  {
    var k: nat :| SentAt(after, front, k, r, id, approval);
    assert (front + [step])[..k] == front[..k];
    assert SentAt(after, front + [step], k, r, id, approval);
  }

  lemma SignalIsSent(after: seq<Step> -> System, front: seq<Step>, r: nat, id: string, approval: Approval)
    requires FindOpen(after(front).runs, id) == Some(r)
    ensures WasSent(after, front + [Signal(id, approval)], r, id, approval)
  {
    assert (front + [Signal(id, approval)])[..|front|] == front;
    assert SentAt(after, front + [Signal(id, approval)], |front|, r, id, approval);
  }

  /** How a run's signals can change in a step: one is delivered to it, it takes some, or nothing. */
  lemma RunAfterStep(g: System, step: Step, r: nat)
    requires r < |g.runs|
    ensures r < |Next(g, step).runs|
    ensures
      var run, run' := g.runs[r], Next(g, step).runs[r];
      || (run'.id == run.id && run'.inbox == run.inbox && run'.machine == run.machine && run'.consumed == run.consumed)
      || (step.Signal? && FindOpen(g.runs, step.id) == Some(r) && run.id == step.id
          && run' == run.(inbox := run.inbox + [step.approval]))
      || (step.WorkflowTask? && TaskEnabled(run, step.taken, step.answered)
          && run' == AfterTask(run, step.taken, step.answered))
  {
  }

  lemma NewRunHasNoSignals(g: System, step: Step, r: nat)
    requires |g.runs| <= r < |Next(g, step).runs|
    ensures
      var run := Next(g, step).runs[r];
      run.inbox == [] && run.consumed.None? && (run.machine.RefundMachine? ==> run.machine.refund.approval.None?)
  {
  }

  /** What a run holds after a step it held before, or the step signals it to this run. */
  lemma HeldAfterStep(g: System, step: Step, r: nat, approval: Approval)
    requires r < |g.runs|
    ensures r < |Next(g, step).runs| && Next(g, step).runs[r].id == g.runs[r].id
    ensures Holds(Next(g, step).runs[r], approval) ==>
      || Holds(g.runs[r], approval)
      || (step == Signal(g.runs[r].id, approval) && FindOpen(g.runs, g.runs[r].id) == Some(r))
  {
    RunAfterStep(g, step, r);
    if step.WorkflowTask? && TaskEnabled(g.runs[r], step.taken, step.answered)
        && Next(g, step).runs[r] == AfterTask(g.runs[r], step.taken, step.answered)
        && Holds(Next(g, step).runs[r], approval) {
      TaskInventsNoApproval(g.runs[r], step.taken, step.answered, approval);
    }
  }

  lemma StepUsesSentSignals(after: seq<Step> -> System, g: System, front: seq<Step>, step: Step, r: nat)
    requires after(front) == g && r < |g.runs| && SignalsWereSent(after, front, r, g.runs[r])
    ensures r < |Next(g, step).runs|
    ensures SignalsWereSent(after, front + [step], r, Next(g, step).runs[r])
  {
    var run, run' := g.runs[r], Next(g, step).runs[r];
    HeldAfterStep(g, step, r, Approval(true, ""));
    SentIsHeld(after, front, r, run);
    SentIsHeld(after, front + [step], r, run');
    forall approval | Holds(run', approval)
      ensures WasSent(after, front + [step], r, run'.id, approval)
    {
      HeldAfterStep(g, step, r, approval);
      if Holds(run, approval) {
        SentStaysSent(after, front, step, r, run.id, approval);
      } else {
        SignalIsSent(after, front, r, run.id, approval);
      }
    }
  }

  ghost predicate AllSignalsWereSent(after: seq<Step> -> System, trace: seq<Step>, runs: seq<Run>)
  {
    forall r: nat | r < |runs| :: SignalsWereSent(after, trace, r, runs[r])
  }

  lemma StepKeepsAllSent(after: seq<Step> -> System, g: System, h: System, front: seq<Step>, step: Step)
    requires after(front) == g && AllSignalsWereSent(after, front, g.runs) && h == Next(g, step)
    ensures AllSignalsWereSent(after, front + [step], h.runs)
  {
    forall r: nat | r < |h.runs|
      ensures SignalsWereSent(after, front + [step], r, h.runs[r])
    {
      if r < |g.runs| {
        StepUsesSentSignals(after, g, front, step, r);
      } else {
        NewRunHasNoSignals(g, step, r);
      }
    }
  }

  lemma SentAfterSnoc(t: Tables, front: seq<Step>, step: Step, g: System, h: System)
    requires After(Begin(t), front) == g && h == Next(g, step)
    requires AllSignalsWereSent(StateAfter(t), front, g.runs)
    ensures AllSignalsWereSent(StateAfter(t), front + [step], h.runs)
  {
    StepKeepsAllSent(StateAfter(t), g, h, front, step);
  }

  /** A run never invents an approval, nor takes one that was meant for an earlier run with its id: each one that it
      holds or consumed was signalled while this very run was the open one. */
  lemma {:induction false} ConsumedApprovalsWereSent(t: Tables, trace: seq<Step>, g: System)
    requires After(Begin(t), trace) == g
    ensures AllSignalsWereSent(StateAfter(t), trace, g.runs)
  {
    if trace != [] {
      var front, step := trace[..|trace| - 1], trace[|trace| - 1];
      assert trace == front + [step];
      AfterSnoc(Begin(t), front, step);
      ConsumedApprovalsWereSent(t, front, After(Begin(t), front));
      SentAfterSnoc(t, front, step, After(Begin(t), front), g);
    }
  }

  // ---- Exclusion and absorption ----

  lemma FinalStatuses(t: Tables, u: Tables, seeded: set<nat>, n: nat)
    requires Evolves(t, u) && Consistent(u, seeded) && n in t.orders
    ensures
      var s := t.orders[n].status;
      && n in u.orders
      && (s in {Cancelled, Status.Refunded} ==> u.orders[n].status == s)
      && (s == Cancelled ==> !HasRefund(u.refunds, n))
  {
  }

  /** `cancelled` and `refunded` are absorbing: a cancelled order never gets a refund row, nor a refunded one
      cancelled. */
  lemma CancelledAndRefundedAreFinal(t: Tables, g: System, h: System, n: nat)
    requires Possible(t, g) && LeadsTo(g, h) && n in g.tables.orders
    ensures
      var s := g.tables.orders[n].status;
      && n in h.tables.orders
      && (s in {Cancelled, Status.Refunded} ==> h.tables.orders[n].status == s)
      && (s == Cancelled ==> !HasRefund(h.tables.refunds, n))
  {
    LaterIsPossible(t, g, h);
    PossibleIsOk(t, h);
    LaterEvolves(g, h);
    FinalStatuses(g.tables, h.tables, SeededRefunds(t), n);
  }

  /** The attempt's own run asked for this change of an order of its requester. */
  predicate RequestedChange(g: System, a: nat, n: nat, status: Status)
    requires n in g.tables.orders
  {
    && a < |g.attempts| && g.attempts[a].run < |g.runs|
    && var run := g.runs[g.attempts[a].run];
    && run.input.n == n && run.input.requestedBy == g.tables.orders[n].owner
    && status == if run.machine.RefundMachine? then Status.Refunded else Cancelled
  }

  lemma TransactChangesAsRequested(g: System, seeded: set<nat>, a: nat, survives: bool, n: nat)
    requires Inv(g, seeded) && a < |g.attempts| && n in g.tables.orders
    ensures
      var u := AfterTransact(g, a, survives).tables;
      n in u.orders && (u.orders[n] != g.tables.orders[n] ==> RequestedChange(g, a, n, u.orders[n].status))
  {
    assert AttemptOk(g.tables, seeded, g.runs, g.attempts[a]);
    OnlyTheOwnerChangesAnOrder(g.tables, g.attempts[a].call, n);
  }

  /** Every status change is a fulfilment step of the shop, or is made by an attempt of a run that the order's owner
      requested, to the status that the run's kind asks for. */
  lemma StatusChangesAreRequested(t: Tables, g: System, step: Step, n: nat)
    requires Possible(t, g) && n in g.tables.orders
    ensures
      var u := Next(g, step).tables;
      && n in u.orders
      && (u.orders[n] != g.tables.orders[n] ==>
            || (step.Shop? && FulfilNext(g.tables.orders[n].status) == Some(u.orders[n].status))
            || (step.Transact? && RequestedChange(g, step.a, n, u.orders[n].status)))
  {
    PossibleIsOk(t, g);
    if step.Transact? && step.a < |g.attempts| {
      TransactChangesAsRequested(g, SeededRefunds(t), step.a, step.survives, n);
    }
  }

  // ---- Bounded retries ----

  predicate SameActivity(a: Attempt, b: Attempt)
  {
    a.run == b.run && a.command == b.command
  }

  lemma FourCollide(attempts: seq<Attempt>, a: nat, b: nat, c: nat, d: nat)
    requires Numbered(attempts) && a < b < c < d < |attempts|
    requires forall i | 0 <= i < |attempts| :: 1 <= attempts[i].number <= 3
    ensures !(SameActivity(attempts[a], attempts[b]) && SameActivity(attempts[b], attempts[c])
              && SameActivity(attempts[c], attempts[d]))
  {
  }

  /** An activity has at most three attempts, however often they time out. */
  lemma AtMostThreeAttempts(t: Tables, g: System, a: nat, b: nat, c: nat, d: nat)
    requires Possible(t, g) && a < b < c < d < |g.attempts|
    ensures !(SameActivity(g.attempts[a], g.attempts[b]) && SameActivity(g.attempts[b], g.attempts[c])
              && SameActivity(g.attempts[c], g.attempts[d]))
  {
    PossibleIsOk(t, g);
    forall i | 0 <= i < |g.attempts|
      ensures 1 <= g.attempts[i].number <= 3
    {
      assert AttemptOk(g.tables, SeededRefunds(t), g.runs, g.attempts[i]);
    }
    FourCollide(g.attempts, a, b, c, d);
  }

  /** Steps that a run can still take by itself before it closes or waits for an approval. */
  function Budget(run: Run): (steps: nat)
  {
    var stage := if Progress(run.machine) <= 4 then 4 - Progress(run.machine) else 0;
    8 * stage
    + if run.activity.None? || run.activity.value.answer.Some? then 0
      else 2 * (if run.activity.value.tries <= 3 then 3 - run.activity.value.tries else 0)
           + (if run.activity.value.live.Some? then 1 else 0) + 1
  }

  /** A step of a run's own that gets it anywhere: an attempt begins, ends or times out, or a task moves its status. */
  predicate OwnStep(step: Step, r: nat)
  {
    match step
    case BeginAttempt(s) => s == r
    case Report(s) => s == r
    case GiveUp(s) => s == r
    case WorkflowTask(s, _, _) => s == r
    case _ => false
  }

  predicate WaitsForSignal(run: Run)
  {
    run.machine.RefundMachine? && run.machine.refund.state.WaitingForApproval? && run.inbox == []
  }

  lemma TaskUsesBudget(t: Tables, seeded: set<nat>, run: Run, taken: nat, answered: bool)
    requires RunOk(t, seeded, run) && TaskEnabled(run, taken, answered)
    ensures Budget(AfterTask(run, taken, answered)) <= Budget(run)
    ensures answered || (run.activity.None? && taken == |run.inbox| && !WaitsForSignal(run)) ==>
      Budget(AfterTask(run, taken, answered)) < Budget(run)
  {
    TaskKeepsRunOk(t, seeded, run, taken, answered);
  }

  lemma AttemptsUseBudget(t: Tables, seeded: set<nat>, run: Run, reply: Reply, a: nat)
    requires RunOk(t, seeded, run) && run.activity.Some?
    ensures HasLive(run) ==> Budget(run.(activity := Some(AfterFailure(run.activity.value)))) < Budget(run)
    ensures HasLive(run) ==> Budget(run.(activity := Some(AfterReport(run.activity.value, reply)))) < Budget(run)
    ensures CanAttempt(run) ==>
      var activity := run.activity.value;
      Budget(run.(activity := Some(activity.(tries := activity.tries + 1, live := Some(a))))) < Budget(run)
  {
  }

  /** A run that is open and not waiting for an approval can always take a step of its own that uses up its budget. */
  lemma OpenRunCanMove(g: System, seeded: set<nat>, r: nat) returns (step: Step)
    requires Inv(g, seeded) && r < |g.runs| && Open(g.runs[r]) && !WaitsForSignal(g.runs[r])
    ensures OwnStep(step, r)
    ensures r < |Next(g, step).runs| && Budget(Next(g, step).runs[r]) < Budget(g.runs[r]) <= 32
  {
    var run := g.runs[r];
    assert RunOk(g.tables, seeded, run);
    if run.activity.None? {
      step := WorkflowTask(r, |run.inbox|, false);
      TaskUsesBudget(g.tables, seeded, run, |run.inbox|, false);
    } else if run.activity.value.answer.Some? {
      step := WorkflowTask(r, 0, true);
      TaskUsesBudget(g.tables, seeded, run, 0, true);
    } else {
      AttemptsUseBudget(g.tables, seeded, run, Raised, |g.attempts|);
      step := if run.activity.value.live.Some? then GiveUp(r) else BeginAttempt(r);
    }
  }

  lemma OwnStepKeepsBudget(g: System, seeded: set<nat>, step: Step, r: nat)
    requires Inv(g, seeded) && r < |g.runs| && OwnStep(step, r)
    ensures r < |Next(g, step).runs| && Budget(Next(g, step).runs[r]) <= Budget(g.runs[r])
  {
    var run := g.runs[r];
    assert RunOk(g.tables, seeded, run);
    if Next(g, step) != g {
      match step
      case WorkflowTask(_, taken, answered) => TaskUsesBudget(g.tables, seeded, run, taken, answered);
      case Report(_) =>
        AttemptsUseBudget(g.tables, seeded, run, g.attempts[run.activity.value.live.value].reply.value, 0);
      case GiveUp(_) => AttemptsUseBudget(g.tables, seeded, run, Raised, 0);
      case BeginAttempt(_) => AttemptsUseBudget(g.tables, seeded, run, Raised, |g.attempts|);
    }
  }

  lemma OtherStepKeepsBudget(g: System, step: Step, r: nat)
    requires r < |g.runs| && !OwnStep(step, r)
    ensures r < |Next(g, step).runs| && Budget(Next(g, step).runs[r]) == Budget(g.runs[r])
  {
  }

  /** An open run that is not waiting for a signal can always take a step of its own that uses up some of its
      budget, and no step of anybody ever gives it more. */
  lemma OpenRunsMakeProgress(t: Tables, g: System, r: nat, any: Step) returns (step: Step)
    requires Possible(t, g) && r < |g.runs| && Open(g.runs[r]) && !WaitsForSignal(g.runs[r])
    ensures
      && OwnStep(step, r)
      && r < |Next(g, step).runs| && Budget(Next(g, step).runs[r]) < Budget(g.runs[r]) <= 32
      && r < |Next(g, any).runs| && Budget(Next(g, any).runs[r]) <= Budget(g.runs[r])
  {
    PossibleIsOk(t, g);
    step := OpenRunCanMove(g, SeededRefunds(t), r);
    if OwnStep(any, r) {
      OwnStepKeepsBudget(g, SeededRefunds(t), any, r);
    } else {
      OtherStepKeepsBudget(g, any, r);
    }
  }

  lemma AfterCons(g: System, step: Step, rest: seq<Step>)
    ensures After(g, [step] + rest) == After(Next(g, step), rest)
  {
    AfterSplits(g, [step], rest);
    AfterSnoc(g, [], step);
    assert [] + [step] == [step];
  }

  lemma {:induction false} CanFinish(g: System, seeded: set<nat>, r: nat) returns (trace: seq<Step>)
    requires Inv(g, seeded) && r < |g.runs|
    ensures |trace| <= Budget(g.runs[r]) && forall i | 0 <= i < |trace| :: OwnStep(trace[i], r)
    ensures r < |After(g, trace).runs|
    ensures !Open(After(g, trace).runs[r]) || WaitsForSignal(After(g, trace).runs[r])
    decreases Budget(g.runs[r])
  {
    if !Open(g.runs[r]) || WaitsForSignal(g.runs[r]) {
      trace := [];
    } else {
      var step := OpenRunCanMove(g, seeded, r);
      NextKeepsInv(g, seeded, step);
      var rest := CanFinish(Next(g, step), seeded, r);
      trace := [step] + rest;
      AfterCons(g, step, rest);
    }
  }

  /** From every possible state, at most 32 steps of its own bring a run to its end or to where it waits for a signal,
      whatever state the other runs are in. */
  lemma EveryRunCanFinish(t: Tables, g: System, r: nat) returns (trace: seq<Step>)
    requires Possible(t, g) && r < |g.runs|
    ensures |trace| <= 32 && forall i | 0 <= i < |trace| :: OwnStep(trace[i], r)
    ensures r < |After(g, trace).runs|
    ensures !Open(After(g, trace).runs[r]) || WaitsForSignal(After(g, trace).runs[r])
  {
    PossibleIsOk(t, g);
    if Open(g.runs[r]) && !WaitsForSignal(g.runs[r]) {
      var _ := OpenRunCanMove(g, SeededRefunds(t), r);
      trace := CanFinish(g, SeededRefunds(t), r);
    } else {
      trace := [];
    }
  }
}
