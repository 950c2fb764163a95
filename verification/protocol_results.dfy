/** What the result of a completed run is worth: it is the reply of one transaction of the run's own, and so it is
    decided by the tables that this transaction found. */
module ProtocolResults {
  import opened Base
  import opened Orders
  import opened Ledger
  import opened Workflows
  import opened Identifiers
  import opened Protocol
  import opened ProtocolInvariant
  import opened ProtocolSafety
  import opened ProtocolRetries
  import opened ProtocolSteps

  // ---- Where replies come from ----

  /** Step `k` is the transaction of attempt `a`, and gives it this reply. */
  predicate RepliedAt(after: seq<Step> -> System, trace: seq<Step>, k: nat, a: nat, call: Call, reply: Reply)
  {
    && k < |trace| && trace[k] == Transact(a, true)
    && var g := after(trace[..k]);
       a < |g.attempts| && g.attempts[a].reply.None? && g.attempts[a].call == call
       && Atomic(g.tables, call).1 == reply
  }

  ghost predicate WasReplied(after: seq<Step> -> System, trace: seq<Step>, a: nat, call: Call, reply: Reply)
  {
    reply == Raised || exists k: nat :: RepliedAt(after, trace, k, a, call, reply)
  }

  ghost predicate AllReplied(after: seq<Step> -> System, trace: seq<Step>, attempts: seq<Attempt>)
  {
    forall a: nat | a < |attempts| && attempts[a].reply.Some? ::
      WasReplied(after, trace, a, attempts[a].call, attempts[a].reply.value)
  }

  lemma RepliedStays(after: seq<Step> -> System, front: seq<Step>, step: Step, a: nat, call: Call, reply: Reply)
    requires WasReplied(after, front, a, call, reply)
    ensures WasReplied(after, front + [step], a, call, reply)
  {
    if reply != Raised {
      var k: nat :| RepliedAt(after, front, k, a, call, reply);
      assert (front + [step])[..k] == front[..k];
      assert RepliedAt(after, front + [step], k, a, call, reply);
    }
  }

  lemma RepliesNow(after: seq<Step> -> System, front: seq<Step>, a: nat)
    requires a < |after(front).attempts| && after(front).attempts[a].reply.None?
    ensures
      var g := after(front);
      var call := g.attempts[a].call;
      WasReplied(after, front + [Transact(a, true)], a, call, Atomic(g.tables, call).1)
  {
    var trace := front + [Transact(a, true)];
    assert trace[..|front|] == front;
    var call := after(front).attempts[a].call;
    assert RepliedAt(after, trace, |front|, a, call, Atomic(after(front).tables, call).1);
  }

  /** An attempt that has its reply after a step had it before, or this is the step that gives it. */
  lemma ReplyChange(g: System, step: Step, a: nat)
    requires a < |Next(g, step).attempts| && Next(g, step).attempts[a].reply.Some?
    ensures a < |g.attempts| && Next(g, step).attempts[a].call == g.attempts[a].call
    ensures
      var reply := Next(g, step).attempts[a].reply.value;
      || g.attempts[a].reply == Some(reply)
      || reply == Raised
      || (step == Transact(a, true) && g.attempts[a].reply.None? && reply == Atomic(g.tables, g.attempts[a].call).1)
  {
  }

  lemma StepKeepsReplied(after: seq<Step> -> System, g: System, h: System, front: seq<Step>, step: Step)
    requires after(front) == g && h == Next(g, step) && AllReplied(after, front, g.attempts)
    ensures AllReplied(after, front + [step], h.attempts)
  {
    forall a: nat | a < |h.attempts| && h.attempts[a].reply.Some?
      ensures WasReplied(after, front + [step], a, h.attempts[a].call, h.attempts[a].reply.value)
    {
      ReplyChange(g, step, a);
      if g.attempts[a].reply == h.attempts[a].reply {
        RepliedStays(after, front, step, a, h.attempts[a].call, h.attempts[a].reply.value);
      } else if h.attempts[a].reply.value != Raised {
        RepliesNow(after, front, a);
      }
    }
  }

  lemma RepliedAfterSnoc(t: Tables, front: seq<Step>, step: Step, g: System, h: System)
    requires After(Begin(t), front) == g && h == Next(g, step) && AllReplied(StateAfter(t), front, g.attempts)
    ensures AllReplied(StateAfter(t), front + [step], h.attempts)
  {
    StepKeepsReplied(StateAfter(t), g, h, front, step);
  }

  /** No reply is invented: each one but an error is what the attempt's transaction replied, as one atomic step of the
      run. */
  lemma {:induction false} RepliesAreReal(t: Tables, trace: seq<Step>, g: System)
    requires After(Begin(t), trace) == g
    ensures AllReplied(StateAfter(t), trace, g.attempts)
  {
    if trace != [] {
      var front, step := trace[..|trace| - 1], trace[|trace| - 1];
      assert trace == front + [step];
      AfterSnoc(Begin(t), front, step);
      RepliesAreReal(t, front, After(Begin(t), front));
      RepliedAfterSnoc(t, front, step, After(Begin(t), front), g);
    }
  }

  // ---- Where the result of a run comes from ----

  predicate AnsweredBy(attempts: seq<Attempt>, r: nat, command: Command, reply: Reply)
  {
    exists a :: 0 <= a < |attempts|
      && attempts[a].run == r && attempts[a].command == command && attempts[a].reply == Some(reply)
  }

  /** The result that a completed run gives, as the reply that it comes from. */
  function ResultOf(m: Machine): (reply: Option<Reply>)
  {
    match m
    case CancelMachine(state) => if state.CancelCompleted? then Some(CancelReply(state.result)) else None
    case RefundMachine(w) =>
      if w.state.Completed? && w.state.completion.Executed? then Some(RefundReply(Some(w.state.completion.refund)))
      else None
  }

  function ExecutingCommand(m: Machine): (command: Command)
  {
    if m.CancelMachine? then ScheduleCancel else ScheduleExecute
  }

  function ReplyFor(answer: Answer): (reply: Option<Reply>)
  {
    match answer
    case Loaded(order) => Some(LoadReply(Some(order)))
    case Executed(refund) => Some(RefundReply(Some(refund)))
    case CancelAnswer(result) => Some(CancelReply(result))
    case ActivityFailed => None
  }

  ghost predicate ResultOk(attempts: seq<Attempt>, r: nat, run: Run)
  {
    && (ResultOf(run.machine).Some? ==>
          AnsweredBy(attempts, r, ExecutingCommand(run.machine), ResultOf(run.machine).value))
    && (run.activity.Some? && run.activity.value.answer.Some? && ReplyFor(run.activity.value.answer.value).Some? ==>
          AnsweredBy(attempts, r, run.activity.value.command, ReplyFor(run.activity.value.answer.value).value))
  }

  lemma AnsweredStays(attempts: seq<Attempt>, later: seq<Attempt>, r: nat, command: Command, reply: Reply)
    requires Remembers(attempts, later) && AnsweredBy(attempts, r, command, reply)
    ensures AnsweredBy(later, r, command, reply)
  {
    var a :| 0 <= a < |attempts|
      && attempts[a].run == r && attempts[a].command == command && attempts[a].reply == Some(reply);
    assert later[a].reply == attempts[a].reply;
  }

  lemma ResultStays(attempts: seq<Attempt>, later: seq<Attempt>, r: nat, run: Run)
    requires Remembers(attempts, later) && ResultOk(attempts, r, run)
    ensures ResultOk(later, r, run)
  {
    forall command, reply | AnsweredBy(attempts, r, command, reply)
      ensures AnsweredBy(later, r, command, reply)
    {
      AnsweredStays(attempts, later, r, command, reply);
    }
  }

  lemma TaskKeepsResult(
      t: Tables, seeded: set<nat>, attempts: seq<Attempt>, r: nat, run: Run, taken: nat, answered: bool)
    requires RunOk(t, seeded, run) && ResultOk(attempts, r, run) && TaskEnabled(run, taken, answered)
    ensures ResultOk(attempts, r, AfterTask(run, taken, answered))
  {
  }

  lemma ReportKeepsResult(t: Tables, seeded: set<nat>, attempts: seq<Attempt>, r: nat, run: Run, attempt: Attempt)
    requires RunOk(t, seeded, run) && ResultOk(attempts, r, run) && HasLive(run)
    requires attempt in attempts && attempt.run == r && attempt.command == run.activity.value.command
    requires attempt.reply.Some? && ReplyTruth(t, seeded, run.input, attempt.command, attempt.reply.value)
    ensures ResultOk(attempts, r, run.(activity := Some(AfterReport(run.activity.value, attempt.reply.value))))
  {
    assert AnsweredBy(attempts, r, attempt.command, attempt.reply.value);
  }

  lemma OwnStepKeepsResult(g: System, seeded: set<nat>, step: Step, r: nat)
    requires Inv(g, seeded) && r < |g.runs| && ResultOk(g.attempts, r, g.runs[r]) && OwnStep(step, r)
    ensures r < |Next(g, step).runs| && ResultOk(g.attempts, r, Next(g, step).runs[r])
  {
    var run := g.runs[r];
    assert RunOk(g.tables, seeded, run);
    if Next(g, step) != g {
      match step
      case WorkflowTask(_, taken, answered) => TaskKeepsResult(g.tables, seeded, g.attempts, r, run, taken, answered);
      case GiveUp(_) =>
      case Report(_) =>
        assert LiveOk(g.runs, g.attempts);
        var attempt := g.attempts[run.activity.value.live.value];
        assert AttemptOk(g.tables, seeded, g.runs, attempt);
        ReportKeepsResult(g.tables, seeded, g.attempts, r, run, attempt);
      case BeginAttempt(_) =>
    }
  }

  ghost predicate AllResultsOk(g: System)
  {
    forall r: nat | r < |g.runs| :: ResultOk(g.attempts, r, g.runs[r])
  }

  lemma StepKeepsResults(g: System, seeded: set<nat>, step: Step, h: System)
    requires Inv(g, seeded) && AllResultsOk(g) && h == Next(g, step)
    ensures AllResultsOk(h)
  {
    NextRemembers(g, step);
    forall r: nat | r < |h.runs|
      ensures ResultOk(h.attempts, r, h.runs[r])
    {
      if r >= |g.runs| {
        NewRunsAreFresh(g, step, r);
      } else {
        if OwnStep(step, r) {
          OwnStepKeepsResult(g, seeded, step, r);
        } else {
          OtherStepKeepsMachine(g, step, r);
        }
        ResultStays(g.attempts, h.attempts, r, h.runs[r]);
      }
    }
  }

  lemma {:induction false} AfterKeepsResults(g: System, seeded: set<nat>, trace: seq<Step>, h: System)
    requires Inv(g, seeded) && AllResultsOk(g) && h == After(g, trace)
    ensures AllResultsOk(h)
  {
    if trace != [] {
      var front, step := trace[..|trace| - 1], trace[|trace| - 1];
      assert trace == front + [step];
      AfterSnoc(g, front, step);
      AfterKeepsResults(g, seeded, front, After(g, front));
      AfterKeepsInv(g, front, seeded);
      StepKeepsResults(After(g, front), seeded, step, h);
    }
  }

  // ---- Main results ----

  /** The transaction that decided: it ran on the tables `u`, and left `v`. */
  ghost predicate DecidedBy(input: Input, result: CancelResult, u: Tables, v: Tables)
  {
    && Atomic(u, CancelCall(input.n, input.requestedBy)) == (v, CancelReply(result))
    && (result.found <==> Owned(u.orders, input.n, input.requestedBy))
    && (result.cancelled <==>
          Owned(u.orders, input.n, input.requestedBy) && u.orders[input.n].status in CANCELLABLE)
    && (Owned(v.orders, input.n, input.requestedBy) && v.orders[input.n].status == Cancelled <==>
          Owned(u.orders, input.n, input.requestedBy) && u.orders[input.n].status in CANCELLABLE + {Cancelled})
  }

  /** The transaction behind the result of a completed run. */
  lemma ResultIsReal(t: Tables, trace: seq<Step>, g: System, r: nat) returns (k: nat, a: nat)
    requires Initial(t) && After(Begin(t), trace) == g && r < |g.runs| && ResultOf(g.runs[r].machine).Some?
    ensures
      var m := g.runs[r].machine;
      && RepliedAt(StateAfter(t), trace, k, a, CallFor(ExecutingCommand(m), g.runs[r].input), ResultOf(m).value)
      && ReplyTruth(g.tables, SeededRefunds(t), g.runs[r].input, ExecutingCommand(m), ResultOf(m).value)
  {
    var seeded, m := SeededRefunds(t), g.runs[r].machine;
    var command, reply := ExecutingCommand(m), ResultOf(m).value;
    InitialIsConsistent(t);
    AfterKeepsInv(Begin(t), trace, seeded);
    AfterKeepsResults(Begin(t), seeded, trace, g);
    RepliesAreReal(t, trace, g);
    assert ResultOk(g.attempts, r, g.runs[r]);
    a :| 0 <= a < |g.attempts|
      && g.attempts[a].run == r && g.attempts[a].command == command && g.attempts[a].reply == Some(reply);
    assert AttemptOk(g.tables, seeded, g.runs, g.attempts[a]);
    k :| RepliedAt(StateAfter(t), trace, k, a, g.attempts[a].call, reply);
  }

  /** Exactly when a COMPLETED cancellation has cancelled its order. Its result is that of one transaction that ran in
      step `k`; this one found the order exactly if it was the requester's then, cancelled it exactly if its status was
      also cancellable, and left a cancelled order of the requester exactly if it was cancellable or cancelled already.
      */
  lemma CompletedCancellation(t: Tables, trace: seq<Step>, g: System, r: nat) returns (k: nat)
    requires Initial(t) && After(Begin(t), trace) == g && r < |g.runs|
    requires g.runs[r].machine.CancelMachine? && g.runs[r].machine.cancel.CancelCompleted?
    ensures k < |trace| && trace[k].Transact?
    ensures DecidedBy(g.runs[r].input, g.runs[r].machine.cancel.result,
      After(Begin(t), trace[..k]).tables, After(Begin(t), trace[..k + 1]).tables)
  {
    var a: nat;
    k, a := ResultIsReal(t, trace, g, r);
    TransactionDecides(t, trace, k, a, g.runs[r].input, g.runs[r].machine.cancel.result);
  }

  /** What a refund reports, and the tables `u` and `v` before and after: the order is the requester's, refunded
      afterwards; the amount is price times quantity, and on record as a row's; and the report says whether this
      transaction has paid it or found it paid. */
  ghost predicate ReportsRefund(input: Input, refund: RefundResult, u: Tables, v: Tables)
  {
    var n := input.n;
    && n in u.orders && u.orders[n].owner == input.requestedBy && u.orders[n].sku in u.products
    && refund.id == n && refund.status == Status.Refunded
    && n in v.orders && v.orders[n].status == Status.Refunded
    && refund.amount == u.products[u.orders[n].sku] * u.orders[n].quantity
    && (if refund.refunded then
          && refund.reason == None && u.orders[n].status == Delivered
          && v.refunds == u.refunds + [RefundRow(n, refund.amount, input.reason, IdempotencyKey(n))]
        else
          refund.reason == Some(AlreadyRefunded) && v == u
          && exists i :: 0 <= i < |u.refunds| && u.refunds[i].orderId == n && u.refunds[i].amount == refund.amount)
  }

  /** The result with which a refund run is COMPLETED is true of the tables around the one transaction that gave it. */
  lemma CompletedRefund(t: Tables, trace: seq<Step>, g: System, r: nat) returns (k: nat)
    requires Initial(t) && After(Begin(t), trace) == g && r < |g.runs|
    requires g.runs[r].machine.RefundMachine? && g.runs[r].machine.refund.state.Completed?
    requires g.runs[r].machine.refund.state.completion.Executed?
    ensures k < |trace| && trace[k].Transact?
    ensures ReportsRefund(g.runs[r].input, g.runs[r].machine.refund.state.completion.refund,
      After(Begin(t), trace[..k]).tables, After(Begin(t), trace[..k + 1]).tables)
  {
    var a: nat;
    k, a := ResultIsReal(t, trace, g, r);
    var refund := g.runs[r].machine.refund.state.completion.refund;
    InitialIsConsistent(t);
    AfterKeepsInv(Begin(t), trace[..k], SeededRefunds(t));
    assert trace[..k + 1] == trace[..k] + [Transact(a, true)];
    AfterSnoc(Begin(t), trace[..k], Transact(a, true));
    AttemptReports(After(Begin(t), trace[..k]), SeededRefunds(t), a, g.runs[r].input, refund);
  }

  lemma AttemptReports(g: System, seeded: set<nat>, a: nat, input: Input, refund: RefundResult)
    requires Consistent(g.tables, seeded) && a < |g.attempts| && g.attempts[a].reply.None?
    requires g.attempts[a].call == CallFor(ScheduleExecute, input)
    requires Atomic(g.tables, g.attempts[a].call).1 == RefundReply(Some(refund))
    requires refund.reason != Some(RefundReason.OrderNotDelivered)
    ensures ReportsRefund(input, refund, g.tables, Next(g, Transact(a, true)).tables)
  {
    TransactIs(g, a);
    ReplyDescribesTheTables(g.tables, seeded, g.attempts[a].call);
    RefundAddsItsRow(g.tables, seeded, input.n, input.requestedBy, input.reason, IdempotencyKey(input.n));
    if !refund.refunded {
      var row := FindRefund(g.tables.refunds, input.n).value;
      assert row in g.tables.refunds && row.orderId == input.n;
    }
  }

  lemma TransactionDecides(t: Tables, trace: seq<Step>, k: nat, a: nat, input: Input, result: CancelResult)
    requires RepliedAt(StateAfter(t), trace, k, a, CancelCall(input.n, input.requestedBy), CancelReply(result))
    ensures DecidedBy(input, result, After(Begin(t), trace[..k]).tables, After(Begin(t), trace[..k + 1]).tables)
  {
    assert trace[..k + 1] == trace[..k] + [Transact(a, true)];
    AfterSnoc(Begin(t), trace[..k], Transact(a, true));
    AttemptDecides(After(Begin(t), trace[..k]), a, input, result);
  }

  lemma AttemptDecides(g: System, a: nat, input: Input, result: CancelResult)
    requires a < |g.attempts| && g.attempts[a].reply.None?
    requires g.attempts[a].call == CancelCall(input.n, input.requestedBy)
    requires Atomic(g.tables, g.attempts[a].call).1 == CancelReply(result)
    ensures DecidedBy(input, result, g.tables, Next(g, Transact(a, true)).tables)
  {
    TransactIs(g, a);
    CancelSucceedsExactlyWhen(g.tables, input.n, input.requestedBy);
  }

  // ---- A completed cancellation that has cancelled nothing ----

  predicate NotCancellable(t: Tables, input: Input)
  {
    Owned(t.orders, input.n, input.requestedBy) ==> t.orders[input.n].status !in CANCELLABLE
  }

  function CancelRun(input: Input, state: CancelState, activity: Option<Activity>): (run: Run)
  {
    Run(WorkflowId(Kind.Cancelling, input.n), input, CancelMachine(state), [], activity, false, None)
  }

  function CancelAttempt(input: Input, reply: Option<Reply>): (attempt: Attempt)
  {
    Attempt(0, ScheduleCancel, 1, CancelCall(input.n, input.requestedBy), reply)
  }

  function Refusal(t: Tables, input: Input): (result: CancelResult)
  {
    if Owned(t.orders, input.n, input.requestedBy) then CancelRefused(input.n, t.orders[input.n].status)
    else CancelMissing(input.n)
  }

  function AfterRefusal(t: Tables, input: Input): (g: System)
  {
    System(t, [CancelRun(input, CancelCompleted(Refusal(t, input)), None)],
      [CancelAttempt(input, Some(CancelReply(Refusal(t, input))))], [])
  }

  lemma OneRun(states: System -> bool, t: Tables, attempts: seq<Attempt>, run: Run, taken: nat, answered: bool,
        run': Run)
    requires StepClosed(states) && states(System(t, [run], attempts, []))
    requires TaskEnabled(run, taken, answered) && run' == AfterTask(run, taken, answered)
    ensures states(System(t, [run'], attempts, []))
  {
    assert [run][0 := run'] == [run'];
    TaskTo(states, System(t, [run], attempts, []), 0, taken, answered, System(t, [run'], attempts, []));
  }

  lemma RefusalIsReached(states: System -> bool, t: Tables, input: Input)
    requires StepClosed(states) && states(Begin(t)) && NotCancellable(t, input)
    ensures states(AfterRefusal(t, input))
  {
    var result := Refusal(t, input);
    var run0 := CancelRun(input, CancelStarted, None);
    var run1 := CancelRun(input, CancelState.Cancelling, Some(Activity(ScheduleCancel, 0, None, None)));
    var run2 := CancelRun(input, CancelState.Cancelling, Some(Activity(ScheduleCancel, 1, Some(0), None)));
    var run3 := CancelRun(input, CancelState.Cancelling,
      Some(Activity(ScheduleCancel, 1, None, Some(CancelAnswer(result)))));
    var open, done := [CancelAttempt(input, None)], [CancelAttempt(input, Some(CancelReply(result)))];
    StepTo(states, Begin(t), StartRun(Kind.Cancelling, input), System(t, [run0], [], []));
    OneRun(states, t, [], run0, 0, false, run1);
    assert [run1][0 := run2] == [run2] && [] + open == open;
    StepTo(states, System(t, [run1], [], []), BeginAttempt(0), System(t, [run2], open, []));
    assert open[0 := done[0]] == done;
    TransactTo(states, System(t, [run2], open, []), 0, CancelReply(result), System(t, [run2], done, []));
    assert [run2][0 := run3] == [run3];
    ReportTo(states, System(t, [run2], done, []), 0, CancelReply(result), System(t, [run3], done, []));
    OneRun(states, t, done, run3, 0, true, AfterRefusal(t, input).runs[0]);
  }

  /** From any initial tables, for any order that the requester does not have or that is past cancelling: six steps
      lead to a COMPLETED cancellation, with the tables as they were. */
  lemma CompletesWithoutCancelling(t: Tables, input: Input)
    requires Initial(t) && NotCancellable(t, input)
    ensures Possible(t, AfterRefusal(t, input)) && AfterRefusal(t, input).tables == t
    ensures
      var run := AfterRefusal(t, input).runs[0];
      run.input == input && run.machine.cancel.CancelCompleted? && !run.machine.cancel.result.cancelled
  {
    PossibleIsClosed(t);
    RefusalIsReached(g => Possible(t, g), t, input);
  }
}
