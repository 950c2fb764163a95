/** The durable order-action protocol: workflow runs, at-least-once activity attempts, signals and the shop's own
    steps, all interleaved in any order. A transaction is one atomic step here; module Refinement justifies that. */
module Protocol {
  import opened Base
  import opened Orders
  import opened Ledger
  import opened Workflows
  import opened Identifiers

  datatype Input = Input(n: nat, requestedBy: string, reason: string)

  /** The activity that a run is waiting for: `live` is the attempt whose report still counts. */
  datatype Activity = Activity(command: Command, tries: nat, live: Option<nat>, answer: Option<Answer>)

  /** `consumed` records the approval that the run decided by. A run that reaches its execution timeout is `expired`. */
  datatype Run = Run(
    id: string, input: Input, machine: Machine, inbox: seq<Approval>,
    activity: Option<Activity>, expired: bool, consumed: Option<Approval>)

  /** `reply` is there once the attempt's transaction has committed or rolled back, reported or not. */
  datatype Attempt = Attempt(run: nat, command: Command, number: nat, call: Call, reply: Option<Reply>)

  /** `inserters[i]` records the attempt that committed refund row `i`. */
  datatype System = System(tables: Tables, runs: seq<Run>, attempts: seq<Attempt>, inserters: seq<nat>)

  datatype Step =
    | StartRun(kind: Kind, input: Input)
    | Signal(id: string, approval: Approval)
    | WorkflowTask(r: nat, taken: nat, answered: bool) // the run's code runs with the first `taken` signals
    | BeginAttempt(r: nat)
    | Transact(a: nat, survives: bool)                 // the attempt's transaction, at any time, also too late
    | Report(r: nat)                                   // the live attempt's reply reaches the service
    | GiveUp(r: nat)                                   // start-to-close timeout, or the acknowledgement is lost
    | Expire(r: nat)
    | Shop(op: Op)

  const MAXIMUM_ATTEMPTS: nat := 3

  // ---- Activities ----

  function CallFor(command: Command, input: Input): (call: Call)
  {
    match command
    case ScheduleLoad => LoadCall(input.n, input.requestedBy)
    case ScheduleExecute => RefundCall(input.n, input.requestedBy, input.reason, IdempotencyKey(input.n))
    case ScheduleCancel => CancelCall(input.n, input.requestedBy)
  }

  datatype Verdict = Success(answer: Answer) | NonRetryable | Retryable

  /** What an activity makes of its transaction's result: an answer, `OrderNotFound` or `RefundNotAllowed`, which are
      not retried, or any other error, which is. */
  function Translate(reply: Reply): (v: Verdict)
  {
    match reply
    case LoadReply(None) => NonRetryable
    case LoadReply(Some(order)) => Success(Loaded(order))
    case RefundReply(None) => NonRetryable
    case RefundReply(Some(r)) =>
      if r.reason == Some(RefundReason.OrderNotDelivered) then NonRetryable else Success(Answer.Executed(r))
    case CancelReply(r) => Success(CancelAnswer(r))
    case Raised => Retryable
  }

  // ---- Steps ----

  predicate Open(run: Run)
  {
    !run.expired && !Closed(run.machine)
  }

  function KindOf(m: Machine): (k: Kind)
  {
    if m.RefundMachine? then Kind.Refunding else Kind.Cancelling
  }

  /** The open run with this id. */
  function FindOpen(runs: seq<Run>, id: string): (r: Option<nat>)
    ensures r.Some? ==> r.value < |runs| && Open(runs[r.value]) && runs[r.value].id == id
    ensures r.None? ==> forall i | 0 <= i < |runs| :: Open(runs[i]) ==> runs[i].id != id
  {
    if runs == [] then None
    else
      var last := |runs| - 1;
      if Open(runs[last]) && runs[last].id == id then Some(last) else FindOpen(runs[..last], id)
  }

  function NewMachine(kind: Kind): (m: Machine)
  {
    if kind.Refunding? then NEW_REFUND else CancelMachine(CancelStarted)
  }

  function NewRun(kind: Kind, input: Input): (run: Run)
  {
    Run(WorkflowId(kind, input.n), input, NewMachine(kind), [], None, false, None)
  }

  predicate TaskEnabled(run: Run, taken: nat, answered: bool)
  {
    Open(run) && taken <= |run.inbox| && (answered ==> run.activity.Some? && run.activity.value.answer.Some?)
  }

  function AfterTask(run: Run, taken: nat, answered: bool): (r: Run)
    requires TaskEnabled(run, taken, answered)
  {
    var o := Workflows.Step(run.machine,
      Activation(run.inbox[..taken], if answered then run.activity.value.answer else None));
    var activity :=
      if o.commands != [] then Some(Activity(o.commands[0], 0, None, None))
      else if answered then None
      else run.activity;
    Run(run.id, run.input, o.next, run.inbox[taken..], activity, run.expired,
        if o.consumed.Some? then o.consumed else run.consumed)
  }

  predicate CanAttempt(run: Run)
  {
    Open(run) && run.activity.Some? && run.activity.value.answer.None? && run.activity.value.live.None?
    && run.activity.value.tries < MAXIMUM_ATTEMPTS
  }

  predicate HasLive(run: Run)
  {
    Open(run) && run.activity.Some? && run.activity.value.live.Some?
  }

  /** The retry policy: the live attempt has failed. */
  function AfterFailure(activity: Activity): (r: Activity)
  {
    if activity.tries < MAXIMUM_ATTEMPTS then activity.(live := None)
    else activity.(live := None, answer := Some(ActivityFailed))
  }

  function AfterReport(activity: Activity, reply: Reply): (r: Activity)
  {
    match Translate(reply)
    case Success(answer) => activity.(live := None, answer := Some(answer))
    case NonRetryable => activity.(live := None, answer := Some(ActivityFailed))
    case Retryable => AfterFailure(activity)
  }

  function SetActivity(g: System, r: nat, activity: Activity): (g': System)
    requires r < |g.runs|
  {
    g.(runs := g.runs[r := g.runs[r].(activity := Some(activity))])
  }

  function AfterTransact(g: System, a: nat, survives: bool): (g': System)
    requires a < |g.attempts|
  {
    var attempt := g.attempts[a];
    if !survives then g.(attempts := g.attempts[a := attempt.(reply := Some(Raised))])
    else
      var (tables, reply) := Atomic(g.tables, attempt.call);
      System(tables, g.runs, g.attempts[a := attempt.(reply := Some(reply))],
             if |tables.refunds| > |g.tables.refunds| then g.inserters + [a] else g.inserters)
  }

  /** A step that is not possible changes nothing. */
  function Next(g: System, step: Step): (g': System)
  {
    match step
    case StartRun(kind, input) =>
      if FindOpen(g.runs, WorkflowId(kind, input.n)).Some? then g
      else g.(runs := g.runs + [NewRun(kind, input)])
    case Signal(id, approval) =>
      (match FindOpen(g.runs, id)
       case None => g
       case Some(r) => g.(runs := g.runs[r := g.runs[r].(inbox := g.runs[r].inbox + [approval])]))
    case WorkflowTask(r, taken, answered) =>
      if r < |g.runs| && TaskEnabled(g.runs[r], taken, answered)
      then g.(runs := g.runs[r := AfterTask(g.runs[r], taken, answered)]) else g
    case BeginAttempt(r) =>
      if r < |g.runs| && CanAttempt(g.runs[r]) then
        var run, activity := g.runs[r], g.runs[r].activity.value;
        var attempt := Attempt(r, activity.command, activity.tries + 1, CallFor(activity.command, run.input), None);
        SetActivity(g.(attempts := g.attempts + [attempt]), r,
                    activity.(tries := activity.tries + 1, live := Some(|g.attempts|)))
      else g
    case Transact(a, survives) =>
      if a < |g.attempts| && g.attempts[a].reply.None? then AfterTransact(g, a, survives) else g
    case Report(r) =>
      if r < |g.runs| && HasLive(g.runs[r]) then
        var activity := g.runs[r].activity.value;
        if activity.live.value < |g.attempts| && g.attempts[activity.live.value].reply.Some?
        then SetActivity(g, r, AfterReport(activity, g.attempts[activity.live.value].reply.value)) else g
      else g
    case GiveUp(r) =>
      if r < |g.runs| && HasLive(g.runs[r]) then SetActivity(g, r, AfterFailure(g.runs[r].activity.value)) else g
    case Expire(r) =>
      if r < |g.runs| && Open(g.runs[r]) then g.(runs := g.runs[r := g.runs[r].(expired := true)]) else g
    case Shop(op) => if op.Transaction? then g else g.(tables := Apply(g.tables, op))
  }

  function Begin(t: Tables): (g: System)
  {
    System(t, [], [], [])
  }

  /** The system after any sequence of steps. */
  function After(g: System, trace: seq<Step>): (g': System)
  {
    Fold(Next, g, trace)
  }

  /** The states along a run that starts from these tables. */
  function StateAfter(t: Tables): (f: seq<Step> -> System)
  {
    trace => After(Begin(t), trace)
  }

  ghost predicate LeadsTo(g: System, h: System)
  {
    exists trace :: After(g, trace) == h
  }

  /** A state that some run reaches from these initial tables. */
  ghost predicate Possible(t: Tables, g: System)
  {
    Initial(t) && LeadsTo(Begin(t), g)
  }

  // ---- The invariant ----

  /** The order is the requester's, has this total, and was delivered when the run loaded it. */
  predicate WasDelivered(t: Tables, seeded: set<nat>, input: Input, amount: int)
  {
    && Owned(t.orders, input.n, input.requestedBy)
    && Total(t.products, t.orders[input.n]) == amount
    && t.orders[input.n].status in {Delivered, Status.Refunded}
    && input.n !in seeded
  }

  predicate IsRefunded(t: Tables, input: Input)
  {
    Owned(t.orders, input.n, input.requestedBy) && t.orders[input.n].status == Status.Refunded
  }

  /** The answer of a cancellation and the order as it is: cancelled exactly when the answer says so. */
  predicate CancelTruth(t: Tables, input: Input, result: CancelResult)
  {
    result.found ==>
      && Owned(t.orders, input.n, input.requestedBy)
      && result.status.Some? && (result.cancelled ==> result.status == Some(Cancelled))
      && (if result.status == Some(Cancelled) then t.orders[input.n].status == Cancelled
          else result.status.value in {Delivered, Status.Refunded}
               && t.orders[input.n].status in {Delivered, Status.Refunded})
  }

  predicate LoadTruth(t: Tables, seeded: set<nat>, input: Input, order: OrderTotal)
  {
    && Owned(t.orders, input.n, input.requestedBy)
    && order.total == Total(t.products, t.orders[input.n])
    && Reaches(order.status, t.orders[input.n].status)
    && (input.n in seeded ==> order.status == Status.Refunded)
  }

  predicate ReplyTruth(t: Tables, seeded: set<nat>, input: Input, command: Command, reply: Reply)
  {
    match command
    case ScheduleLoad =>
      reply.Raised? || (reply.LoadReply? && (reply.order.Some? ==> LoadTruth(t, seeded, input, reply.order.value)))
    case ScheduleExecute =>
      reply.Raised? || (reply.RefundReply? && reply.refund.Some? && IsRefunded(t, input)
                        && reply.refund.value.reason != Some(RefundReason.OrderNotDelivered))
    case ScheduleCancel =>
      reply.Raised? || (reply.CancelReply? && CancelTruth(t, input, reply.cancel))
  }

  predicate AnswerTruth(t: Tables, seeded: set<nat>, input: Input, command: Command, answer: Answer)
  {
    match answer
    case ActivityFailed => true
    case Loaded(order) => command == ScheduleLoad && LoadTruth(t, seeded, input, order)
    case Executed(_) => command == ScheduleExecute && IsRefunded(t, input)
    case CancelAnswer(result) => command == ScheduleCancel && CancelTruth(t, input, result)
  }

  /** A run may execute the refund: the order was delivered, and its total needs no approval or has one. */
  predicate Granted(t: Tables, seeded: set<nat>, run: Run)
  {
    && Owned(t.orders, run.input.n, run.input.requestedBy)
    && WasDelivered(t, seeded, run.input, Total(t.products, t.orders[run.input.n]))
    && (Total(t.products, t.orders[run.input.n]) <= APPROVAL_THRESHOLD
        || (run.consumed.Some? && run.consumed.value.approved))
  }

  predicate ActivityOk(t: Tables, seeded: set<nat>, run: Run, command: Command)
  {
    && run.activity.Some?
    && run.activity.value.command == command
    && run.activity.value.tries <= MAXIMUM_ATTEMPTS
    && (run.activity.value.answer.Some? ==>
          run.activity.value.live.None?
          && AnswerTruth(t, seeded, run.input, command, run.activity.value.answer.value))
    && (run.activity.value.answer.None? && run.activity.value.live.None? ==>
          run.activity.value.tries < MAXIMUM_ATTEMPTS)
  }

  predicate RefundRunOk(t: Tables, seeded: set<nat>, run: Run, w: Refund)
  {
    match w.state
    case Started => run.activity.None? && run.consumed.None?
    case CheckingOrder => ActivityOk(t, seeded, run, ScheduleLoad) && run.consumed.None?
    case WaitingForApproval(amount) =>
      run.activity.None? && run.consumed.None? && w.approval.None?
      && amount > APPROVAL_THRESHOLD && WasDelivered(t, seeded, run.input, amount)
    case Refunding(amount) =>
      ActivityOk(t, seeded, run, ScheduleExecute)
      && WasDelivered(t, seeded, run.input, amount) && Granted(t, seeded, run)
    case Completed(_) => run.activity.None? && IsRefunded(t, run.input)
    case Rejected(reason) =>
      run.activity.None? && (reason == ApprovalDenied ==> run.consumed.Some? && !run.consumed.value.approved)
    case Failed => run.activity.None?
  }

  predicate RunOk(t: Tables, seeded: set<nat>, run: Run)
  {
    && run.id == WorkflowId(KindOf(run.machine), run.input.n)
    && match run.machine
       case RefundMachine(w) =>
         RefundRunOk(t, seeded, run, w)
         && (run.consumed.Some? && !run.consumed.value.approved ==> w.state == Rejected(ApprovalDenied))
       case CancelMachine(s) =>
         (match s
          case CancelStarted => run.activity.None?
          case Cancelling => ActivityOk(t, seeded, run, ScheduleCancel)
          case CancelCompleted(result) => run.activity.None? && CancelTruth(t, run.input, result)
          case CancelFailed => run.activity.None?)
  }

  /** The run has scheduled this command. */
  predicate HasScheduled(m: Machine, command: Command)
  {
    match command
    case ScheduleLoad => m.RefundMachine? && !m.refund.state.Started?
    case ScheduleExecute =>
      m.RefundMachine?
      && (m.refund.state.Refunding? || m.refund.state.Failed?
          || (m.refund.state.Completed? && m.refund.state.completion.Executed?))
    case ScheduleCancel => m.CancelMachine? && !m.cancel.CancelStarted?
  }

  predicate AttemptOk(t: Tables, seeded: set<nat>, runs: seq<Run>, attempt: Attempt)
  {
    && attempt.run < |runs|
    && var run := runs[attempt.run];
    && attempt.call == CallFor(attempt.command, run.input)
    && HasScheduled(run.machine, attempt.command)
    && 1 <= attempt.number <= MAXIMUM_ATTEMPTS
    && (run.activity.Some? && run.activity.value.command == attempt.command ==>
          attempt.number <= run.activity.value.tries)
    && (attempt.command == ScheduleExecute ==> Granted(t, seeded, run))
    && (attempt.reply.Some? ==> ReplyTruth(t, seeded, run.input, attempt.command, attempt.reply.value))
  }

  /** Attempts of one activity are numbered apart, so there are never more than three. */
  ghost predicate Numbered(attempts: seq<Attempt>)
  {
    forall a, b | 0 <= a < b < |attempts| ::
      attempts[a].run == attempts[b].run && attempts[a].command == attempts[b].command ==>
        attempts[a].number != attempts[b].number
  }

  ghost predicate LiveOk(runs: seq<Run>, attempts: seq<Attempt>)
  {
    forall r | 0 <= r < |runs| && runs[r].activity.Some? && runs[r].activity.value.live.Some? ::
      var a := runs[r].activity.value.live.value;
      a < |attempts| && attempts[a].run == r && attempts[a].command == runs[r].activity.value.command
  }

  ghost predicate OneOpenPerId(runs: seq<Run>)
  {
    forall r, s | 0 <= r < s < |runs| :: Open(runs[r]) && Open(runs[s]) ==> runs[r].id != runs[s].id
  }

  /** The attempt has committed a refund. */
  predicate DidRefund(attempt: Attempt)
  {
    && attempt.reply.Some? && attempt.reply.value.RefundReply?
    && attempt.reply.value.refund.Some? && attempt.reply.value.refund.value.refunded
  }

  /** The refund rows and the attempts that committed a refund correspond one to one. */
  ghost predicate RowsOk(t: Tables, attempts: seq<Attempt>, inserters: seq<nat>)
  {
    && |inserters| == |t.refunds|
    && (forall i | 0 <= i < |inserters| ::
          && inserters[i] < |attempts| && DidRefund(attempts[inserters[i]])
          && attempts[inserters[i]].command == ScheduleExecute
          && attempts[inserters[i]].call.n == t.refunds[i].orderId)
    && (forall a | 0 <= a < |attempts| && DidRefund(attempts[a]) :: a in inserters)
  }

  ghost predicate Inv(g: System, seeded: set<nat>)
  {
    && Consistent(g.tables, seeded)
    && KeysMatch(g.tables)
    && (forall r | 0 <= r < |g.runs| :: RunOk(g.tables, seeded, g.runs[r]))
    && OneOpenPerId(g.runs)
    && (forall a | 0 <= a < |g.attempts| :: AttemptOk(g.tables, seeded, g.runs, g.attempts[a]))
    && Numbered(g.attempts)
    && LiveOk(g.runs, g.attempts)
    && RowsOk(g.tables, g.attempts, g.inserters)
  }
}
