/** The two workflow definitions. A workflow runs in activations: the service hands it the signals that have arrived,
    in order, and the answer of its pending activity if there is one; it runs until it has to wait again and issues
    commands. `RefundStep` and `CancelStep` say what one activation does; the classes below do it. */
module Workflows {
  import opened Base
  import opened Orders

  datatype Approval = Approval(approved: bool, approvedBy: string)

  /** `REFUND_APPROVAL_THRESHOLD`, in cents. */
  const APPROVAL_THRESHOLD: int := 20_000

  /** The recorded outcome of an activity, as the workflow sees it. */
  datatype Answer =
    | Loaded(order: OrderTotal)
    | Executed(refund: RefundResult)
    | CancelAnswer(cancel: CancelResult)
    | ActivityFailed

  datatype Activation = Activation(signals: seq<Approval>, answer: Option<Answer>)

  datatype Command = ScheduleLoad | ScheduleExecute | ScheduleCancel

  datatype Completion = FoundRefunded | Executed(refund: RefundResult)

  datatype Rejection = NotDelivered | ApprovalDenied

  datatype RefundState =
    | Started
    | CheckingOrder
    | WaitingForApproval(amount: int)
    | Refunding(amount: int)
    | Completed(completion: Completion)
    | Rejected(reason: Rejection)
    | Failed

  /** `_state` and `_approval`. */
  datatype Refund = Refund(state: RefundState, approval: Option<Approval>)

  datatype CancelState = CancelStarted | Cancelling | CancelCompleted(result: CancelResult) | CancelFailed

  /** `consumed` is the approval that the activation read to decide, if it decided. */
  datatype Outcome<M> = Outcome(next: M, commands: seq<Command>, consumed: Option<Approval>)

  const FRESH_REFUND := Refund(Started, None)

  function Latest(approval: Option<Approval>, signals: seq<Approval>): (r: Option<Approval>)
  {
    if signals == [] then approval else Some(signals[|signals| - 1])
  }

  predicate RefundClosed(state: RefundState)
  {
    state.Completed? || state.Rejected? || state.Failed?
  }

  /** The `wait_condition` and what follows it: nothing happens until there is an approval. */
  function Decide(amount: int, approval: Option<Approval>): (r: Outcome<Refund>)
  {
    match approval
    case None => Outcome(Refund(WaitingForApproval(amount), None), [], None)
    case Some(a) =>
      if a.approved then Outcome(Refund(Refunding(amount), approval), [ScheduleExecute], approval)
      else Outcome(Refund(Rejected(ApprovalDenied), approval), [], approval)
  }

  function AfterLoad(order: OrderTotal, approval: Option<Approval>): (r: Outcome<Refund>)
  {
    if order.status == Status.Refunded then Outcome(Refund(Completed(FoundRefunded), approval), [], None)
    else if order.status != Delivered then Outcome(Refund(Rejected(NotDelivered), approval), [], None)
    else if order.total > APPROVAL_THRESHOLD then Decide(order.total, approval)
    else Outcome(Refund(Refunding(order.total), approval), [ScheduleExecute], None)
  }

  function RefundStep(w: Refund, act: Activation): (r: Outcome<Refund>)
  {
    var approval := Latest(w.approval, act.signals);
    if RefundClosed(w.state) then Outcome(w, [], None)
    else if w.state.Started? then Outcome(Refund(CheckingOrder, approval), [ScheduleLoad], None)
    else if w.state.WaitingForApproval? then Decide(w.state.amount, approval)
    else if act.answer.None? then Outcome(Refund(w.state, approval), [], None)
    else if w.state.CheckingOrder? && act.answer.value.Loaded? then AfterLoad(act.answer.value.order, approval)
    else if w.state.Refunding? && act.answer.value.Executed? then
      Outcome(Refund(Completed(Completion.Executed(act.answer.value.refund)), approval), [], None)
    else Outcome(Refund(Failed, approval), [], None)
  }

  function CancelStep(s: CancelState, act: Activation): (r: Outcome<CancelState>)
  {
    match s
    case CancelStarted => Outcome(Cancelling, [ScheduleCancel], None)
    case Cancelling =>
      (match act.answer
       case None => Outcome(s, [], None)
       case Some(CancelAnswer(result)) => Outcome(CancelCompleted(result), [], None)
       case Some(_) => Outcome(CancelFailed, [], None))
    case _ => Outcome(s, [], None)
  }

  class RefundWorkflow {
    var state: RefundState
    var approval: Option<Approval>

    ghost function Snapshot(): (w: Refund)
      reads this
    {
      Refund(state, approval)
    }

    constructor ()
      ensures Snapshot() == FRESH_REFUND
    {
      state, approval := Started, None;
    }

    /** The signal handler. */
    method Approve(input: Approval)
      modifies this`approval
      ensures approval == Some(input)
    {
      approval := Some(input);
    }

    /** `run` from where it waits to where it waits next. */
    method Activate(act: Activation) returns (commands: seq<Command>)
      modifies this
      ensures RefundStep(old(Snapshot()), act).next == Snapshot()
      ensures RefundStep(old(Snapshot()), act).commands == commands
    {
      commands := [];
      if RefundClosed(state) {
        return;
      }
      ghost var before := approval;
      for i := 0 to |act.signals|
        invariant state == old(state)
        invariant approval == Latest(before, act.signals[..i])
      {
        Approve(act.signals[i]);
      }
      assert act.signals[..|act.signals|] == act.signals;
      if state.Started? {
        state := CheckingOrder;
        return [ScheduleLoad];
      }
      if state.CheckingOrder? && act.answer.Some? {
        if !act.answer.value.Loaded? {
          state := Failed;
          return;
        }
        var order := act.answer.value.order;
        if order.status == Status.Refunded {
          state := Completed(FoundRefunded);
          return;
        }
        if order.status != Delivered {
          state := Rejected(NotDelivered);
          return;
        }
        if order.total <= APPROVAL_THRESHOLD {
          state := Refunding(order.total);
          return [ScheduleExecute];
        }
        state := WaitingForApproval(order.total);
      } else if state.Refunding? && act.answer.Some? {
        state := if act.answer.value.Executed? then Completed(Completion.Executed(act.answer.value.refund)) else Failed;
      }
      if state.WaitingForApproval? && approval.Some? {
        if !approval.value.approved {
          state := Rejected(ApprovalDenied);
          return;
        }
        state := Refunding(state.amount);
        return [ScheduleExecute];
      }
    }
  }

  class CancelOrderWorkflow {
    var state: CancelState

    constructor ()
      ensures state == CancelStarted
    {
      state := CancelStarted;
    }

    method Activate(act: Activation) returns (commands: seq<Command>)
      modifies this
      ensures CancelStep(old(state), act).next == state
      ensures CancelStep(old(state), act).commands == commands
    {
      commands := [];
      if state.CancelStarted? {
        state := Cancelling;
        return [ScheduleCancel];
      }
      if state.Cancelling? && act.answer.Some? {
        state := if act.answer.value.CancelAnswer? then CancelCompleted(act.answer.value.cancel) else CancelFailed;
      }
    }
  }

  // ---- One type for both definitions ----

  datatype Machine = RefundMachine(refund: Refund) | CancelMachine(cancel: CancelState)

  function Step(m: Machine, act: Activation): (r: Outcome<Machine>)
  {
    match m
    case RefundMachine(w) => var o := RefundStep(w, act); Outcome(RefundMachine(o.next), o.commands, o.consumed)
    case CancelMachine(s) => var o := CancelStep(s, act); Outcome(CancelMachine(o.next), o.commands, o.consumed)
  }

  predicate Closed(m: Machine)
  {
    match m
    case RefundMachine(w) => RefundClosed(w.state)
    case CancelMachine(s) => s.CancelCompleted? || s.CancelFailed?
  }

  function Progress(m: Machine): (rank: nat)
  {
    match m
    case RefundMachine(w) =>
      (match w.state
       case Started => 0 case CheckingOrder => 1 case WaitingForApproval(_) => 2 case Refunding(_) => 3
       case _ => 4)
    case CancelMachine(s) => if s.CancelStarted? then 0 else if s.Cancelling? then 1 else 4
  }

  /** The machine after a sequence of activations. */
  function Live(m: Machine, acts: seq<Activation>): (r: Machine)
  {
    if acts == [] then m else Step(Live(m, acts[..|acts| - 1]), acts[|acts| - 1]).next
  }

  /** Everything a sequence of activations commanded, in order. */
  function Commands(m: Machine, acts: seq<Activation>): (c: seq<Command>)
  {
    if acts == [] then []
    else Commands(m, acts[..|acts| - 1]) + Step(Live(m, acts[..|acts| - 1]), acts[|acts| - 1]).commands
  }

  /** All the signals of a sequence of activations, in order. */
  function Signals(acts: seq<Activation>): (s: seq<Approval>)
  {
    if acts == [] then [] else Signals(acts[..|acts| - 1]) + acts[|acts| - 1].signals
  }

  /** Status only moves forward, and a closed run is final. */
  lemma StepMovesForward(m: Machine, act: Activation)
    ensures Progress(m) <= Progress(Step(m, act).next)
    ensures Closed(m) ==> Step(m, act).next == m && Step(m, act).commands == []
  {
  }

  /** A refund run from its start. */
  function RefundAfter(acts: seq<Activation>): (w: Refund)
  {
    if acts == [] then FRESH_REFUND else RefundStep(RefundAfter(acts[..|acts| - 1]), acts[|acts| - 1]).next
  }

  const NEW_REFUND := RefundMachine(FRESH_REFUND)

  lemma {:induction false} LiveRefund(acts: seq<Activation>)
    ensures Live(NEW_REFUND, acts) == RefundMachine(RefundAfter(acts))
  {
    if acts != [] {
      LiveRefund(acts[..|acts| - 1]);
    }
  }

  /** The commands that have brought a run to where it is. */
  predicate CommandsLedTo(state: RefundState, c: seq<Command>)
  {
    match state
    case Started => c == []
    case CheckingOrder => c == [ScheduleLoad]
    case WaitingForApproval(_) => c == [ScheduleLoad]
    case Refunding(_) => c == [ScheduleLoad, ScheduleExecute]
    case Completed(FoundRefunded) => c == [ScheduleLoad]
    case Completed(Executed(_)) => c == [ScheduleLoad, ScheduleExecute]
    case Rejected(_) => c == [ScheduleLoad]
    case Failed => c == [ScheduleLoad] || c == [ScheduleLoad, ScheduleExecute]
  }

  lemma StepKeepsCommands(w: Refund, act: Activation, c: seq<Command>)
    requires CommandsLedTo(w.state, c)
    ensures CommandsLedTo(RefundStep(w, act).next.state, c + RefundStep(w, act).commands)
  {
    assert [ScheduleLoad] + [ScheduleExecute] == [ScheduleLoad, ScheduleExecute];
    assert c + [] == c;
  }

  /** The commands of a refund run, read off its state: a load at most once, an execution at most once and only on the
      way to REFUNDING. So a run that is rejected, or that found the order refunded, never scheduled the refund. */
  lemma {:induction false} CommandsFollowState(acts: seq<Activation>)
    ensures CommandsLedTo(RefundAfter(acts).state, Commands(NEW_REFUND, acts))
  {
    if acts != [] {
      var front := acts[..|acts| - 1];
      CommandsFollowState(front);
      LiveRefund(front);
      StepKeepsCommands(RefundAfter(front), acts[|acts| - 1], Commands(NEW_REFUND, front));
    }
  }

  lemma StepKeepsApproval(w: Refund, act: Activation)
    ensures !RefundClosed(RefundStep(w, act).next.state) ==>
      !RefundClosed(w.state) && RefundStep(w, act).next.approval == Latest(w.approval, act.signals)
  {
  }

  /** The last of the signals, if there are any. */
  predicate IsLast(approval: Option<Approval>, signals: seq<Approval>)
  {
    if signals == [] then approval == None else approval == Some(signals[|signals| - 1])
  }

  lemma LatestIsLast(earlier: seq<Approval>, approval: Option<Approval>, signals: seq<Approval>)
    requires IsLast(approval, earlier)
    ensures IsLast(Latest(approval, signals), earlier + signals)
  {
    if signals == [] {
      assert earlier + signals == earlier;
    } else {
      assert (earlier + signals)[|earlier| + |signals| - 1] == signals[|signals| - 1];
    }
  }

  lemma {:induction false} OpenHoldsLast(acts: seq<Activation>)
    ensures !RefundClosed(RefundAfter(acts).state) ==> IsLast(RefundAfter(acts).approval, Signals(acts))
  {
    if acts != [] {
      var front, act := acts[..|acts| - 1], acts[|acts| - 1];
      OpenHoldsLast(front);
      StepKeepsApproval(RefundAfter(front), act);
      if !RefundClosed(RefundAfter(front).state) {
        LatestIsLast(Signals(front), RefundAfter(front).approval, act.signals);
      }
    }
  }

  /** While a run is open, `_approval` is the last of all the signals so far, and nothing if there was none. */
  lemma ApprovalIsLastSignal(acts: seq<Activation>)
    requires !RefundClosed(RefundAfter(acts).state)
    ensures Signals(acts) == [] ==> RefundAfter(acts).approval == None
    ensures Signals(acts) != [] ==> RefundAfter(acts).approval == Some(Signals(acts)[|Signals(acts)| - 1])
  {
    OpenHoldsLast(acts);
  }

  /** What becomes of a run when its load or its execution ends. */
  lemma AnswersDecide(w: Refund, act: Activation)
    requires act.answer.Some? && (w.state.CheckingOrder? || w.state.Refunding?)
    ensures
      var state, answer := RefundStep(w, act).next.state, act.answer.value;
      if w.state.CheckingOrder? then
        && (state.Failed? <==> !answer.Loaded?)
        && (state == Completed(FoundRefunded) <==> answer.Loaded? && answer.order.status == Status.Refunded)
        && (state == Rejected(NotDelivered) <==>
              answer.Loaded? && answer.order.status !in {Delivered, Status.Refunded})
      else
        && (state.Failed? <==> !answer.Executed?)
        && (answer.Executed? ==> state == Completed(Completion.Executed(answer.refund)))
  {
  }

  /** Activation `k` brings the load of a delivered order above the threshold. */
  predicate ReachesWait(acts: seq<Activation>, k: nat)
  {
    && k < |acts|
    && RefundAfter(acts[..k]).state == CheckingOrder
    && acts[k].answer.Some? && acts[k].answer.value.Loaded?
    && acts[k].answer.value.order.status == Delivered
    && acts[k].answer.value.order.total > 20_000
  }

  /** Whether an approval is needed is a matter of the amount alone: a run with a delivered order goes ahead
      whatever has been signalled, a denial included, exactly if the total is at most the threshold. */
  lemma GoesAheadWhateverIsSignalled(w: Refund, order: OrderTotal)
    requires w.state == CheckingOrder && order.status == Delivered
    ensures order.total <= 20_000 <==>
      forall signals :: RefundStep(w, Activation(signals, Some(Loaded(order)))).next.state == Refunding(order.total)
  {
    if order.total > APPROVAL_THRESHOLD {
      var denial := [Approval(false, "")];
      assert RefundStep(w, Activation(denial, Some(Loaded(order)))).next.state == Rejected(ApprovalDenied);
    }
  }

  function Decided(amount: int, approval: Option<Approval>): (state: RefundState)
  {
    match approval
    case None => WaitingForApproval(amount)
    case Some(a) => if a.approved then Refunding(amount) else Rejected(ApprovalDenied)
  }

  lemma StepDecides(w: Refund, act: Activation, amount: int)
    requires
      || w.state == WaitingForApproval(amount)
      || (w.state == CheckingOrder && amount > APPROVAL_THRESHOLD && act.answer.Some? && act.answer.value.Loaded?
          && act.answer.value.order.status == Delivered && act.answer.value.order.total == amount)
    ensures RefundStep(w, act).next.state == Decided(amount, Latest(w.approval, act.signals))
  {
  }

  lemma DecidesIn(acts: seq<Activation>, d: nat, amount: int)
    requires d < |acts| && !RefundClosed(RefundAfter(acts[..d]).state)
    requires
      var w, act := RefundAfter(acts[..d]), acts[d];
      || w.state == WaitingForApproval(amount)
      || (w.state == CheckingOrder && amount > APPROVAL_THRESHOLD && act.answer.Some? && act.answer.value.Loaded?
          && act.answer.value.order.status == Delivered && act.answer.value.order.total == amount)
    ensures DecidedByLast(RefundAfter(acts[..d + 1]).state, amount, Signals(acts[..d + 1]))
  {
    var w := RefundAfter(acts[..d]);
    OpenHoldsLast(acts[..d]);
    StepDecides(w, acts[d], amount);
    assert acts[..d + 1][..d] == acts[..d];
    LatestIsLast(Signals(acts[..d]), w.approval, acts[d].signals);
  }

  /** The last of the signals decides; without any, the run waits. */
  predicate DecidedByLast(state: RefundState, amount: int, signals: seq<Approval>)
  {
    if signals == [] then state == WaitingForApproval(amount)
    else if signals[|signals| - 1].approved then state == Refunding(amount)
    else state == Rejected(ApprovalDenied)
  }

  /** The deciding approval. A run that comes to its wait in activation `k` waits as long as no signal has ever been
      delivered; activation `d`, the first one at or after `k` by which a signal has been, decides by the last signal
      so far. So it is the last signal before the wait, or else the last of the first delivery after it. */
  lemma {:induction false} DecidingApproval(acts: seq<Activation>, k: nat, d: nat)
    requires ReachesWait(acts, k) && k <= d < |acts|
    requires d == k || Signals(acts[..d]) == []
    ensures DecidedByLast(RefundAfter(acts[..d + 1]).state, acts[k].answer.value.order.total, Signals(acts[..d + 1]))
    decreases d
  {
    if d > k {
      assert acts[..d][..d - 1] == acts[..d - 1];
      DecidingApproval(acts, k, d - 1);
    }
    DecidesIn(acts, d, acts[k].answer.value.order.total);
  }
}

/** Crash and recovery of a worker. The service keeps the recorded history; a worker that has lost its workflow object
    builds a new one by running the history through it, and refuses the history if it commands something else than
    what is recorded. */
module Replay {
  import opened Base
  import opened Workflows

  datatype Record = Record(act: Activation, commands: seq<Command>)

  /** The recorded history, the worker's object, and whether recovery ever met a mismatch. */
  datatype Service = Service(history: seq<Record>, cached: Option<Machine>, mismatch: bool)

  datatype Event = Deliver(act: Activation) | Crash

  /** A fresh object after running a history through it; `None` if its commands differ from the recorded ones. */
  function Rebuild(m: Machine, history: seq<Record>): (r: Option<Machine>)
  {
    if history == [] then Some(m)
    else
      var last := history[|history| - 1];
      match Rebuild(m, history[..|history| - 1])
      case None => None
      case Some(n) => if Step(n, last.act).commands == last.commands then Some(Step(n, last.act).next) else None
  }

  function Handle(m: Machine, s: Service, e: Event): (r: Service)
  {
    match e
    case Crash => s.(cached := None)
    case Deliver(act) =>
      match (if s.cached.Some? then s.cached else Rebuild(m, s.history))
      case None => s.(mismatch := true)
      case Some(n) =>
        var o := Step(n, act);
        Service(s.history + [Record(act, o.commands)], Some(o.next), s.mismatch)
  }

  function RunEvents(m: Machine, events: seq<Event>): (s: Service)
  {
    if events == [] then Service([], Some(m), false)
    else Handle(m, RunEvents(m, events[..|events| - 1]), events[|events| - 1])
  }

  /** The activations of a run, without its crashes. */
  function Delivered(events: seq<Event>): (acts: seq<Activation>)
  {
    if events == [] then []
    else
      var front := Delivered(events[..|events| - 1]);
      match events[|events| - 1]
      case Crash => front
      case Deliver(act) => front + [act]
  }

  function AllCommands(history: seq<Record>): (c: seq<Command>)
  {
    if history == [] then [] else AllCommands(history[..|history| - 1]) + history[|history| - 1].commands
  }

  /** The service is where a run of these activations without crashes would be. */
  ghost predicate InStep(m: Machine, s: Service, acts: seq<Activation>)
  {
    && !s.mismatch
    && Rebuild(m, s.history) == Some(Live(m, acts))
    && (s.cached.Some? ==> s.cached.value == Live(m, acts))
    && AllCommands(s.history) == Commands(m, acts)
  }

  lemma RebuildSnoc(m: Machine, history: seq<Record>, n: Machine, act: Activation)
    requires Rebuild(m, history) == Some(n)
    ensures Rebuild(m, history + [Record(act, Step(n, act).commands)]) == Some(Step(n, act).next)
    ensures AllCommands(history + [Record(act, Step(n, act).commands)]) == AllCommands(history) + Step(n, act).commands
  {
    assert (history + [Record(act, Step(n, act).commands)])[..|history|] == history;
  }

  lemma LiveSnoc(m: Machine, acts: seq<Activation>, act: Activation)
    ensures Live(m, acts + [act]) == Step(Live(m, acts), act).next
    ensures Commands(m, acts + [act]) == Commands(m, acts) + Step(Live(m, acts), act).commands
  {
    assert (acts + [act])[..|acts|] == acts;
  }

  lemma HandleKeepsStep(m: Machine, s: Service, acts: seq<Activation>, e: Event)
    requires InStep(m, s, acts)
    ensures InStep(m, Handle(m, s, e), if e.Deliver? then acts + [e.act] else acts)
  {
    if e.Deliver? {
      RebuildSnoc(m, s.history, Live(m, acts), e.act);
      LiveSnoc(m, acts, e.act);
    }
  }

  /** The step that makes recovery work, for any machine that is a function of its activations: wherever the worker
      crashed, recovery never meets a mismatch, the object it rebuilds is the one that was lost, and the commands that
      the service receives are those of a run without crashes. */
  lemma {:induction false} ReplayEqualsLive(m: Machine, events: seq<Event>)
    ensures InStep(m, RunEvents(m, events), Delivered(events))
    ensures events != [] && events[|events| - 1].Crash? ==> RunEvents(m, events).cached == None
  {
    if events != [] {
      var front := events[..|events| - 1];
      ReplayEqualsLive(m, front);
      HandleKeepsStep(m, RunEvents(m, front), Delivered(front), events[|events| - 1]);
    }
  }

  /** With any number of crashes, a refund run schedules its load once and its execution at most once. */
  lemma ScheduledOnce(events: seq<Event>)
    ensures
      var c := AllCommands(RunEvents(NEW_REFUND, events).history);
      c == [] || c == [ScheduleLoad] || c == [ScheduleLoad, ScheduleExecute]
  {
    ReplayEqualsLive(NEW_REFUND, events);
    CommandsFollowState(Delivered(events));
  }

  /** The deliveries that a history records. */
  function Deliveries(history: seq<Record>): (events: seq<Event>)
    ensures |events| == |history|
  {
    seq(|history|, i requires 0 <= i < |history| => Deliver(history[i].act))
  }

  /** The history of some run of the workflow, with crashes wherever they fell. */
  ghost predicate Producible(m: Machine, history: seq<Record>)
  {
    exists events :: RunEvents(m, events).history == history
  }

  lemma DeliveriesSnoc(front: seq<Record>, last: Record)
    ensures Deliveries(front + [last]) == Deliveries(front) + [Deliver(last.act)]
    ensures Deliveries(front + [last])[..|front|] == Deliveries(front)
  {
  }

  lemma LastRecordFits(m: Machine, front: seq<Record>, last: Record)
    requires Rebuild(m, front + [last]).Some?
    ensures Rebuild(m, front).Some?
    ensures
      var o := Step(Rebuild(m, front).value, last.act);
      o.commands == last.commands && Rebuild(m, front + [last]) == Some(o.next)
  {
    assert (front + [last])[..|front|] == front;
  }

  lemma RunEventsSnoc(m: Machine, events: seq<Event>, e: Event)
    ensures RunEvents(m, events + [e]) == Handle(m, RunEvents(m, events), e)
  {
    assert (events + [e])[..|events|] == events;
  }

  lemma {:induction false} RebuiltIsProduced(m: Machine, history: seq<Record>)
    requires Rebuild(m, history).Some?
    ensures RunEvents(m, Deliveries(history)).history == history
    ensures RunEvents(m, Deliveries(history)).cached == Rebuild(m, history)
  {
    if history != [] {
      var front, last := history[..|history| - 1], history[|history| - 1];
      assert history == front + [last];
      LastRecordFits(m, front, last);
      RebuiltIsProduced(m, front);
      DeliveriesSnoc(front, last);
      RunEventsSnoc(m, Deliveries(front), Deliver(last.act));
    }
  }

  /** A history is accepted exactly if the workflow can have produced it. */
  lemma AcceptedExactlyIfProducible(m: Machine, history: seq<Record>)
    ensures Rebuild(m, history).Some? <==> Producible(m, history)
  {
    if Rebuild(m, history).Some? {
      RebuiltIsProduced(m, history);
    }
    if Producible(m, history) {
      var events :| RunEvents(m, events).history == history;
      ReplayEqualsLive(m, events);
    }
  }

  /** Where a refund run is after these events, and what it has commanded: whatever crashed, its state is that of a run
      without crashes, its approval is the last signal while it is open, and the commands are those that led there. */
  ghost predicate IsWhereItWas(events: seq<Event>, history: seq<Record>, w: Refund)
  {
    && w == RefundAfter(Delivered(events))
    && (!RefundClosed(w.state) ==> IsLast(w.approval, Signals(Delivered(events))))
    && CommandsLedTo(w.state, AllCommands(history))
  }

  lemma RebuiltIsWhereItWas(events: seq<Event>)
    ensures
      var s := RunEvents(NEW_REFUND, events);
      && Rebuild(NEW_REFUND, s.history) == Some(RefundMachine(RefundAfter(Delivered(events))))
      && IsWhereItWas(events, s.history, RefundAfter(Delivered(events)))
  {
    ReplayEqualsLive(NEW_REFUND, events);
    LiveRefund(Delivered(events));
    OpenHoldsLast(Delivered(events));
    CommandsFollowState(Delivered(events));
  }

  /** Recovery as a worker does it, on an object: it accepts exactly the histories that the workflow can have produced,
      and leaves the object where the run that produced them was. */
  method Recover(history: seq<Record>) returns (workflow: RefundWorkflow, ok: bool)
    ensures fresh(workflow)
    ensures ok <==> Producible(NEW_REFUND, history)
    ensures forall events | RunEvents(NEW_REFUND, events).history == history ::
      IsWhereItWas(events, history, workflow.Snapshot())
  {
    workflow := new RefundWorkflow();
    ok := true;
    for i := 0 to |history|
      invariant fresh(workflow)
      invariant ok ==> Rebuild(NEW_REFUND, history[..i]) == Some(RefundMachine(workflow.Snapshot()))
      invariant !ok ==> Rebuild(NEW_REFUND, history[..i]).None?
    {
      assert history[..i + 1][..i] == history[..i];
      if ok {
        var commands := workflow.Activate(history[i].act);
        ok := commands == history[i].commands;
      }
    }
    assert history[..|history|] == history;
    AcceptedExactlyIfProducible(NEW_REFUND, history);
    forall events | RunEvents(NEW_REFUND, events).history == history
      ensures IsWhereItWas(events, history, workflow.Snapshot())
    {
      RebuiltIsWhereItWas(events);
    }
  }

  lemma HandleRefund(events: seq<Event>, i: nat)
    requires i < |events|
    ensures
      var s, s' := RunEvents(NEW_REFUND, events[..i]), RunEvents(NEW_REFUND, events[..i + 1]);
      match events[i]
      case Crash => s'.history == s.history && Delivered(events[..i + 1]) == Delivered(events[..i])
      case Deliver(act) =>
        var o := RefundStep(RefundAfter(Delivered(events[..i])), act);
        && s'.history == s.history + [Record(act, o.commands)]
        && RefundAfter(Delivered(events[..i + 1])) == o.next
  {
    assert events[..i + 1][..i] == events[..i];
    ReplayEqualsLive(NEW_REFUND, events[..i]);
    LiveRefund(Delivered(events[..i]));
    if events[i].Deliver? {
      var acts := Delivered(events[..i]);
      assert (acts + [events[i].act])[..|acts|] == acts;
    }
  }

  /** A worker over any number of crashes: it loses its object in each, recovers it from the recorded history before the
      next delivery, and at the end has the object and has recorded the commands of a run that never crashed. */
  method Serve(events: seq<Event>) returns (workflow: RefundWorkflow, history: seq<Record>)
    ensures fresh(workflow)
    ensures history == RunEvents(NEW_REFUND, events).history
    ensures IsWhereItWas(events, history, workflow.Snapshot())
  {
    workflow := new RefundWorkflow();
    history := [];
    var lost := false;
    for i := 0 to |events|
      invariant fresh(workflow)
      invariant history == RunEvents(NEW_REFUND, events[..i]).history
      invariant !lost ==> workflow.Snapshot() == RefundAfter(Delivered(events[..i]))
    {
      HandleRefund(events, i);
      match events[i]
      case Crash => lost := true;
      case Deliver(act) =>
        if lost {
          var ok: bool;
          workflow, ok := Recover(history);
          assert ok;
          lost := false;
        }
        var commands := workflow.Activate(act);
        history := history + [Record(act, commands)];
    }
    assert events[..|events|] == events;
    RebuiltIsWhereItWas(events);
    if lost {
      var ok: bool;
      workflow, ok := Recover(history);
    }
  }
}
