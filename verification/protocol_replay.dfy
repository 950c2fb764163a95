/** Crashes in the protocol: a worker keeps its runs' objects in memory, and what is recorded is enough to rebuild
    them. */
module ProtocolReplay {
  import opened Base
  import opened Orders
  import opened Workflows
  import opened Protocol
  import opened ProtocolSafety
  import R = Replay

  /** The step is a workflow task of run `r`. */
  predicate IsTask(g: System, step: Step, r: nat)
  {
    && step.WorkflowTask? && step.r == r && r < |g.runs|
    && TaskEnabled(g.runs[r], step.taken, step.answered)
  }

  /** What the service records of a task: the signals and the answer that it was given, and its commands. */
  function TaskRecord(run: Run, taken: nat, answered: bool): (record: R.Record)
    requires TaskEnabled(run, taken, answered)
  {
    var act := Activation(run.inbox[..taken], if answered then run.activity.value.answer else None);
    R.Record(act, Workflows.Step(run.machine, act).commands)
  }

  /** The history of run `r`: the records of its tasks. */
  function History(after: seq<Step> -> System, trace: seq<Step>, r: nat): (history: seq<R.Record>)
  {
    if trace == [] then []
    else
      var front, step := trace[..|trace| - 1], trace[|trace| - 1];
      var g := after(front);
      History(after, front, r)
      + if IsTask(g, step, r) then [TaskRecord(g.runs[r], step.taken, step.answered)] else []
  }

  /** Replaying the history gives the run's object. */
  predicate Recovers(history: seq<R.Record>, run: Run)
  {
    R.Rebuild(NewMachine(KindOf(run.machine)), history) == Some(run.machine)
  }

  lemma TaskRecovers(history: seq<R.Record>, run: Run, taken: nat, answered: bool)
    requires Recovers(history, run) && TaskEnabled(run, taken, answered)
    ensures Recovers(history + [TaskRecord(run, taken, answered)], AfterTask(run, taken, answered))
  {
    R.RebuildSnoc(NewMachine(KindOf(run.machine)), history, run.machine, TaskRecord(run, taken, answered).act);
  }

  lemma NewMachineStarts(g: System, step: Step, r: nat)
    requires |g.runs| <= r < |Next(g, step).runs|
    ensures Next(g, step).runs[r].machine == NewMachine(KindOf(Next(g, step).runs[r].machine))
    ensures |g.runs| <= |Next(g, step).runs|
  {
  }

  /** A run that has not been started has no history. */
  ghost predicate AllRecover(after: seq<Step> -> System, trace: seq<Step>, runs: seq<Run>)
  {
    && (forall r: nat | r < |runs| :: Recovers(History(after, trace, r), runs[r]))
    && (forall r: nat | |runs| <= r :: History(after, trace, r) == [])
  }

  lemma HistorySnoc(after: seq<Step> -> System, front: seq<Step>, step: Step, r: nat)
    ensures History(after, front + [step], r) == History(after, front, r)
      + if IsTask(after(front), step, r) then [TaskRecord(after(front).runs[r], step.taken, step.answered)] else []
  {
    assert (front + [step])[..|front|] == front;
  }

  lemma StepKeepsRecovery(after: seq<Step> -> System, g: System, h: System, front: seq<Step>, step: Step)
    requires after(front) == g && h == Next(g, step) && AllRecover(after, front, g.runs)
    ensures AllRecover(after, front + [step], h.runs)
  {
    forall r: nat
      ensures r < |h.runs| ==> Recovers(History(after, front + [step], r), h.runs[r])
      ensures |h.runs| <= r ==> History(after, front + [step], r) == []
    {
      HistorySnoc(after, front, step, r);
      if r < |g.runs| {
        if IsTask(g, step, r) {
          TaskRecovers(History(after, front, r), g.runs[r], step.taken, step.answered);
        } else {
          assert History(after, front + [step], r) == History(after, front, r);
          assert Recovers(History(after, front, r), g.runs[r]);
        }
      } else {
        assert History(after, front, r) == [];
        assert History(after, front + [step], r) == [];
        if r < |h.runs| {
          NewMachineStarts(g, step, r);
          assert R.Rebuild(NewMachine(KindOf(h.runs[r].machine)), []) == Some(h.runs[r].machine);
        }
      }
    }
  }

  lemma RecoveryAfterSnoc(t: Tables, front: seq<Step>, step: Step, g: System, h: System)
    requires After(Begin(t), front) == g && h == Next(g, step) && AllRecover(StateAfter(t), front, g.runs)
    ensures AllRecover(StateAfter(t), front + [step], h.runs)
  {
    StepKeepsRecovery(StateAfter(t), g, h, front, step);
  }

  /** At every point of every run of the protocol, and for every workflow run in it, replaying what has been recorded of
      that workflow run rebuilds exactly its object: a worker may crash anywhere. */
  lemma {:induction false} EveryRunRecovers(t: Tables, trace: seq<Step>, g: System)
    requires After(Begin(t), trace) == g
    ensures AllRecover(StateAfter(t), trace, g.runs)
  {
    if trace != [] {
      var front, step := trace[..|trace| - 1], trace[|trace| - 1];
      assert trace == front + [step];
      AfterSnoc(Begin(t), front, step);
      EveryRunRecovers(t, front, After(Begin(t), front));
      RecoveryAfterSnoc(t, front, step, After(Begin(t), front), g);
    }
  }

  // ---- Signals ----

  /** The approvals that were signalled to run `r` while it was the open one, in order. */
  function SentTo(after: seq<Step> -> System, trace: seq<Step>, r: nat): (signals: seq<Approval>)
  {
    if trace == [] then []
    else
      var front, step := trace[..|trace| - 1], trace[|trace| - 1];
      SentTo(after, front, r)
      + if step.Signal? && FindOpen(after(front).runs, step.id) == Some(r) then [step.approval] else []
  }

  /** The approvals that a history's tasks were given, in order. */
  function Taken(history: seq<R.Record>): (signals: seq<Approval>)
  {
    if history == [] then [] else Taken(history[..|history| - 1]) + history[|history| - 1].act.signals
  }

  ghost predicate InOrder(after: seq<Step> -> System, trace: seq<Step>, runs: seq<Run>)
  {
    && (forall r: nat | r < |runs| :: Taken(History(after, trace, r)) + runs[r].inbox == SentTo(after, trace, r))
    && (forall r: nat | |runs| <= r :: History(after, trace, r) == [] && SentTo(after, trace, r) == [])
  }

  lemma SentSnoc(after: seq<Step> -> System, front: seq<Step>, step: Step, r: nat)
    ensures SentTo(after, front + [step], r) == SentTo(after, front, r)
      + if step.Signal? && FindOpen(after(front).runs, step.id) == Some(r) then [step.approval] else []
  {
    assert (front + [step])[..|front|] == front;
  }

  lemma TakenSnoc(history: seq<R.Record>, record: R.Record)
    ensures Taken(history + [record]) == Taken(history) + record.act.signals
  {
    assert (history + [record])[..|history|] == history;
  }

  lemma InboxChange(g: System, step: Step, r: nat)
    requires r < |g.runs|
    ensures r < |Next(g, step).runs|
    ensures
      Next(g, step).runs[r].inbox ==
        if IsTask(g, step, r) then g.runs[r].inbox[step.taken..]
        else if step.Signal? && FindOpen(g.runs, step.id) == Some(r) then g.runs[r].inbox + [step.approval]
        else g.runs[r].inbox
  {
  }

  lemma NewInboxIsEmpty(g: System, step: Step, r: nat)
    requires |g.runs| <= r
    ensures r < |Next(g, step).runs| ==> Next(g, step).runs[r].inbox == []
    ensures !(step.Signal? && FindOpen(g.runs, step.id) == Some(r))
  {
  }

  lemma RunStaysInOrder(
      after: seq<Step> -> System, g: System, front: seq<Step>, step: Step, r: nat)
    requires after(front) == g && r < |g.runs|
    requires Taken(History(after, front, r)) + g.runs[r].inbox == SentTo(after, front, r)
    ensures r < |Next(g, step).runs|
    ensures Taken(History(after, front + [step], r)) + Next(g, step).runs[r].inbox == SentTo(after, front + [step], r)
  {
    HistorySnoc(after, front, step, r);
    SentSnoc(after, front, step, r);
    InboxChange(g, step, r);
    var history, inbox := History(after, front, r), g.runs[r].inbox;
    if IsTask(g, step, r) {
      TakenSnoc(history, TaskRecord(g.runs[r], step.taken, step.answered));
      assert inbox == inbox[..step.taken] + inbox[step.taken..];
    } else {
      assert History(after, front + [step], r) == history;
    }
  }

  lemma StepKeepsOrder(after: seq<Step> -> System, g: System, h: System, front: seq<Step>, step: Step)
    requires after(front) == g && h == Next(g, step) && InOrder(after, front, g.runs)
    ensures InOrder(after, front + [step], h.runs)
  {
    forall r: nat
      ensures r < |h.runs| ==>
        Taken(History(after, front + [step], r)) + h.runs[r].inbox == SentTo(after, front + [step], r)
      ensures |h.runs| <= r ==>
        History(after, front + [step], r) == [] && SentTo(after, front + [step], r) == []
    {
      if r < |g.runs| {
        RunStaysInOrder(after, g, front, step, r);
      } else {
        HistorySnoc(after, front, step, r);
        SentSnoc(after, front, step, r);
        NewInboxIsEmpty(g, step, r);
        assert History(after, front + [step], r) == [] && SentTo(after, front + [step], r) == [];
      }
    }
  }

  lemma OrderAfterSnoc(t: Tables, front: seq<Step>, step: Step, g: System, h: System)
    requires After(Begin(t), front) == g && h == Next(g, step) && InOrder(StateAfter(t), front, g.runs)
    ensures InOrder(StateAfter(t), front + [step], h.runs)
  {
    StepKeepsOrder(StateAfter(t), g, h, front, step);
  }

  /** Every approval that is signalled to a run is handed to it once, and in the order of sending: those that its tasks
      were given, followed by those that still wait, are those that were sent to it. */
  lemma {:induction false} SignalsArriveInOrder(t: Tables, trace: seq<Step>, g: System)
    requires After(Begin(t), trace) == g
    ensures InOrder(StateAfter(t), trace, g.runs)
  {
    if trace != [] {
      var front, step := trace[..|trace| - 1], trace[|trace| - 1];
      assert trace == front + [step];
      AfterSnoc(Begin(t), front, step);
      SignalsArriveInOrder(t, front, After(Begin(t), front));
      OrderAfterSnoc(t, front, step, After(Begin(t), front), g);
    }
  }

  /** And on an object: recovery accepts the history of a refund run, and ends with the run's state and approval. */
  method RecoverRun(t: Tables, trace: seq<Step>, r: nat) returns (workflow: RefundWorkflow, ok: bool)
    requires r < |After(Begin(t), trace).runs| && After(Begin(t), trace).runs[r].machine.RefundMachine?
    ensures fresh(workflow) && ok
    ensures workflow.Snapshot() == After(Begin(t), trace).runs[r].machine.refund
  {
    EveryRunRecovers(t, trace, After(Begin(t), trace));
    var history := History(StateAfter(t), trace, r);
    workflow, ok := R.Recover(history);
    RecoveredIsLive(history, After(Begin(t), trace).runs[r].machine.refund, workflow.Snapshot(), ok);
  }

  lemma RecoveredIsLive(history: seq<R.Record>, w: Refund, recovered: Refund, ok: bool)
    requires R.Rebuild(NEW_REFUND, history) == Some(RefundMachine(w))
    requires ok <==> R.Producible(NEW_REFUND, history)
    requires forall events | R.RunEvents(NEW_REFUND, events).history == history ::
      R.IsWhereItWas(events, history, recovered)
    ensures ok && recovered == w
  {
    R.AcceptedExactlyIfProducible(NEW_REFUND, history);
    R.RebuiltIsProduced(NEW_REFUND, history);
    R.RebuiltIsWhereItWas(R.Deliveries(history));
    assert R.IsWhereItWas(R.Deliveries(history), history, recovered);
  }
}
