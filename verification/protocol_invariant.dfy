/** Every step of the protocol keeps its invariant. */
module ProtocolInvariant {
  import opened Base
  import opened Orders
  import opened Ledger
  import opened Workflows
  import opened Identifiers
  import opened Protocol

  // ---- The tables evolve: what runs and attempts know stays true ----

  lemma TruthIsStable(t: Tables, u: Tables, seeded: set<nat>, input: Input)
    requires Evolves(t, u)
    ensures forall amount :: WasDelivered(t, seeded, input, amount) ==> WasDelivered(u, seeded, input, amount)
    ensures IsRefunded(t, input) ==> IsRefunded(u, input)
    ensures forall result :: CancelTruth(t, input, result) ==> CancelTruth(u, input, result)
    ensures forall order :: LoadTruth(t, seeded, input, order) ==> LoadTruth(u, seeded, input, order)
  {
  }

  lemma RunOkIsStable(t: Tables, u: Tables, seeded: set<nat>, run: Run)
    requires Evolves(t, u) && RunOk(t, seeded, run)
    ensures RunOk(u, seeded, run)
  {
    TruthIsStable(t, u, seeded, run.input);
  }

  lemma AttemptOkIsStable(t: Tables, u: Tables, seeded: set<nat>, runs: seq<Run>, attempt: Attempt)
    requires Evolves(t, u) && AttemptOk(t, seeded, runs, attempt)
    ensures AttemptOk(u, seeded, runs, attempt)
  {
    TruthIsStable(t, u, seeded, runs[attempt.run].input);
  }

  /** A transaction replies the truth about the tables that it leaves. */
  lemma AtomicRepliesTruth(t: Tables, seeded: set<nat>, run: Run, command: Command)
    requires Consistent(t, seeded)
    requires command == ScheduleExecute ==> Granted(t, seeded, run)
    ensures
      var (u, reply) := Atomic(t, CallFor(command, run.input));
      ReplyTruth(u, seeded, run.input, command, reply)
  {
    if command == ScheduleExecute {
      var n := run.input.n;
      if t.orders[n].status == Status.Refunded {
        assert HasRefund(t.refunds, n);
      }
    }
  }

  lemma TranslateKeepsTruth(t: Tables, seeded: set<nat>, input: Input, command: Command, reply: Reply)
    requires ReplyTruth(t, seeded, input, command, reply)
    ensures Translate(reply).Success? ==> AnswerTruth(t, seeded, input, command, Translate(reply).answer)
  {
  }

  // ---- One run advances ----

  lemma CancelTaskKeepsRunOk(t: Tables, seeded: set<nat>, run: Run, taken: nat, answered: bool)
    requires RunOk(t, seeded, run) && TaskEnabled(run, taken, answered) && run.machine.CancelMachine?
    ensures RunOk(t, seeded, AfterTask(run, taken, answered))
  {
  }

  lemma CheckingTaskKeepsRunOk(t: Tables, seeded: set<nat>, run: Run, taken: nat, answered: bool)
    requires RunOk(t, seeded, run) && TaskEnabled(run, taken, answered)
    requires run.machine.RefundMachine? && run.machine.refund.state.CheckingOrder?
    ensures RunOk(t, seeded, AfterTask(run, taken, answered))
  {
    if answered && run.activity.value.answer.value.Loaded? {
      var order := run.activity.value.answer.value.order;
      assert LoadTruth(t, seeded, run.input, order);
      if order.status == Delivered {
        assert WasDelivered(t, seeded, run.input, order.total);
      }
    }
  }

  lemma OtherTaskKeepsRunOk(t: Tables, seeded: set<nat>, run: Run, taken: nat, answered: bool)
    requires RunOk(t, seeded, run) && TaskEnabled(run, taken, answered)
    requires run.machine.RefundMachine? && !run.machine.refund.state.CheckingOrder?
    ensures RunOk(t, seeded, AfterTask(run, taken, answered))
  {
  }

  /** One workflow task keeps what is known of its run. */
  lemma TaskKeepsRunOk(t: Tables, seeded: set<nat>, run: Run, taken: nat, answered: bool)
    requires RunOk(t, seeded, run) && TaskEnabled(run, taken, answered)
    ensures RunOk(t, seeded, AfterTask(run, taken, answered))
  {
    if run.machine.CancelMachine? {
      CancelTaskKeepsRunOk(t, seeded, run, taken, answered);
    } else if run.machine.refund.state.CheckingOrder? {
      CheckingTaskKeepsRunOk(t, seeded, run, taken, answered);
    } else {
      OtherTaskKeepsRunOk(t, seeded, run, taken, answered);
    }
  }

  /** What attempts rely on is not lost when their run advances; and a command is scheduled only once. */
  ghost predicate Advances(run: Run, run': Run)
  {
    && run'.input == run.input && run'.id == run.id
    && (Open(run') ==> Open(run))
    && (run.consumed.Some? ==> run'.consumed == run.consumed)
    && (forall c :: HasScheduled(run.machine, c) ==> HasScheduled(run'.machine, c))
    && (run'.activity.Some? ==>
          || !HasScheduled(run.machine, run'.activity.value.command)
          || (run.activity.Some? && run.activity.value.command == run'.activity.value.command
              && run.activity.value.tries <= run'.activity.value.tries))
  }

  lemma TaskAdvances(t: Tables, seeded: set<nat>, run: Run, taken: nat, answered: bool)
    requires RunOk(t, seeded, run) && TaskEnabled(run, taken, answered)
    ensures
      var run' := AfterTask(run, taken, answered);
      && Advances(run, run')
      && (run'.activity.Some? && run'.activity != run.activity ==> run'.activity.value.live.None?)
  {
  }

  ghost predicate LiveAt(run: Run, r: nat, attempts: seq<Attempt>)
  {
    run.activity.Some? && run.activity.value.live.Some? ==>
      var a := run.activity.value.live.value;
      a < |attempts| && attempts[a].run == r && attempts[a].command == run.activity.value.command
  }

  lemma AttemptOkAfterAdvance(t: Tables, seeded: set<nat>, runs: seq<Run>, r: nat, run: Run, attempt: Attempt)
    requires r < |runs| && Advances(runs[r], run) && AttemptOk(t, seeded, runs, attempt)
    ensures AttemptOk(t, seeded, runs[r := run], attempt)
  {
  }

  lemma AdvanceKeepsInv(g: System, seeded: set<nat>, r: nat, run: Run)
    requires Inv(g, seeded) && r < |g.runs|
    requires RunOk(g.tables, seeded, run) && Advances(g.runs[r], run) && LiveAt(run, r, g.attempts)
    ensures Inv(g.(runs := g.runs[r := run]), seeded)
  {
    forall a | 0 <= a < |g.attempts|
      ensures AttemptOk(g.tables, seeded, g.runs[r := run], g.attempts[a])
    {
      AttemptOkAfterAdvance(g.tables, seeded, g.runs, r, run, g.attempts[a]);
    }
  }

  lemma FailureKeepsRunOk(t: Tables, seeded: set<nat>, run: Run)
    requires RunOk(t, seeded, run) && HasLive(run)
    ensures RunOk(t, seeded, run.(activity := Some(AfterFailure(run.activity.value))))
  {
  }

  lemma ReportKeepsRunOk(t: Tables, seeded: set<nat>, run: Run, reply: Reply)
    requires RunOk(t, seeded, run) && HasLive(run)
    requires ReplyTruth(t, seeded, run.input, run.activity.value.command, reply)
    ensures RunOk(t, seeded, run.(activity := Some(AfterReport(run.activity.value, reply))))
  {
    TranslateKeepsTruth(t, seeded, run.input, run.activity.value.command, reply);
  }

  // ---- The steps ----

  lemma StartKeepsInv(g: System, seeded: set<nat>, kind: Kind, input: Input)
    requires Inv(g, seeded)
    ensures Inv(Next(g, StartRun(kind, input)), seeded)
  {
    var g' := Next(g, StartRun(kind, input));
    if g' != g {
      forall a | 0 <= a < |g.attempts|
        ensures AttemptOk(g.tables, seeded, g'.runs, g.attempts[a])
      {
        assert g'.runs[g.attempts[a].run] == g.runs[g.attempts[a].run];
      }
    }
  }

  lemma TaskKeepsInv(g: System, seeded: set<nat>, r: nat, taken: nat, answered: bool)
    requires Inv(g, seeded) && r < |g.runs| && TaskEnabled(g.runs[r], taken, answered)
    ensures Inv(Next(g, WorkflowTask(r, taken, answered)), seeded)
  {
    TaskKeepsRunOk(g.tables, seeded, g.runs[r], taken, answered);
    TaskAdvances(g.tables, seeded, g.runs[r], taken, answered);
    AdvanceKeepsInv(g, seeded, r, AfterTask(g.runs[r], taken, answered));
  }

  /** A new attempt may run: its activity has tries left, and an execution has its grant. */
  lemma BeginKeepsRunOk(t: Tables, seeded: set<nat>, runs: seq<Run>, r: nat, a: nat)
    requires r < |runs| && RunOk(t, seeded, runs[r]) && CanAttempt(runs[r])
    ensures
      var run, activity := runs[r], runs[r].activity.value;
      var run' := run.(activity := Some(activity.(tries := activity.tries + 1, live := Some(a))));
      && RunOk(t, seeded, run') && Advances(run, run')
      && AttemptOk(t, seeded, runs[r := run'],
           Attempt(r, activity.command, activity.tries + 1, CallFor(activity.command, run.input), None))
  {
  }

  lemma NumberedSnoc(attempts: seq<Attempt>, attempt: Attempt)
    requires Numbered(attempts)
    requires forall a | 0 <= a < |attempts|
               && attempts[a].run == attempt.run && attempts[a].command == attempt.command ::
               attempts[a].number < attempt.number
    ensures Numbered(attempts + [attempt])
  {
  }

  lemma LiveSnoc(runs: seq<Run>, attempts: seq<Attempt>, r: nat, run: Run, attempt: Attempt)
    requires LiveOk(runs, attempts) && r < |runs| && attempt.run == r
    requires run.activity.Some? && run.activity.value.live == Some(|attempts|)
    requires attempt.command == run.activity.value.command
    ensures LiveOk(runs[r := run], attempts + [attempt])
  {
  }

  lemma BeginKeepsInv(g: System, seeded: set<nat>, r: nat)
    requires Inv(g, seeded) && r < |g.runs| && CanAttempt(g.runs[r])
    ensures Inv(Next(g, BeginAttempt(r)), seeded)
  {
    var g', run := Next(g, BeginAttempt(r)), g.runs[r];
    var run', attempt := g'.runs[r], g'.attempts[|g.attempts|];
    BeginKeepsRunOk(g.tables, seeded, g.runs, r, |g.attempts|);
    forall a | 0 <= a < |g.attempts|
      ensures AttemptOk(g.tables, seeded, g'.runs, g.attempts[a])
    {
      AttemptOkAfterAdvance(g.tables, seeded, g.runs, r, run', g.attempts[a]);
    }
    assert Numbered(g'.attempts) by {
      assert forall a | 0 <= a < |g.attempts| :: AttemptOk(g.tables, seeded, g.runs, g.attempts[a]);
      NumberedSnoc(g.attempts, attempt);
    }
    LiveSnoc(g.runs, g.attempts, r, run', attempt);
    assert RowsOk(g'.tables, g'.attempts, g'.inserters);
    assert OneOpenPerId(g'.runs);
  }

  lemma ReportKeepsInv(g: System, seeded: set<nat>, r: nat)
    requires Inv(g, seeded) && r < |g.runs| && HasLive(g.runs[r])
    ensures Inv(Next(g, Report(r)), seeded)
  {
    var run, activity := g.runs[r], g.runs[r].activity.value;
    assert LiveAt(run, r, g.attempts);
    var attempt := g.attempts[activity.live.value];
    if attempt.reply.Some? {
      assert AttemptOk(g.tables, seeded, g.runs, attempt);
      ReportKeepsRunOk(g.tables, seeded, run, attempt.reply.value);
      AdvanceKeepsInv(g, seeded, r, run.(activity := Some(AfterReport(activity, attempt.reply.value))));
    }
  }

  lemma GiveUpKeepsInv(g: System, seeded: set<nat>, r: nat)
    requires Inv(g, seeded) && r < |g.runs| && HasLive(g.runs[r])
    ensures Inv(Next(g, GiveUp(r)), seeded)
  {
    FailureKeepsRunOk(g.tables, seeded, g.runs[r]);
    AdvanceKeepsInv(g, seeded, r, g.runs[r].(activity := Some(AfterFailure(g.runs[r].activity.value))));
  }

  /** A change of the tables alone. */
  lemma TablesKeepInv(g: System, seeded: set<nat>, op: Op)
    requires Inv(g, seeded) && !op.Transaction?
    ensures Inv(g.(tables := Apply(g.tables, op)), seeded)
  {
    var u := Apply(g.tables, op);
    ApplyKeepsConsistent(g.tables, op, seeded);
    ApplyEvolves(g.tables, op);
    ApplyKeepsKeys(g.tables, op);
    forall r | 0 <= r < |g.runs|
      ensures RunOk(u, seeded, g.runs[r])
    {
      RunOkIsStable(g.tables, u, seeded, g.runs[r]);
    }
    forall a | 0 <= a < |g.attempts|
      ensures AttemptOk(u, seeded, g.runs, g.attempts[a])
    {
      AttemptOkIsStable(g.tables, u, seeded, g.runs, g.attempts[a]);
    }
  }

  /** Only a committed refund adds a row, and it adds one, for its own order. */
  lemma RowsGrowByRefunds(t: Tables, call: Call)
    ensures
      var (u, reply) := Atomic(t, call);
      && (reply.RefundReply? && reply.refund.Some? && reply.refund.value.refunded <==> u.refunds != t.refunds)
      && (u.refunds != t.refunds ==>
            && call.RefundCall? && |u.refunds| == |t.refunds| + 1
            && u.refunds[..|t.refunds|] == t.refunds && u.refunds[|t.refunds|].orderId == call.n)
  {
  }

  lemma RowsAfterReply(t: Tables, u: Tables, attempts: seq<Attempt>, inserters: seq<nat>, a: nat, attempt: Attempt)
    requires RowsOk(t, attempts, inserters) && a < |attempts| && attempts[a].reply.None?
    requires attempt.command == attempts[a].command && attempt.call == attempts[a].call
    requires
      if DidRefund(attempt) then
        && attempt.command == ScheduleExecute
        && |u.refunds| == |t.refunds| + 1 && u.refunds[..|t.refunds|] == t.refunds
        && u.refunds[|t.refunds|].orderId == attempt.call.n
      else u.refunds == t.refunds
    ensures RowsOk(u, attempts[a := attempt], if DidRefund(attempt) then inserters + [a] else inserters)
  {
    assert a !in inserters;
    if DidRefund(attempt) {
      var longer := inserters + [a];
      assert longer[|inserters|] == a;
      assert forall b | b in inserters :: b in longer;
      assert forall i | 0 <= i < |t.refunds| :: u.refunds[i] == u.refunds[..|t.refunds|][i];
    }
  }

  lemma TransactKeepsRows(g: System, seeded: set<nat>, a: nat, survives: bool)
    requires RowsOk(g.tables, g.attempts, g.inserters) && a < |g.attempts| && g.attempts[a].reply.None?
    requires AttemptOk(g.tables, seeded, g.runs, g.attempts[a])
    ensures
      var g' := AfterTransact(g, a, survives);
      RowsOk(g'.tables, g'.attempts, g'.inserters)
  {
    var g' := AfterTransact(g, a, survives);
    RowsGrowByRefunds(g.tables, g.attempts[a].call);
    RowsAfterReply(g.tables, g'.tables, g.attempts, g.inserters, a, g'.attempts[a]);
  }

  /** A committed transaction moves the tables; everything that was known stays true. */
  lemma CommitKeepsKnowledge(g: System, seeded: set<nat>, call: Call)
    requires Inv(g, seeded)
    requires call.RefundCall? ==> call.key == IdempotencyKey(call.n)
    ensures
      var u := Atomic(g.tables, call).0;
      && Consistent(u, seeded) && KeysMatch(u)
      && (forall r | 0 <= r < |g.runs| :: RunOk(u, seeded, g.runs[r]))
      && (forall b | 0 <= b < |g.attempts| :: AttemptOk(u, seeded, g.runs, g.attempts[b]))
  {
    var op := Transaction(call);
    var u := Apply(g.tables, op);
    ApplyKeepsConsistent(g.tables, op, seeded);
    ApplyEvolves(g.tables, op);
    ApplyKeepsKeys(g.tables, op);
    forall r | 0 <= r < |g.runs|
      ensures RunOk(u, seeded, g.runs[r])
    {
      RunOkIsStable(g.tables, u, seeded, g.runs[r]);
    }
    forall b | 0 <= b < |g.attempts|
      ensures AttemptOk(u, seeded, g.runs, g.attempts[b])
    {
      AttemptOkIsStable(g.tables, u, seeded, g.runs, g.attempts[b]);
    }
  }

  lemma ReplyKeepsAttemptOk(t: Tables, seeded: set<nat>, runs: seq<Run>, attempt: Attempt, reply: Reply)
    requires AttemptOk(t, seeded, runs, attempt)
    requires ReplyTruth(t, seeded, runs[attempt.run].input, attempt.command, reply)
    ensures AttemptOk(t, seeded, runs, attempt.(reply := Some(reply)))
  {
  }

  lemma TransactKeepsInv(g: System, seeded: set<nat>, a: nat, survives: bool)
    requires Inv(g, seeded) && a < |g.attempts| && g.attempts[a].reply.None?
    ensures Inv(Next(g, Transact(a, survives)), seeded)
  {
    var g', attempt := AfterTransact(g, a, survives), g.attempts[a];
    TransactKeepsRows(g, seeded, a, survives);
    if survives {
      CommitKeepsKnowledge(g, seeded, attempt.call);
      AtomicRepliesTruth(g.tables, seeded, g.runs[attempt.run], attempt.command);
    }
    ReplyKeepsAttemptOk(g'.tables, seeded, g.runs, attempt, g'.attempts[a].reply.value);
    assert forall b | 0 <= b < |g.attempts| && b != a :: g'.attempts[b] == g.attempts[b];
  }

  /** Every step keeps the invariant. */
  lemma NextKeepsInv(g: System, seeded: set<nat>, step: Step)
    requires Inv(g, seeded)
    ensures Inv(Next(g, step), seeded)
  {
    if Next(g, step) != g {
      match step
      case StartRun(kind, input) => StartKeepsInv(g, seeded, kind, input);
      case Signal(id, approval) =>
        var r := FindOpen(g.runs, id).value;
        AdvanceKeepsInv(g, seeded, r, g.runs[r].(inbox := g.runs[r].inbox + [approval]));
      case WorkflowTask(r, taken, answered) => TaskKeepsInv(g, seeded, r, taken, answered);
      case BeginAttempt(r) => BeginKeepsInv(g, seeded, r);
      case Transact(a, survives) => TransactKeepsInv(g, seeded, a, survives);
      case Report(r) => ReportKeepsInv(g, seeded, r);
      case GiveUp(r) => GiveUpKeepsInv(g, seeded, r);
      case Expire(r) => AdvanceKeepsInv(g, seeded, r, g.runs[r].(expired := true));
      case Shop(op) => TablesKeepInv(g, seeded, op);
    }
  }

  lemma {:induction false} AfterKeepsInv(g: System, trace: seq<Step>, seeded: set<nat>)
    requires Inv(g, seeded)
    ensures Inv(After(g, trace), seeded)
  {
    if trace != [] {
      AfterKeepsInv(g, trace[..|trace| - 1], seeded);
      NextKeepsInv(After(g, trace[..|trace| - 1]), seeded, trace[|trace| - 1]);
    }
  }

  /** Every possible state satisfies the invariant. */
  lemma PossibleIsOk(t: Tables, g: System)
    requires Possible(t, g)
    ensures Inv(g, SeededRefunds(t))
  {
    InitialIsConsistent(t);
    var trace :| After(Begin(t), trace) == g;
    AfterKeepsInv(Begin(t), trace, SeededRefunds(t));
  }
}
