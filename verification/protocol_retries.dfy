/** Why runs fail: the retry policy never gives up early. */
module ProtocolRetries {
  import opened Base
  import opened Orders
  import opened Ledger
  import opened Workflows
  import opened Protocol
  import opened ProtocolInvariant
  import opened ProtocolSafety

  predicate Tried(attempts: seq<Attempt>, r: nat, command: Command, number: nat)
  {
    exists a :: 0 <= a < |attempts|
      && attempts[a].run == r && attempts[a].command == command && attempts[a].number == number
  }

  /** The run has attempted this activity so many times. */
  ghost predicate TriedUpTo(attempts: seq<Attempt>, r: nat, command: Command, tries: nat)
  {
    forall k: nat | 1 <= k <= tries :: Tried(attempts, r, command, k)
  }

  /** An attempt of this activity has met an error that is not retried. */
  predicate WasRefused(attempts: seq<Attempt>, r: nat, command: Command)
  {
    exists a :: 0 <= a < |attempts|
      && attempts[a].run == r && attempts[a].command == command
      && attempts[a].reply.Some? && Translate(attempts[a].reply.value).NonRetryable?
  }

  ghost predicate Exhausted(attempts: seq<Attempt>, r: nat, command: Command)
  {
    WasRefused(attempts, r, command) || TriedUpTo(attempts, r, command, MAXIMUM_ATTEMPTS)
  }

  ghost predicate FailedForAReason(attempts: seq<Attempt>, r: nat, m: Machine)
  {
    match m
    case RefundMachine(w) =>
      w.state.Failed? ==> Exhausted(attempts, r, ScheduleLoad) || Exhausted(attempts, r, ScheduleExecute)
    case CancelMachine(s) => s.CancelFailed? ==> Exhausted(attempts, r, ScheduleCancel)
  }

  ghost predicate RetriesOk(attempts: seq<Attempt>, r: nat, run: Run)
  {
    && (run.activity.Some? ==>
          && TriedUpTo(attempts, r, run.activity.value.command, run.activity.value.tries)
          && (run.activity.value.answer == Some(ActivityFailed) ==>
                Exhausted(attempts, r, run.activity.value.command)))
    && FailedForAReason(attempts, r, run.machine)
  }

  /** Attempts are never forgotten, nor their replies. */
  ghost predicate Remembers(attempts: seq<Attempt>, later: seq<Attempt>)
  {
    && |attempts| <= |later|
    && forall a | 0 <= a < |attempts| ::
         && later[a].run == attempts[a].run && later[a].command == attempts[a].command
         && later[a].number == attempts[a].number
         && (attempts[a].reply.Some? ==> later[a].reply == attempts[a].reply)
  }

  lemma NextRemembers(g: System, step: Step)
    ensures Remembers(g.attempts, Next(g, step).attempts)
  {
  }

  lemma TriedIsStable(attempts: seq<Attempt>, later: seq<Attempt>, r: nat, command: Command, tries: nat)
    requires Remembers(attempts, later) && TriedUpTo(attempts, r, command, tries)
    ensures TriedUpTo(later, r, command, tries)
  {
    forall k: nat | 1 <= k <= tries
      ensures Tried(later, r, command, k)
    {
      assert Tried(attempts, r, command, k);
      var a :| 0 <= a < |attempts|
        && attempts[a].run == r && attempts[a].command == command && attempts[a].number == k;
      assert later[a].number == k;
    }
  }

  lemma ExhaustedIsStable(attempts: seq<Attempt>, later: seq<Attempt>, r: nat, command: Command)
    requires Remembers(attempts, later) && Exhausted(attempts, r, command)
    ensures Exhausted(later, r, command)
  {
    if WasRefused(attempts, r, command) {
      var a :| 0 <= a < |attempts|
        && attempts[a].run == r && attempts[a].command == command
        && attempts[a].reply.Some? && Translate(attempts[a].reply.value).NonRetryable?;
      assert later[a].reply == attempts[a].reply;
    } else {
      TriedIsStable(attempts, later, r, command, MAXIMUM_ATTEMPTS);
    }
  }

  lemma RetriesOkIsStable(attempts: seq<Attempt>, later: seq<Attempt>, r: nat, run: Run)
    requires Remembers(attempts, later) && RetriesOk(attempts, r, run)
    ensures RetriesOk(later, r, run)
  {
    if run.activity.Some? {
      TriedIsStable(attempts, later, r, run.activity.value.command, run.activity.value.tries);
    }
    forall c: Command | Exhausted(attempts, r, c)
      ensures Exhausted(later, r, c)
    {
      ExhaustedIsStable(attempts, later, r, c);
    }
  }

  lemma TaskKeepsRetries(t: Tables, seeded: set<nat>, attempts: seq<Attempt>, r: nat, run: Run, taken: nat,
        answered: bool)
    requires RunOk(t, seeded, run) && RetriesOk(attempts, r, run) && TaskEnabled(run, taken, answered)
    ensures RetriesOk(attempts, r, AfterTask(run, taken, answered))
  {
  }

  lemma FailureKeepsRetries(t: Tables, seeded: set<nat>, attempts: seq<Attempt>, r: nat, run: Run)
    requires RunOk(t, seeded, run) && RetriesOk(attempts, r, run) && HasLive(run)
    ensures RetriesOk(attempts, r, run.(activity := Some(AfterFailure(run.activity.value))))
  {
  }

  lemma ReportKeepsRetries(t: Tables, seeded: set<nat>, attempts: seq<Attempt>, r: nat, run: Run, a: nat)
    requires RunOk(t, seeded, run) && RetriesOk(attempts, r, run) && HasLive(run)
    requires a < |attempts| && attempts[a].run == r && attempts[a].command == run.activity.value.command
    requires attempts[a].reply.Some?
    ensures RetriesOk(attempts, r, run.(activity := Some(AfterReport(run.activity.value, attempts[a].reply.value))))
  {
    FailureKeepsRetries(t, seeded, attempts, r, run);
    if Translate(attempts[a].reply.value).NonRetryable? {
      assert WasRefused(attempts, r, run.activity.value.command);
    }
  }

  lemma BeginKeepsRetries(attempts: seq<Attempt>, r: nat, run: Run, attempt: Attempt, live: nat)
    requires RetriesOk(attempts, r, run) && run.activity.Some? && run.activity.value.answer.None?
    requires attempt.run == r && attempt.command == run.activity.value.command
    requires attempt.number == run.activity.value.tries + 1
    ensures
      var activity := run.activity.value.(tries := attempt.number, live := Some(live));
      RetriesOk(attempts + [attempt], r, run.(activity := Some(activity)))
  {
    var later := attempts + [attempt];
    RetriesOkIsStable(attempts, later, r, run);
    assert later[|attempts|] == attempt;
    assert Tried(later, r, attempt.command, attempt.number);
  }

  lemma OwnStepKeepsRetries(g: System, seeded: set<nat>, step: Step, r: nat)
    requires Inv(g, seeded) && r < |g.runs| && RetriesOk(g.attempts, r, g.runs[r]) && OwnStep(step, r)
    ensures r < |Next(g, step).runs| && RetriesOk(Next(g, step).attempts, r, Next(g, step).runs[r])
  {
    var run := g.runs[r];
    assert RunOk(g.tables, seeded, run);
    if Next(g, step) != g {
      match step
      case WorkflowTask(_, taken, answered) => TaskKeepsRetries(g.tables, seeded, g.attempts, r, run, taken, answered);
      case GiveUp(_) => FailureKeepsRetries(g.tables, seeded, g.attempts, r, run);
      case Report(_) =>
        assert LiveOk(g.runs, g.attempts);
        ReportKeepsRetries(g.tables, seeded, g.attempts, r, run, run.activity.value.live.value);
      case BeginAttempt(_) =>
        BeginKeepsRetries(g.attempts, r, run, Next(g, step).attempts[|g.attempts|], |g.attempts|);
    }
  }

  lemma OtherStepKeepsRetries(g: System, step: Step, r: nat)
    requires r < |g.runs| && RetriesOk(g.attempts, r, g.runs[r]) && !OwnStep(step, r)
    ensures r < |Next(g, step).runs| && RetriesOk(Next(g, step).attempts, r, Next(g, step).runs[r])
  {
    NextRemembers(g, step);
    OtherStepKeepsMachine(g, step, r);
    RetriesOkIsStable(g.attempts, Next(g, step).attempts, r, g.runs[r]);
  }

  lemma OtherStepKeepsMachine(g: System, step: Step, r: nat)
    requires r < |g.runs| && !OwnStep(step, r)
    ensures r < |Next(g, step).runs|
    ensures Next(g, step).runs[r].machine == g.runs[r].machine && Next(g, step).runs[r].activity == g.runs[r].activity
  {
  }

  ghost predicate AllRetriesOk(g: System)
  {
    forall r: nat | r < |g.runs| :: RetriesOk(g.attempts, r, g.runs[r])
  }

  lemma StepKeepsRetries(g: System, seeded: set<nat>, step: Step)
    requires Inv(g, seeded) && AllRetriesOk(g)
    ensures AllRetriesOk(Next(g, step))
  {
    var g' := Next(g, step);
    forall r: nat | r < |g'.runs|
      ensures RetriesOk(g'.attempts, r, g'.runs[r])
    {
      if r >= |g.runs| {
        NewRunsAreFresh(g, step, r);
      } else if OwnStep(step, r) {
        OwnStepKeepsRetries(g, seeded, step, r);
      } else {
        OtherStepKeepsRetries(g, step, r);
      }
    }
  }

  lemma NewRunsAreFresh(g: System, step: Step, r: nat)
    requires |g.runs| <= r < |Next(g, step).runs|
    ensures Next(g, step).runs[r].activity.None? && Progress(Next(g, step).runs[r].machine) == 0
  {
  }

  lemma {:induction false} AfterKeepsRetries(g: System, seeded: set<nat>, trace: seq<Step>)
    requires Inv(g, seeded) && AllRetriesOk(g)
    ensures AllRetriesOk(After(g, trace))
  {
    if trace != [] {
      var front := trace[..|trace| - 1];
      AfterKeepsRetries(g, seeded, front);
      AfterKeepsInv(g, front, seeded);
      StepKeepsRetries(After(g, front), seeded, trace[|trace| - 1]);
    }
  }

  /** What becomes of an activity when its live attempt reports. A missing order and one that is not delivered are
      errors that no attempt follows; after a database error one follows, unless it was the third; every other reply is
      the activity's answer. */
  lemma ReportDecides(g: System, r: nat, a: nat, reply: Reply)
    requires r < |g.runs| && HasLive(g.runs[r]) && g.runs[r].activity.value.live == Some(a)
    requires a < |g.attempts| && g.attempts[a].reply == Some(reply)
    ensures r < |Next(g, Report(r)).runs| && Next(g, Report(r)).runs[r].activity.Some?
    ensures
      var before, after := g.runs[r].activity.value, Next(g, Report(r)).runs[r].activity.value;
      && after.live == None
      && match reply
         case LoadReply(None) => after.answer == Some(ActivityFailed)
         case RefundReply(None) => after.answer == Some(ActivityFailed)
         case LoadReply(Some(order)) => after.answer == Some(Loaded(order))
         case RefundReply(Some(refund)) =>
           after.answer ==
             Some(if refund.reason == Some(RefundReason.OrderNotDelivered) then ActivityFailed
                  else Answer.Executed(refund))
         case CancelReply(result) => after.answer == Some(CancelAnswer(result))
         case Raised => after.answer == if before.tries < 3 then before.answer else Some(ActivityFailed)
  {
  }

  /** The reply to a load that finds no order of the requester. */
  predicate FoundNoOrder(attempts: seq<Attempt>, r: nat)
  {
    exists a :: 0 <= a < |attempts|
      && attempts[a].run == r && attempts[a].command == ScheduleLoad && attempts[a].reply == Some(LoadReply(None))
  }

  lemma OnlyLoadsAreRefused(g: System, seeded: set<nat>, r: nat, command: Command)
    requires Inv(g, seeded) && WasRefused(g.attempts, r, command)
    ensures command == ScheduleLoad && FoundNoOrder(g.attempts, r)
  {
    var a :| 0 <= a < |g.attempts|
      && g.attempts[a].run == r && g.attempts[a].command == command
      && g.attempts[a].reply.Some? && Translate(g.attempts[a].reply.value).NonRetryable?;
    assert AttemptOk(g.tables, seeded, g.runs, g.attempts[a]);
    assert g.attempts[a].reply == Some(LoadReply(None));
  }

  /** A run is FAILED only because its load found no order of the requester, or because one of its activities has been
      attempted three times. So a single lost acknowledgement, timeout or database error never makes a run fail. */
  lemma FailsOnlyWhenExhausted(t: Tables, g: System, r: nat)
    requires Possible(t, g) && r < |g.runs|
    ensures
      match g.runs[r].machine
      case RefundMachine(w) =>
        w.state.Failed? ==>
          || FoundNoOrder(g.attempts, r)
          || TriedUpTo(g.attempts, r, ScheduleLoad, 3)
          || TriedUpTo(g.attempts, r, ScheduleExecute, 3)
      case CancelMachine(s) => s.CancelFailed? ==> TriedUpTo(g.attempts, r, ScheduleCancel, 3)
  {
    InitialIsConsistent(t);
    var trace :| After(Begin(t), trace) == g;
    AfterKeepsRetries(Begin(t), SeededRefunds(t), trace);
    PossibleIsOk(t, g);
    FailureIsExplained(g, SeededRefunds(t), r);
  }

  lemma FailureIsExplained(g: System, seeded: set<nat>, r: nat)
    requires Inv(g, seeded) && AllRetriesOk(g) && r < |g.runs|
    ensures
      match g.runs[r].machine
      case RefundMachine(w) =>
        w.state.Failed? ==>
          || FoundNoOrder(g.attempts, r)
          || TriedUpTo(g.attempts, r, ScheduleLoad, 3)
          || TriedUpTo(g.attempts, r, ScheduleExecute, 3)
      case CancelMachine(s) => s.CancelFailed? ==> TriedUpTo(g.attempts, r, ScheduleCancel, 3)
  {
    assert RetriesOk(g.attempts, r, g.runs[r]);
    forall c: Command | WasRefused(g.attempts, r, c)
      ensures c == ScheduleLoad && FoundNoOrder(g.attempts, r)
    {
      OnlyLoadsAreRefused(g, seeded, r, c);
    }
  }
}
