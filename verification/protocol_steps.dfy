/** Single steps of the protocol, for going from one state to a later one that is known in full. */
module ProtocolSteps {
  import opened Base
  import opened Orders
  import opened Ledger
  import opened Workflows
  import opened Protocol
  import opened ProtocolSafety

  /** A set of states that steps do not leave. */
  ghost predicate StepClosed(states: System -> bool)
  {
    forall g, step | states(g) :: states(Next(g, step))
  }

  lemma StepTo(states: System -> bool, g: System, step: Step, h: System)
    requires StepClosed(states) && states(g) && h == Next(g, step)
    ensures states(h)
  {
  }

  function SetRun(g: System, r: nat, run: Run): (g': System)
    requires r < |g.runs|
  {
    g.(runs := g.runs[r := run])
  }

  lemma TaskTo(states: System -> bool, g: System, r: nat, taken: nat, answered: bool, h: System)
    requires StepClosed(states) && states(g) && r < |g.runs| && TaskEnabled(g.runs[r], taken, answered)
    requires h == SetRun(g, r, AfterTask(g.runs[r], taken, answered))
    ensures states(h)
  {
    StepTo(states, g, WorkflowTask(r, taken, answered), h);
  }

  lemma ReportTo(states: System -> bool, g: System, r: nat, reply: Reply, h: System)
    requires StepClosed(states) && states(g) && r < |g.runs| && HasLive(g.runs[r])
    requires g.runs[r].activity.value.live.value < |g.attempts|
    requires g.attempts[g.runs[r].activity.value.live.value].reply == Some(reply)
    requires h == SetActivity(g, r, AfterReport(g.runs[r].activity.value, reply))
    ensures states(h)
  {
    StepTo(states, g, Report(r), h);
  }

  lemma GiveUpTo(states: System -> bool, g: System, r: nat, h: System)
    requires StepClosed(states) && states(g) && r < |g.runs| && HasLive(g.runs[r])
    requires h == SetActivity(g, r, AfterFailure(g.runs[r].activity.value))
    ensures states(h)
  {
    StepTo(states, g, GiveUp(r), h);
  }

  lemma TransactIs(g: System, a: nat)
    requires a < |g.attempts| && g.attempts[a].reply.None?
    ensures Next(g, Transact(a, true)).tables == Atomic(g.tables, g.attempts[a].call).0
    ensures Next(g, Transact(a, true)).runs == g.runs
  {
  }

  lemma TransactTo(states: System -> bool, g: System, a: nat, reply: Reply, h: System)
    requires StepClosed(states) && states(g) && a < |g.attempts| && g.attempts[a].reply.None?
    requires Atomic(g.tables, g.attempts[a].call) == (g.tables, reply)
    requires h == g.(attempts := g.attempts[a := g.attempts[a].(reply := Some(reply))])
    ensures states(h)
  {
    StepTo(states, g, Transact(a, true), h);
  }

  lemma StepIsPossible(t: Tables, g: System, step: Step)
    requires Possible(t, g)
    ensures Possible(t, Next(g, step))
  {
    var trace :| After(Begin(t), trace) == g;
    AfterSnoc(Begin(t), trace, step);
    assert After(Begin(t), trace + [step]) == Next(g, step);
  }

  lemma PossibleIsClosed(t: Tables)
    ensures StepClosed(g => Possible(t, g))
    ensures Initial(t) ==> Possible(t, Begin(t))
  {
    forall g, step | Possible(t, g)
      ensures Possible(t, Next(g, step))
    {
      StepIsPossible(t, g, step);
    }
    assert After(Begin(t), []) == Begin(t);
  }
}
