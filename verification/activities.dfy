/** The activities, which run a transaction against the database and translate what it returns, and the workflow
    service's table of runs. */
module Activities {
  import opened Base
  import opened Orders
  import opened Workflows
  import opened Identifiers
  import opened Protocol
  import opened Database

  method CancelOrderActivity(db: Database, input: Input) returns (v: Verdict)
    modifies db
    ensures Atomic(old(db.Rows()), CallFor(ScheduleCancel, input)).0 == db.Rows()
    ensures v == Translate(Atomic(old(db.Rows()), CallFor(ScheduleCancel, input)).1)
  {
    var result := db.CancelOrderRow(input.n, input.requestedBy);
    v := Success(CancelAnswer(result));
  }

  method LoadRefundOrderActivity(db: Database, input: Input) returns (v: Verdict)
    ensures v == Translate(Atomic(db.Rows(), CallFor(ScheduleLoad, input)).1)
  {
    var row := db.GetRefundOrderRow(input.n, input.requestedBy);
    if row.None? {
      return NonRetryable;
    }
    v := Success(Loaded(row.value));
  }

  method ExecuteRefundActivity(db: Database, input: Input) returns (v: Verdict)
    modifies db
    ensures Atomic(old(db.Rows()), CallFor(ScheduleExecute, input)).0 == db.Rows()
    ensures v == Translate(Atomic(old(db.Rows()), CallFor(ScheduleExecute, input)).1)
  {
    var reply := db.RefundOrderRow(input.n, input.requestedBy, input.reason, IdempotencyKey(input.n));
    if reply.Raised? {
      return Retryable;
    }
    var result := reply.refund;
    if result.None? || result.value.reason == Some(RefundReason.OrderNotDelivered) {
      return NonRetryable;
    }
    v := Success(Answer.Executed(result.value));
  }

  class WorkflowService {
    var runs: seq<Run>

    constructor ()
      ensures runs == []
    {
      runs := [];
    }

    /** The service looks for an open run with the id. */
    method Lookup(id: string) returns (r: Option<nat>)
      ensures r == FindOpen(runs, id)
    {
      var i := |runs|;
      assert runs[..i] == runs;
      while i > 0
        invariant 0 <= i <= |runs|
        invariant FindOpen(runs[..i], id) == FindOpen(runs, id)
      {
        i := i - 1;
        assert runs[..i + 1][..i] == runs[..i];
        if Open(runs[i]) && runs[i].id == id {
          return Some(i);
        }
      }
      r := None;
    }

    /** `_start_workflow`: an open run is used, a closed one does not stand in the way of a new one. */
    method StartWorkflow(kind: Kind, input: Input) returns (id: string)
      modifies this
      ensures id == WorkflowId(kind, input.n)
      ensures forall g: System | g.runs == old(runs) :: Next(g, StartRun(kind, input)) == g.(runs := runs)
    {
      id := WorkflowId(kind, input.n);
      var existing := Lookup(id);
      if existing.None? {
        runs := runs + [NewRun(kind, input)];
      }
    }

    /** `approve_refund`; false when the id has no open run, which the service reports as an error. */
    method ApproveRefund(id: string, approval: Approval) returns (ok: bool)
      modifies this
      ensures ok <==> FindOpen(old(runs), id).Some?
      ensures forall g: System | g.runs == old(runs) :: Next(g, Signal(id, approval)) == g.(runs := runs)
    {
      var run := Lookup(id);
      ok := run.Some?;
      if ok {
        runs := runs[run.value := runs[run.value].(inbox := runs[run.value].inbox + [approval])];
      }
    }
  }
}
