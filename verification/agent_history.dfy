/** What a turn of the agent graph leaves in its history, told from the messages alone: who was asked and what came of
    it, and which calls were executed. */
module AgentHistory {
  import opened Base
  import opened AgentGraph

  // ---- Which calls are executed ----

  /** A call of a message in the history. */
  datatype Place = Place(message: nat, call: nat)

  /** There is a message with readable calls only, its results follow it directly, and one of its calls is here, of one
      of these tools. */
  predicate Runs(m: seq<Message>, tools: seq<string>, p: Place)
  {
    && p.message + 1 < |m| && m[p.message].Ai? && m[p.message].ai.malformed == []
    && m[p.message + 1].ToolResult?
    && p.call < |m[p.message].ai.calls| && m[p.message].ai.calls[p.call].name in tools
  }

  predicate Before(p: Place, q: Place)
  {
    p.message < q.message || (p.message == q.message && p.call < q.call)
  }

  /** What is executed are the calls at these places: one execution for each of them, in the order of the messages and
      of the calls in a message. */
  ghost predicate ExecutedAt(m: seq<Message>, tools: seq<string>, userId: string, executed: seq<Execution>,
        places: seq<Place>)
  {
    && |places| == |executed|
    && (forall x | 0 <= x < |places| ::
          && Runs(m, tools, places[x])
          && var call := m[places[x].message].ai.calls[places[x].call];
             executed[x] == Execution(call.name, call.arguments, userId))
    && (forall x, y | 0 <= x < y < |places| :: Before(places[x], places[y]))
    && (forall p | Runs(m, tools, p) :: p in places)
  }

  /** The executions of one answered message. */
  ghost predicate CallsAt(calls: seq<ToolCall>, tools: seq<string>, userId: string, executed: seq<Execution>,
        at: seq<nat>)
  {
    && |at| == |executed|
    && (forall x | 0 <= x < |at| ::
          && at[x] < |calls| && calls[at[x]].name in tools
          && executed[x] == Execution(calls[at[x]].name, calls[at[x]].arguments, userId))
    && (forall x, y | 0 <= x < y < |at| :: at[x] < at[y])
    && (forall i: nat | i < |calls| && calls[i].name in tools :: i in at)
  }

  lemma SkipLast(front: seq<ToolCall>, last: ToolCall, tools: seq<string>, userId: string, executed: seq<Execution>,
        at: seq<nat>)
    requires CallsAt(front, tools, userId, executed, at) && last.name !in tools
    ensures CallsAt(front + [last], tools, userId, executed, at)
  {
    var calls := front + [last];
    assert calls[|front|] == last && forall i | 0 <= i < |front| :: calls[i] == front[i];
  }

  lemma LastRuns(front: seq<ToolCall>, last: ToolCall, tools: seq<string>, userId: string, executed: seq<Execution>,
        at: seq<nat>)
    requires CallsAt(front, tools, userId, executed, at) && last.name in tools
    ensures CallsAt(front + [last], tools, userId, executed + [Execution(last.name, last.arguments, userId)],
              at + [|front|])
  {
    var calls, all := front + [last], at + [|front|];
    assert calls[|front|] == last && forall i | 0 <= i < |front| :: calls[i] == front[i];
    assert all[|at|] == |front| && forall i | i in at :: i in all;
  }

  lemma {:induction false} CallsAreExecuted(userId: string, name: AgentName, calls: seq<ToolCall>)
    returns (at: seq<nat>)
    ensures CallsAt(calls, ToolsOf(name), userId, Executions(userId, name, calls), at)
  {
    if calls == [] {
      at := [];
    } else {
      var front, last := calls[..|calls| - 1], calls[|calls| - 1];
      assert calls == front + [last];
      at := CallsAreExecuted(userId, name, front);
      if last.name in ToolsOf(name) {
        LastRuns(front, last, ToolsOf(name), userId, Executions(userId, name, front), at);
        at := at + [|front|];
      } else {
        SkipLast(front, last, ToolsOf(name), userId, Executions(userId, name, front), at);
      }
    }
  }

  function InFirst(at: seq<nat>): (places: seq<Place>)
    ensures |places| == |at| && forall x | 0 <= x < |at| :: places[x] == Place(0, at[x])
  {
    seq(|at|, x requires 0 <= x < |at| => Place(0, at[x]))
  }

  function Later(places: seq<Place>): (later: seq<Place>)
    ensures |later| == |places|
    ensures forall x | 0 <= x < |places| :: later[x] == Place(places[x].message + 1, places[x].call)
  {
    seq(|places|, x requires 0 <= x < |places| => Place(places[x].message + 1, places[x].call))
  }

  lemma RunsLater(m: seq<Message>, tools: seq<string>, p: Place)
    requires m != []
    ensures Runs(m, tools, Place(p.message + 1, p.call)) <==> Runs(m[1..], tools, p)
  {
    assert p.message + 1 < |m| ==> m[1..][p.message] == m[p.message + 1];
  }

  /** What the first message executes. */
  ghost predicate FirstAt(m: seq<Message>, tools: seq<string>, userId: string, first: seq<Execution>, at: seq<nat>)
  {
    && |at| == |first|
    && (forall x | 0 <= x < |at| ::
          && Runs(m, tools, Place(0, at[x]))
          && first[x] == Execution(m[0].ai.calls[at[x]].name, m[0].ai.calls[at[x]].arguments, userId))
    && (forall x, y | 0 <= x < y < |at| :: at[x] < at[y])
    && (forall i: nat | Runs(m, tools, Place(0, i)) :: i in at)
  }

  lemma AllAreThere(m: seq<Message>, tools: seq<string>, at: seq<nat>, rest: seq<Place>, p: Place)
    requires m != [] && Runs(m, tools, p)
    requires forall i: nat | Runs(m, tools, Place(0, i)) :: i in at
    requires forall q | Runs(m[1..], tools, q) :: q in rest
    ensures p in InFirst(at) + Later(rest)
  {
    var places := InFirst(at) + Later(rest);
    assert p == Place(p.message, p.call);
    if p.message == 0 {
      var x :| 0 <= x < |at| && at[x] == p.call;
      assert places[x] == p;
    } else {
      var q := Place(p.message - 1, p.call);
      RunsLater(m, tools, q);
      var x :| 0 <= x < |rest| && rest[x] == q;
      assert places[|at| + x] == p;
    }
  }

  lemma ExecutedThere(m: seq<Message>, tools: seq<string>, userId: string, executed: seq<Execution>, rest: seq<Place>,
        x: nat)
    requires m != [] && ExecutedAt(m[1..], tools, userId, executed, rest) && x < |rest|
    ensures
      var p := Later(rest)[x];
      && Runs(m, tools, p)
      && executed[x] == Execution(m[p.message].ai.calls[p.call].name, m[p.message].ai.calls[p.call].arguments, userId)
  {
    RunsLater(m, tools, rest[x]);
  }

  lemma InOrder(at: seq<nat>, rest: seq<Place>)
    requires forall x, y | 0 <= x < y < |at| :: at[x] < at[y]
    requires forall x, y | 0 <= x < y < |rest| :: Before(rest[x], rest[y])
    ensures
      var places := InFirst(at) + Later(rest);
      forall x, y | 0 <= x < y < |places| :: Before(places[x], places[y])
  {
    var places := InFirst(at) + Later(rest);
    forall x, y | 0 <= x < y < |places|
      ensures Before(places[x], places[y])
    {
      if x >= |at| {
        assert Before(rest[x - |at|], rest[y - |at|]);
      }
    }
  }

  lemma FirstThenRest(m: seq<Message>, tools: seq<string>, userId: string, first: seq<Execution>, at: seq<nat>,
        executed: seq<Execution>, rest: seq<Place>)
    requires m != [] && FirstAt(m, tools, userId, first, at) && ExecutedAt(m[1..], tools, userId, executed, rest)
    ensures ExecutedAt(m, tools, userId, first + executed, InFirst(at) + Later(rest))
  {
    var places := InFirst(at) + Later(rest);
    InOrder(at, rest);
    forall p | Runs(m, tools, p)
      ensures p in places
    {
      AllAreThere(m, tools, at, rest, p);
    }
    forall x | 0 <= x < |places|
      ensures
        var p := places[x];
        && Runs(m, tools, p)
        && (first + executed)[x]
          == Execution(m[p.message].ai.calls[p.call].name, m[p.message].ai.calls[p.call].arguments, userId)
    {
      if x >= |at| {
        ExecutedThere(m, tools, userId, executed, rest, x - |at|);
      }
    }
  }

  lemma {:induction false} AuditAtPlaces(m: seq<Message>, userId: string, name: AgentName) returns (places: seq<Place>)
    ensures ExecutedAt(m, ToolsOf(name), userId, Audit(m, userId, name), places)
  {
    if m == [] {
      places := [];
    } else {
      var rest := AuditAtPlaces(m[1..], userId, name);
      var at: seq<nat>, first: seq<Execution> := [], [];
      if m[0].Ai? && m[0].ai.malformed == [] && m[0].ai.calls != [] && |m| >= 2 && m[1].ToolResult? {
        first := Executions(userId, name, m[0].ai.calls);
        at := CallsAreExecuted(userId, name, m[0].ai.calls);
        AnsweredFirst(m, ToolsOf(name), userId, first, at);
      } else {
        SilentFirst(m, ToolsOf(name), userId);
      }
      places := InFirst(at) + Later(rest);
      FirstThenRest(m, ToolsOf(name), userId, first, at, Audit(m[1..], userId, name), rest);
      assert first + Audit(m[1..], userId, name) == Audit(m, userId, name);
    }
  }

  lemma AnsweredFirst(m: seq<Message>, tools: seq<string>, userId: string, first: seq<Execution>, at: seq<nat>)
    requires |m| >= 2 && m[0].Ai? && m[0].ai.malformed == [] && m[1].ToolResult?
    requires CallsAt(m[0].ai.calls, tools, userId, first, at)
    ensures FirstAt(m, tools, userId, first, at)
  {
  }

  lemma SilentFirst(m: seq<Message>, tools: seq<string>, userId: string)
    requires !(|m| >= 2 && m[0].Ai? && m[0].ai.malformed == [] && m[0].ai.calls != [] && m[1].ToolResult?)
    ensures FirstAt(m, tools, userId, [], [])
  {
  }

  /** The tools that a handoff gives access to. */
  function ToolsBehind(handoff: string): (tools: seq<string>)
  {
    if handoff == "delegate_to_order_tracking" then ["get_order_status", "save_user_preference", "get_user_preferences"]
    else if handoff == "delegate_to_order_actions" then ["cancel_order", "request_refund"]
    else if handoff == "delegate_to_infrastructure" then ["get_platform_health"]
    else []
  }

  /** The tools that a turn may use: those behind the handoff, if the supervisor's answer is one readable call. */
  function ToolsOfTurn(answer: Option<AiMessage>): (tools: seq<string>)
  {
    if answer.Some? && answer.value.malformed == [] && |answer.value.calls| == 1
    then ToolsBehind(answer.value.calls[0].name) else []
  }

  lemma ToolsOfChosen(o: Oracle, st: State)
    ensures ToolsOfTurn(o.supervisor(st)) == match Chosen(o, st) case None => [] case Some(name) => ToolsOf(name)
  {
  }

  /** What a turn executes, for every adversary: exactly the calls that its history shows in messages that are readable
      and answered and whose tool is behind the handoff of the supervisor; with the arguments of the call; for the user
      of the turn; once each; and in their order. */
  lemma ExecutedCalls(max: nat, o: Oracle, st: State, userId: string, text: string)
    returns (added: seq<Message>, places: seq<Place>)
    ensures
      var tools := ToolsOfTurn(o.supervisor(State(st.messages + [Human(text)], 0, userId, st.active)));
      var t := RunTurn(max, o, st, userId, text);
      && t.state.messages == st.messages + [Human(text)] + added
      && ExecutedAt(added, tools, userId, t.executed, places)
  {
    var start := State(st.messages + [Human(text)], 0, userId, st.active);
    var name: AgentName;
    added, name := SupervisorRuns(max, o, start);
    ToolsOfChosen(o, start);
    match Chosen(o, start)
    case Some(chosen) =>
      places := AuditAtPlaces(added, userId, name);
    case None =>
      places := [];
      assert forall p :: !Runs(added, [], p);
  }

  /** One execution: it takes place exactly if such a call is in the history. */
  lemma ExecutedExactlyIf(max: nat, o: Oracle, st: State, userId: string, text: string, e: Execution)
    returns (added: seq<Message>)
    ensures
      var tools := ToolsOfTurn(o.supervisor(State(st.messages + [Human(text)], 0, userId, st.active)));
      var t := RunTurn(max, o, st, userId, text);
      && t.state.messages == st.messages + [Human(text)] + added
      && (e in t.executed <==>
            && e.userId == userId
            && exists p :: Runs(added, tools, p) && added[p.message].ai.calls[p.call].name == e.name
                 && added[p.message].ai.calls[p.call].arguments == e.arguments)
  {
    var places: seq<Place>;
    added, places := ExecutedCalls(max, o, st, userId, text);
    var executed := RunTurn(max, o, st, userId, text).executed;
    var tools := ToolsOfTurn(o.supervisor(State(st.messages + [Human(text)], 0, userId, st.active)));
    if e in executed {
      var x :| 0 <= x < |executed| && executed[x] == e;
      assert Runs(added, tools, places[x]);
    }
    forall p | Runs(added, tools, p) && e == Execution(added[p.message].ai.calls[p.call].name,
                                                       added[p.message].ai.calls[p.call].arguments, userId)
      ensures e in executed
    {
      var x :| 0 <= x < |places| && places[x] == p;
      assert executed[x] == e;
    }
  }

  // ---- Who is asked, and what follows ----

  /** The specialist is asked with a history, and this is its answer. */
  datatype Round = Round(history: seq<Message>, answer: AiMessage)

  /** The calls of an answer are answered in turn, each with what its tool makes of it after this answer. */
  ghost predicate ToolsAnswer(o: Oracle, r: Round, after: State)
  {
    var n, calls := |r.history|, r.answer.calls;
    && |after.messages| == n + 1 + |calls|
    && after.messages[..n + 1] == r.history + [Ai(r.answer)]
    && forall i | 0 <= i < |calls| :: after.messages[n + 1 + i]
         == ToolResult(calls[i].id, o.result(after.(messages := r.history + [Ai(r.answer)]), calls[i]))
  }

  /** The specialist is asked again: its answer had calls only, all of them readable, and was within the limit. */
  predicate GoesOn(max: nat, asked: nat, answer: AiMessage)
  {
    answer.malformed == [] && answer.calls != [] && asked < max
  }

  /** The messages that an answer closes the turn with. */
  function Closing(answer: AiMessage): (closing: seq<Message>)
  {
    if answer.malformed != [] then
      [Ai(AiMessage("I couldn't understand the requested action. Please try again.", [], []))]
    else if answer.calls != [] then
      [Ai(AiMessage("I couldn't complete this request within the allowed number of steps.", [], []))]
    else []
  }

  /** What the specialist finds when it is asked for the `k`-th time, from 0, or what a failed turn leaves. */
  function Asked(st: State, rounds: seq<Round>, last: seq<Message>, k: nat): (s: State)
    requires k <= |rounds|
  {
    st.(messages := if k < |rounds| then rounds[k].history else last, iterations := st.iterations + k)
  }

  /** The specialist's part of a turn, from the state in which it is first asked: every answer is its answer to the
      state at that time, every answer but the last is followed by the results of its calls, and the last one ends the
      turn, with a closing message if it has calls; or the model fails, and all is left as it was. */
  ghost predicate Dialogue(max: nat, o: Oracle, name: AgentName, st: State, rounds: seq<Round>, t: Turn)
  {
    var last := t.state.messages;
    && Asked(st, rounds, last, 0).messages == st.messages
    && (forall k | 0 <= k < |rounds| :: o.specialist(name, Asked(st, rounds, last, k)) == Some(rounds[k].answer))
    && (forall k | 0 <= k < |rounds| && (k + 1 < |rounds| || t.failed) ::
          GoesOn(max, st.iterations + k + 1, rounds[k].answer)
          && ToolsAnswer(o, rounds[k], Asked(st, rounds, last, k + 1)))
    && t.state == st.(messages := last, iterations := st.iterations + |rounds|)
    && (t.failed ==> o.specialist(name, t.state) == None)
    && (!t.failed ==>
          && rounds != []
          && var r := rounds[|rounds| - 1];
             !GoesOn(max, t.state.iterations, r.answer) && last == r.history + [Ai(r.answer)] + Closing(r.answer))
  }

  lemma LaterAsked(st: State, first: Round, st2: State, rest: seq<Round>, last: seq<Message>, k: nat)
    requires k <= |rest| && st2 == st.(messages := st2.messages, iterations := st.iterations + 1)
    ensures Asked(st, [first] + rest, last, k + 1) == Asked(st2, rest, last, k)
  {
  }

  /** A round in front of a dialogue. */
  lemma RoundFirst(max: nat, o: Oracle, name: AgentName, st: State, first: Round, st2: State, rest: seq<Round>,
        t2: Turn, t: Turn)
    requires first.history == st.messages && o.specialist(name, st) == Some(first.answer)
    requires GoesOn(max, st.iterations + 1, first.answer) && ToolsAnswer(o, first, st2)
    requires st2 == st.(messages := st2.messages, iterations := st.iterations + 1)
    requires Dialogue(max, o, name, st2, rest, t2) && t.state == t2.state && t.failed == t2.failed
    ensures Dialogue(max, o, name, st, [first] + rest, t)
  {
    var rounds, last := [first] + rest, t.state.messages;
    assert Asked(st, rounds, last, 0) == st;
    LaterAsked(st, first, st2, rest, last, 0);
    assert Asked(st2, rest, last, 0) == st2;
    forall k | 0 <= k < |rounds|
      ensures o.specialist(name, Asked(st, rounds, last, k)) == Some(rounds[k].answer)
    {
      if k > 0 {
        LaterAsked(st, first, st2, rest, last, k - 1);
      }
    }
    forall k | 0 <= k < |rounds| && (k + 1 < |rounds| || t.failed)
      ensures GoesOn(max, st.iterations + k + 1, rounds[k].answer)
      ensures ToolsAnswer(o, rounds[k], Asked(st, rounds, last, k + 1))
    {
      LaterAsked(st, first, st2, rest, last, k);
      if k > 0 {
        assert GoesOn(max, st2.iterations + (k - 1) + 1, rest[k - 1].answer);
      }
    }
  }

  lemma NodeIsRun(max: nat, o: Oracle, node: Node, st: State)
    requires !node.End? && (node.Tools? ==> st.iterations < max)
    ensures
      match Advance(max, o, node, st)
      case None => RunFrom(max, o, node, st) == Turn(st, [node], [], true)
      case Some((st', next)) =>
        && (next.Tools? ==> st'.iterations < max)
        && RunFrom(max, o, node, st).state == RunFrom(max, o, next, st').state
        && RunFrom(max, o, node, st).failed == RunFrom(max, o, next, st').failed
  {
  }

  lemma LastAnswer(max: nat, o: Oracle, name: AgentName, st: State, answer: AiMessage)
    requires st.active == Some(name) && o.specialist(name, st) == Some(answer)
    requires !GoesOn(max, st.iterations + 1, answer)
    ensures Dialogue(max, o, name, st, [Round(st.messages, answer)], RunFrom(max, o, Agent(name), st))
  {
    var st1 := st.(messages := st.messages + [Ai(answer)], iterations := st.iterations + 1);
    var next := RouteSpecialist(max, st1.iterations, name, answer);
    assert Advance(max, o, Agent(name), st) == Some((st1, next));
    NodeIsRun(max, o, Agent(name), st);
    if next == End {
      assert st1.messages + [] == st1.messages;
    } else {
      ReplyEndsTurn(max, o, next, st1);
    }
  }

  lemma NextRound(max: nat, o: Oracle, name: AgentName, st: State, answer: AiMessage) returns (st2: State)
    requires st.active == Some(name) && o.specialist(name, st) == Some(answer)
    requires GoesOn(max, st.iterations + 1, answer)
    ensures st2 == st.(messages := st2.messages, iterations := st.iterations + 1)
    ensures ToolsAnswer(o, Round(st.messages, answer), st2)
    ensures RunFrom(max, o, Agent(name), st).state == RunFrom(max, o, Agent(name), st2).state
    ensures RunFrom(max, o, Agent(name), st).failed == RunFrom(max, o, Agent(name), st2).failed
  {
    var st1 := st.(messages := st.messages + [Ai(answer)], iterations := st.iterations + 1);
    st2 := st1.(messages := st1.messages + ToolResults(o, st1, answer.calls));
    assert PendingCalls(st1) == answer.calls;
    assert Advance(max, o, Agent(name), st) == Some((st1, Tools(name)));
    NodeIsRun(max, o, Agent(name), st);
    assert Advance(max, o, Tools(name), st1) == Some((st2, Agent(name)));
    NodeIsRun(max, o, Tools(name), st1);
    assert st2.messages[..|st1.messages|] == st1.messages;
    assert st2.(messages := st1.messages) == st1;
  }

  lemma {:induction false} SpecialistDialogue(max: nat, o: Oracle, name: AgentName, st: State)
    returns (rounds: seq<Round>)
    requires st.active == Some(name)
    ensures Dialogue(max, o, name, st, rounds, RunFrom(max, o, Agent(name), st))
    decreases if st.iterations < max then max - st.iterations else 0
  {
    match o.specialist(name, st)
    case None =>
      rounds := [];
      NodeIsRun(max, o, Agent(name), st);
    case Some(answer) =>
      if GoesOn(max, st.iterations + 1, answer) {
        var st2 := NextRound(max, o, name, st, answer);
        var rest := SpecialistDialogue(max, o, name, st2);
        rounds := [Round(st.messages, answer)] + rest;
        RoundFirst(max, o, name, st, Round(st.messages, answer), st2, rest, RunFrom(max, o, Agent(name), st2),
          RunFrom(max, o, Agent(name), st));
      } else {
        rounds := [Round(st.messages, answer)];
        LastAnswer(max, o, name, st, answer);
      }
  }

  /** The specialist behind a handoff. */
  function AgentBehind(handoff: string): (name: Option<AgentName>)
  {
    if handoff == "delegate_to_order_tracking" then Some(OrderTracking)
    else if handoff == "delegate_to_order_actions" then Some(OrderActions)
    else if handoff == "delegate_to_infrastructure" then Some(Infrastructure)
    else None
  }

  /** A whole turn, for every adversary: the message is put into the history, the supervisor is asked, and if its answer
      is one readable call of a handoff, that specialist is asked until it is done; any other answer is closed with the
      message for invalid calls; and a supervisor that fails leaves the message alone. */
  lemma TurnIsDialogue(max: nat, o: Oracle, st: State, userId: string, text: string) returns (rounds: seq<Round>)
    ensures
      var start := State(st.messages + [Human(text)], 0, userId, st.active);
      var t := RunTurn(max, o, st, userId, text);
      match o.supervisor(start)
      case None => t.failed && t.state == start
      case Some(answer) =>
        if answer.malformed == [] && |answer.calls| == 1 && AgentBehind(answer.calls[0].name).Some? then
          var name := AgentBehind(answer.calls[0].name).value;
          Dialogue(max, o, name, start.(active := Some(name)), rounds, t)
        else
          !t.failed && t.state == start.(active := None, messages := start.messages +
            [Ai(AiMessage("I couldn't understand the requested action. Please try again.", [], []))])
  {
    rounds := [];
    var start := State(st.messages + [Human(text)], 0, userId, st.active);
    NodeIsRun(max, o, Supervisor, start);
    match Chosen(o, start)
    case None =>
      NobodyRuns(max, o, start);
    case Some(name) =>
      rounds := SpecialistDialogue(max, o, name, start.(active := Some(name)));
      SameDialogue(max, o, name, start.(active := Some(name)), rounds,
        RunFrom(max, o, Agent(name), start.(active := Some(name))), RunFrom(max, o, Supervisor, start));
  }

  lemma SameDialogue(max: nat, o: Oracle, name: AgentName, st: State, rounds: seq<Round>, t: Turn, t2: Turn)
    requires Dialogue(max, o, name, st, rounds, t) && t2.state == t.state && t2.failed == t.failed
    ensures Dialogue(max, o, name, st, rounds, t2)
  {
  }
}
