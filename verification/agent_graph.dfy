/** The agent graph: a supervisor, three specialists with their tool nodes, and two fixed closing messages. The models
    are an adversary: `Oracle` answers every node with anything it likes, or fails. */
module AgentGraph {
  import opened Base

  datatype AgentName = OrderTracking | OrderActions | Infrastructure

  datatype ToolCall = ToolCall(id: string, name: string, arguments: string)

  /** A model's message; `malformed` are the calls that the client could not parse (`invalid_tool_calls`). */
  datatype AiMessage = AiMessage(content: string, calls: seq<ToolCall>, malformed: seq<string>)

  datatype Message = Human(content: string) | Ai(ai: AiMessage) | ToolResult(callId: string, content: string)

  /** `active` is `None` for the value "invalid". */
  datatype State = State(messages: seq<Message>, iterations: nat, userId: string, active: Option<AgentName>)

  datatype Node = Supervisor | Agent(name: AgentName) | Tools(name: AgentName) | Limit | Invalid | End

  const ITERATION_LIMIT_MESSAGE := "I couldn't complete this request within the allowed number of steps."
  const INVALID_TOOL_CALL_MESSAGE := "I couldn't understand the requested action. Please try again."
  const LIMIT_REPLY := Ai(AiMessage(ITERATION_LIMIT_MESSAGE, [], []))
  const INVALID_REPLY := Ai(AiMessage(INVALID_TOOL_CALL_MESSAGE, [], []))

  /** `SPECIALIST_TOOLS`. */
  function ToolsOf(name: AgentName): (tools: seq<string>)
  {
    match name
    case OrderTracking => ["get_order_status", "save_user_preference", "get_user_preferences"]
    case OrderActions => ["cancel_order", "request_refund"]
    case Infrastructure => ["get_platform_health"]
  }

  /** `HANDOFF_AGENT_BY_TOOL`. */
  function HandoffAgent(tool: string): (name: Option<AgentName>)
  {
    if tool == "delegate_to_order_tracking" then Some(OrderTracking)
    else if tool == "delegate_to_order_actions" then Some(OrderActions)
    else if tool == "delegate_to_infrastructure" then Some(Infrastructure)
    else None
  }

  /** A model's answer to a state: its calls, unreadable calls and text, or `None` when the model fails. `result` is
      what a tool makes of a call, an error message included. */
  datatype Oracle = Oracle(
    supervisor: State -> Option<AiMessage>,
    specialist: (AgentName, State) -> Option<AiMessage>,
    result: (State, ToolCall) -> string)

  /** A tool execution, with the user id that is injected from the state. */
  datatype Execution = Execution(name: string, arguments: string, userId: string)

  /** `call_supervisor`: exactly one readable call, of a handoff tool, selects an agent. */
  function SelectAgent(response: AiMessage): (name: Option<AgentName>)
  {
    if response.malformed == [] && |response.calls| == 1
    then HandoffAgent(response.calls[0].name) else None
  }

  /** `route_supervisor`. */
  function RouteSupervisor(st: State): (next: Node)
  {
    match st.active
    case Some(name) => Agent(name)
    case None => Invalid
  }

  /** `route_specialist_output`, for any value of `MAX_AGENT_ITERATIONS`. */
  function RouteSpecialist(max: nat, iterations: nat, name: AgentName, latest: AiMessage): (next: Node)
  {
    if latest.malformed != [] then Invalid
    else if latest.calls == [] then End
    else if iterations >= max then Limit
    else Tools(name)
  }

  /** The tool node answers every call of the last message, in order. */
  function ToolResults(o: Oracle, st: State, calls: seq<ToolCall>): (results: seq<Message>)
    ensures |results| == |calls|
    ensures forall i | 0 <= i < |calls| :: results[i].ToolResult? && results[i].callId == calls[i].id
  {
    seq(|calls|, i requires 0 <= i < |calls| => ToolResult(calls[i].id, o.result(st, calls[i])))
  }

  /** It executes those calls whose tool it has; the others get an error as their result. */
  function Executions(userId: string, name: AgentName, calls: seq<ToolCall>): (e: seq<Execution>)
  {
    if calls == [] then []
    else
      var last := calls[|calls| - 1];
      Executions(userId, name, calls[..|calls| - 1])
      + if last.name in ToolsOf(name) then [Execution(last.name, last.arguments, userId)] else []
  }

  /** What became of a turn: the state that is checkpointed, the nodes that ran, the tools that were executed, and
      whether a model failed. */
  datatype Turn = Turn(state: State, nodes: seq<Node>, executed: seq<Execution>, failed: bool)

  /** Steps that a node can still lead to; it decreases along every edge of the graph. */
  function Measure(max: nat, node: Node, iterations: nat): (m: nat)
  {
    var left := if iterations < max then max - iterations else 0;
    match node
    case Supervisor => 2 * left + 3
    case Agent(_) => 2 * left + 2
    case Tools(_) => 2 * left + 3
    case Limit => 1
    case Invalid => 1
    case End => 0
  }

  function Prepend(node: Node, executed: seq<Execution>, rest: Turn): (t: Turn)
  {
    rest.(nodes := [node] + rest.nodes, executed := executed + rest.executed)
  }

  /** The calls that a tool node finds in the last message. */
  function PendingCalls(st: State): (calls: seq<ToolCall>)
  {
    if st.messages != [] && st.messages[|st.messages| - 1].Ai? then st.messages[|st.messages| - 1].ai.calls else []
  }

  /** One node: the state it leaves and the node that follows, or `None` when its model fails. */
  function Advance(max: nat, o: Oracle, node: Node, st: State): (r: Option<(State, Node)>)
  {
    match node
    case End => None
    case Limit => Some((st.(messages := st.messages + [LIMIT_REPLY]), End))
    case Invalid => Some((st.(messages := st.messages + [INVALID_REPLY]), End))
    case Supervisor =>
      (match o.supervisor(st)
       case None => None
       case Some(response) =>
         var st' := st.(active := SelectAgent(response));
         Some((st', RouteSupervisor(st'))))
    case Agent(name) =>
      (match o.specialist(name, st)
       case None => None
       case Some(response) =>
         var messages := st.messages + [Ai(response)];
         var st' := st.(messages := messages, iterations := st.iterations + 1, active := Some(name));
         Some((st', RouteSpecialist(max, st'.iterations, name, response))))
    case Tools(name) => Some((st.(messages := st.messages + ToolResults(o, st, PendingCalls(st))), Agent(name)))
  }

  /** Runs the graph from a node to its end. */
  function RunFrom(max: nat, o: Oracle, node: Node, st: State): (t: Turn)
    requires node.Tools? ==> st.iterations < max
    decreases Measure(max, node, st.iterations)
  {
    if node.End? then Turn(st, [], [], false)
    else
      match Advance(max, o, node, st)
      case None => Turn(st, [node], [], true)
      case Some((st', next)) =>
        var executed := if node.Tools? then Executions(st.userId, node.name, PendingCalls(st)) else [];
        Prepend(node, executed, RunFrom(max, o, next, st'))
  }

  /** One request: the input resets the counter and the user, and the graph starts at the supervisor. */
  function RunTurn(max: nat, o: Oracle, st: State, userId: string, text: string): (t: Turn)
  {
    RunFrom(max, o, Supervisor, State(st.messages + [Human(text)], 0, userId, st.active))
  }

  // ---- Well-formed histories ----

  /** The messages answer the calls, one result each and in order. */
  predicate Answer(calls: seq<ToolCall>, results: seq<Message>)
  {
    |results| == |calls| && forall i | 0 <= i < |calls| :: results[i].ToolResult? && results[i].callId == calls[i].id
  }

  /** Every message with a malformed call is directly followed by the invalid message; every other message with calls
      either by a result for each of them, or by the limit message; and there are no other tool results. */
  predicate WellFormed(m: seq<Message>)
  {
    if m == [] then true
    else
      match m[0]
      case Human(_) => WellFormed(m[1..])
      case ToolResult(_, _) => false
      case Ai(ai) =>
        if ai.malformed != [] then |m| >= 2 && m[1] == INVALID_REPLY && WellFormed(m[1..])
        else if ai.calls == [] then WellFormed(m[1..])
        else
          var n := 1 + |ai.calls|;
          || (|m| >= 2 && m[1] == LIMIT_REPLY && WellFormed(m[1..]))
          || (|m| >= n && Answer(ai.calls, m[1..n]) && WellFormed(m[n..]))
  }

  /** The first `n` messages belong together, the first one's closing message being the next item. */
  predicate Item(m: seq<Message>, n: nat)
  {
    && 1 <= n <= |m|
    && match m[0]
       case Human(_) => n == 1
       case ToolResult(_, _) => false
       case Ai(ai) =>
         if ai.malformed != [] then n == 1 && |m| >= 2 && m[1] == INVALID_REPLY
         else if ai.calls == [] then n == 1
         else (n == 1 && |m| >= 2 && m[1] == LIMIT_REPLY) || (n == 1 + |ai.calls| && Answer(ai.calls, m[1..n]))
  }

  lemma FirstItem(m: seq<Message>) returns (n: nat)
    requires m != [] && WellFormed(m)
    ensures Item(m, n) && WellFormed(m[n..])
  {
    n := if m[0].Ai? && m[0].ai.malformed == [] && m[0].ai.calls != []
            && !(|m| >= 2 && m[1] == LIMIT_REPLY && WellFormed(m[1..]))
         then 1 + |m[0].ai.calls| else 1;
  }

  lemma ItemAppend(a: seq<Message>, b: seq<Message>, n: nat)
    requires Item(a, n)
    ensures Item(a + b, n)
  {
    assert (a + b)[1..n] == a[1..n];
  }

  lemma {:induction false} WellFormedAppend(a: seq<Message>, b: seq<Message>)
    requires WellFormed(a) && WellFormed(b)
    ensures WellFormed(a + b)
    decreases |a|
  {
    if a == [] {
      assert a + b == b;
    } else {
      var n := FirstItem(a);
      WellFormedAppend(a[n..], b);
      assert (a + b)[n..] == a[n..] + b;
      ItemAppend(a, b, n);
    }
  }

  /** The executions that a well-formed history shows: those of the answered messages, by an agent with these tools and
      for this user. */
  function Audit(m: seq<Message>, userId: string, name: AgentName): (e: seq<Execution>)
  {
    if m == [] then []
    else if m[0].Ai? && m[0].ai.malformed == [] && m[0].ai.calls != [] && |m| >= 2 && m[1].ToolResult? then
      Executions(userId, name, m[0].ai.calls) + Audit(m[1..], userId, name)
    else Audit(m[1..], userId, name)
  }

  lemma {:induction false} AuditSkipsResults(results: seq<Message>, m: seq<Message>, userId: string, name: AgentName)
    requires forall i | 0 <= i < |results| :: results[i].ToolResult?
    ensures Audit(results + m, userId, name) == Audit(m, userId, name)
  {
    if results == [] {
      assert results + m == m;
    } else {
      assert (results + m)[1..] == results[1..] + m;
      AuditSkipsResults(results[1..], m, userId, name);
    }
  }

  function CountTools(nodes: seq<Node>): (n: nat)
  {
    if nodes == [] then 0 else (if nodes[0].Tools? then 1 else 0) + CountTools(nodes[1..])
  }

  /** Every agent and tool node belongs to this agent. */
  predicate OnlyAgent(nodes: seq<Node>, name: AgentName)
  {
    forall i | 0 <= i < |nodes| :: (nodes[i].Agent? || nodes[i].Tools?) ==> nodes[i].name == name
  }

  /** What a specialist's part of a turn does, from its first node on. */
  ghost predicate SpecialistTurn(max: nat, name: AgentName, st: State, t: Turn, added: seq<Message>)
  {
    var left := if st.iterations < max then max - st.iterations else 1;
    && t.state.messages == st.messages + added && WellFormed(added)
    && t.state.userId == st.userId
    && (t.state.active == Some(name) || (t.failed && t.state.active == st.active))
    && t.executed == Audit(added, st.userId, name)
    && OnlyAgent(t.nodes, name)
    && |t.nodes| <= 2 * left && CountTools(t.nodes) <= left - 1
  }

  lemma WellFormedRound(m: seq<Message>, response: AiMessage, results: seq<Message>, rest: seq<Message>)
    requires m == [Ai(response)] + results + rest
    requires response.malformed == [] && response.calls != [] && Answer(response.calls, results) && WellFormed(rest)
    ensures WellFormed(m)
  {
    assert m[1..1 + |results|] == results && m[1 + |results|..] == rest;
  }

  lemma AuditOfRound(m: seq<Message>, response: AiMessage, results: seq<Message>, rest: seq<Message>, user: string,
        name: AgentName)
    requires m == [Ai(response)] + results + rest
    requires response.malformed == [] && response.calls != [] && Answer(response.calls, results)
    ensures Audit(m, user, name) == Executions(user, name, response.calls) + Audit(rest, user, name)
  {
    assert m[1..] == results + rest && m[1] == results[0];
    AuditSkipsResults(results, rest, user, name);
  }

  lemma RoundNodes(name: AgentName, executed: seq<Execution>, t: Turn)
    requires OnlyAgent(t.nodes, name)
    ensures
      var r := Prepend(Agent(name), [], Prepend(Tools(name), executed, t));
      && r.state == t.state && r.failed == t.failed && r.executed == executed + t.executed
      && |r.nodes| == |t.nodes| + 2 && OnlyAgent(r.nodes, name) && CountTools(r.nodes) == CountTools(t.nodes) + 1
  {
    var tail := [Tools(name)] + t.nodes;
    assert ([Agent(name)] + tail)[1..] == tail && tail[1..] == t.nodes;
  }

  /** What follows a round, put together with the round. */
  lemma ExtendTurn(max: nat, name: AgentName, st: State, st2: State, t: Turn, rest: seq<Message>, t2: Turn,
        added: seq<Message>)
    requires st.iterations + 1 < max && st2.iterations == st.iterations + 1
    requires st2.userId == st.userId && st2.active == Some(name)
    requires SpecialistTurn(max, name, st2, t, rest)
    requires t2.state == t.state && t2.failed == t.failed
    requires |t2.nodes| == |t.nodes| + 2 && OnlyAgent(t2.nodes, name) && CountTools(t2.nodes) == CountTools(t.nodes) + 1
    requires st2.messages + rest == st.messages + added
    requires WellFormed(added) && t2.executed == Audit(added, st.userId, name)
    ensures SpecialistTurn(max, name, st, t2, added)
  {
  }

  lemma AppendRound(m: seq<Message>, first: Message, results: seq<Message>, rest: seq<Message>)
    ensures m + [first] + results + rest == m + ([first] + results + rest)
  {
  }

  /** A model call that asks for tools, and the tools; `t` is what follows, from `st2` on. */
  lemma RoundKeepsTurn(max: nat, name: AgentName, st: State, response: AiMessage, results: seq<Message>,
                       st2: State, t: Turn, rest: seq<Message>, added: seq<Message>)
    requires st.iterations + 1 < max
    requires response.malformed == [] && response.calls != [] && Answer(response.calls, results)
    requires st2 == State(st.messages + [Ai(response)] + results, st.iterations + 1, st.userId, Some(name))
    requires SpecialistTurn(max, name, st2, t, rest) && added == [Ai(response)] + results + rest
    ensures SpecialistTurn(max, name, st,
      Prepend(Agent(name), [], Prepend(Tools(name), Executions(st.userId, name, response.calls), t)), added)
  {
    var executed := Executions(st.userId, name, response.calls);
    WellFormedRound(added, response, results, rest);
    AuditOfRound(added, response, results, rest, st.userId, name);
    RoundNodes(name, executed, t);
    AppendRound(st.messages, Ai(response), results, rest);
    ExtendTurn(max, name, st, st2, t, rest, Prepend(Agent(name), [], Prepend(Tools(name), executed, t)), added);
  }

  lemma ClosingIsPlain(closing: seq<Message>, user: string, name: AgentName)
    requires |closing| <= 1
    requires closing != [] ==> closing[0].Ai? && closing[0].ai.malformed == [] && closing[0].ai.calls == []
    ensures WellFormed(closing) && Audit(closing, user, name) == []
  {
    if closing != [] {
      assert closing[1..] == [];
      assert Audit(closing, user, name) == Audit(closing[1..], user, name);
    }
  }

  lemma LastMessages(m: seq<Message>, response: AiMessage, closing: seq<Message>, user: string, name: AgentName)
    requires m == [Ai(response)] + closing
    requires
      if response.malformed != [] then closing == [INVALID_REPLY]
      else if response.calls != [] then closing == [LIMIT_REPLY]
      else closing == []
    ensures WellFormed(m) && Audit(m, user, name) == []
  {
    ClosingIsPlain(closing, user, name);
    assert m[1..] == closing;
    assert Audit(m, user, name) == Audit(closing, user, name);
  }

  /** A model call that ends the turn, with the closing message if there is one. */
  lemma LastRound(max: nat, name: AgentName, st: State, response: AiMessage, closing: seq<Message>, nodes: seq<Node>)
    requires
      if response.malformed != [] then closing == [INVALID_REPLY] && nodes == [Invalid]
      else if response.calls != [] then closing == [LIMIT_REPLY] && nodes == [Limit]
      else closing == [] && nodes == []
    ensures SpecialistTurn(max, name, st,
      Prepend(Agent(name), [],
        Turn(State(st.messages + [Ai(response)] + closing, st.iterations + 1, st.userId, Some(name)),
          nodes, [], false)),
      [Ai(response)] + closing)
  {
    var added := [Ai(response)] + closing;
    LastMessages(added, response, closing, st.userId, name);
    assert st.messages + [Ai(response)] + closing == st.messages + added;
    assert ([Agent(name)] + nodes)[1..] == nodes;
    assert nodes != [] ==> nodes[1..] == [];
    assert CountTools(nodes) == 0;
  }

  lemma ReplyEndsTurn(max: nat, o: Oracle, node: Node, st: State)
    requires node.Limit? || node.Invalid?
    ensures
      var reply := if node.Limit? then LIMIT_REPLY else INVALID_REPLY;
      RunFrom(max, o, node, st) == Turn(st.(messages := st.messages + [reply]), [node], [], false)
  {
    assert Advance(max, o, node, st).value.1 == End;
    assert [node] + [] == [node];
  }

  lemma {:induction false} SpecialistRuns(max: nat, o: Oracle, name: AgentName, st: State) returns (added: seq<Message>)
    ensures SpecialistTurn(max, name, st, RunFrom(max, o, Agent(name), st), added)
    decreases Measure(max, Agent(name), st.iterations)
  {
    match o.specialist(name, st)
    case None => added := [];
    case Some(response) =>
      var st1 := st.(messages := st.messages + [Ai(response)], iterations := st.iterations + 1, active := Some(name));
      match RouteSpecialist(max, st1.iterations, name, response)
      case Invalid =>
        added := [Ai(response)] + [INVALID_REPLY];
        ReplyEndsTurn(max, o, Invalid, st1);
        LastRound(max, name, st, response, [INVALID_REPLY], [Invalid]);
      case Limit =>
        added := [Ai(response)] + [LIMIT_REPLY];
        ReplyEndsTurn(max, o, Limit, st1);
        LastRound(max, name, st, response, [LIMIT_REPLY], [Limit]);
      case Tools(_) =>
        var results := ToolResults(o, st1, response.calls);
        var st2 := st1.(messages := st1.messages + results);
        assert PendingCalls(st1) == response.calls;
        var rest := SpecialistRuns(max, o, name, st2);
        added := [Ai(response)] + results + rest;
        RoundKeepsTurn(max, name, st, response, results, st2, RunFrom(max, o, Agent(name), st2), rest, added);
      case _ =>
        added := [Ai(response)] + [];
        LastRound(max, name, st, response, [], []);
  }

  // ---- Main results ----

  function AtLeastOne(max: nat): (n: nat)
  {
    if max == 0 then 1 else max
  }

  /** `GRAPH_RECURSION_LIMIT` for any cap. */
  function RecursionLimit(max: nat): (n: nat)
  {
    2 * max + 4
  }

  /** The agent that the supervisor chooses, if its model answers and chooses one. */
  function Chosen(o: Oracle, st: State): (name: Option<AgentName>)
  {
    match o.supervisor(st)
    case None => None
    case Some(response) => SelectAgent(response)
  }

  /** Only the chosen agent ran; nothing ran, and no tool was executed, when none was chosen. */
  ghost predicate ObeysSupervisor(chosen: Option<AgentName>, t: Turn)
  {
    match chosen
    case Some(name) => OnlyAgent(t.nodes, name)
    case None => t.executed == [] && forall i | 0 <= i < |t.nodes| :: !t.nodes[i].Agent? && !t.nodes[i].Tools?
  }

  lemma SupervisorFirst(name: AgentName, t: Turn)
    requires OnlyAgent(t.nodes, name)
    ensures
      var r := Prepend(Supervisor, [], t);
      && r.state == t.state && r.failed == t.failed && r.executed == t.executed
      && |r.nodes| == |t.nodes| + 1 && OnlyAgent(r.nodes, name) && CountTools(r.nodes) == CountTools(t.nodes)
  {
    assert ([Supervisor] + t.nodes)[1..] == t.nodes;
  }

  /** A turn whose supervisor chooses nobody. */
  lemma NobodyRuns(max: nat, o: Oracle, st: State)
    requires Chosen(o, st).None?
    ensures
      RunFrom(max, o, Supervisor, st) ==
        if o.supervisor(st).None? then Turn(st, [Supervisor], [], true)
        else Turn(st.(messages := st.messages + [INVALID_REPLY], active := None), [Supervisor, Invalid], [], false)
  {
    if o.supervisor(st).Some? {
      ReplyEndsTurn(max, o, Invalid, st.(active := None));
      assert [Supervisor] + [Invalid] == [Supervisor, Invalid];
    }
  }

  lemma NobodysNodes(nodes: seq<Node>)
    requires nodes == [Supervisor] || nodes == [Supervisor, Invalid]
    ensures CountTools(nodes) == 0
  {
    assert [Supervisor, Invalid][1..] == [Invalid] && [Invalid][1..] == [] && [Supervisor][1..] == [];
  }

  /** A whole turn; `name` is the chosen agent, if there is one. */
  lemma {:induction false} SupervisorRuns(max: nat, o: Oracle, st: State) returns (added: seq<Message>, name: AgentName)
    requires st.iterations == 0
    ensures
      var t := RunFrom(max, o, Supervisor, st);
      && t.state.messages == st.messages + added && WellFormed(added)
      && |t.nodes| <= 2 * AtLeastOne(max) + 1 && CountTools(t.nodes) <= AtLeastOne(max) - 1
      && t.state.userId == st.userId
      && (Chosen(o, st).Some? ==> name == Chosen(o, st).value) && ObeysSupervisor(Chosen(o, st), t)
      && t.executed == Audit(added, st.userId, name)
      && (t.executed != [] && !t.failed ==> t.state.active == Some(name))
      && (Chosen(o, st).None? ==> added == if o.supervisor(st).None? then [] else [INVALID_REPLY])
  {
    match Chosen(o, st)
    case None =>
      name := OrderTracking;
      added := if o.supervisor(st).None? then [] else [INVALID_REPLY];
      NobodyRuns(max, o, st);
      NobodysNodes(RunFrom(max, o, Supervisor, st).nodes);
      ClosingIsPlain(added, st.userId, name);
    case Some(chosen) =>
      name := chosen;
      var st1 := st.(active := Some(name));
      added := SpecialistRuns(max, o, name, st1);
      SupervisorFirst(name, RunFrom(max, o, Agent(name), st1));
      assert RunFrom(max, o, Supervisor, st) == Prepend(Supervisor, [], RunFrom(max, o, Agent(name), st1));
  }

  /** Termination, for every adversary, every state that a conversation has left behind and every cap: the bound on
      nodes is within the graph's recursion limit, on every turn, since the input resets the counter. */
  lemma TurnIsBounded(max: nat, o: Oracle, st: State, userId: string, text: string)
    ensures
      var t := RunTurn(max, o, st, userId, text);
      && |t.nodes| <= 2 * AtLeastOne(max) + 1 < 2 * max + 4 == RecursionLimit(max)
      && CountTools(t.nodes) <= AtLeastOne(max) - 1
  {
    var _, _ := SupervisorRuns(max, o, State(st.messages + [Human(text)], 0, userId, st.active));
  }

  lemma {:induction false} ExecutionsAreConfined(userId: string, name: AgentName, calls: seq<ToolCall>)
    ensures forall e | e in Executions(userId, name, calls) :: e.name in ToolsOf(name) && e.userId == userId
  {
    if calls != [] {
      ExecutionsAreConfined(userId, name, calls[..|calls| - 1]);
    }
  }

  lemma {:induction false} AuditIsConfined(m: seq<Message>, userId: string, name: AgentName)
    ensures forall e | e in Audit(m, userId, name) :: e.name in ToolsOf(name) && e.userId == userId
  {
    if m != [] {
      AuditIsConfined(m[1..], userId, name);
      if m[0].Ai? {
        ExecutionsAreConfined(userId, name, m[0].ai.calls);
      }
    }
  }

  /** Capability confinement, for every adversary: every agent and tool node of a turn is that of the specialist
      that the supervisor chose in this turn, and there is none if it chose none; what the turn executes are calls
      of that specialist's tools, for that turn's user; and the history shows them call by call, so that a message
      with any malformed call, or one cut off by the limit, executed nothing. */
  lemma TurnIsConfined(max: nat, o: Oracle, st: State, userId: string, text: string)
    returns (added: seq<Message>, name: AgentName)
    ensures
      var chosen := Chosen(o, State(st.messages + [Human(text)], 0, userId, st.active));
      var t := RunTurn(max, o, st, userId, text);
      && t.state.messages == st.messages + [Human(text)] + added
      && (chosen.Some? ==> name == chosen.value) && ObeysSupervisor(chosen, t)
      && t.executed == Audit(added, userId, name)
      && (forall e | e in t.executed :: e.name in ToolsOf(name) && e.userId == userId)
  {
    added, name := SupervisorRuns(max, o, State(st.messages + [Human(text)], 0, userId, st.active));
    AuditIsConfined(added, userId, name);
  }

  /** A supervisor whose answer is not exactly one readable call of a handoff tool starts no agent and no tool: the turn
      adds the closing message for invalid calls and nothing else. */
  lemma NoHandoffNoAction(max: nat, o: Oracle, st: State, userId: string, text: string, response: AiMessage)
    requires o.supervisor(State(st.messages + [Human(text)], 0, userId, st.active)) == Some(response)
    requires response.malformed != [] || |response.calls| != 1 || HandoffAgent(response.calls[0].name).None?
    ensures
      var t := RunTurn(max, o, st, userId, text);
      && t.state.messages == st.messages + [Human(text)] + [INVALID_REPLY]
      && t.executed == [] && ObeysSupervisor(None, t)
  {
    var _, _ := SupervisorRuns(max, o, State(st.messages + [Human(text)], 0, userId, st.active));
  }

  datatype Request = Request(oracle: Oracle, userId: string, text: string)

  /** Turns one after the other, each on the state that the one before has checkpointed. */
  function Continue(max: nat, st: State, requests: seq<Request>): (r: State)
  {
    if requests == [] then st
    else
      var last := requests[|requests| - 1];
      RunTurn(max, last.oracle, Continue(max, st, requests[..|requests| - 1]), last.userId, last.text).state
  }

  /** A conversation from its beginning. */
  function Conversation(max: nat, requests: seq<Request>): (st: State)
  {
    Continue(max, State([], 0, "", None), requests)
  }

  /** The history is well-formed after every turn of every conversation, turns in which a model failed included. */
  lemma {:induction false} HistoryIsWellFormed(max: nat, requests: seq<Request>)
    ensures WellFormed(Conversation(max, requests).messages)
  {
    if requests != [] {
      var last := requests[|requests| - 1];
      var before := Conversation(max, requests[..|requests| - 1]);
      HistoryIsWellFormed(max, requests[..|requests| - 1]);
      var start := State(before.messages + [Human(last.text)], 0, last.userId, before.active);
      var added, _ := SupervisorRuns(max, last.oracle, start);
      assert [Human(last.text)][1..] == [];
      WellFormedAppend(before.messages, [Human(last.text)]);
      WellFormedAppend(before.messages + [Human(last.text)], added);
    }
  }

  // ---- Turns that are cut off ----

  /** What is checkpointed when a turn is cut off after `k` nodes, by a crash or because the client went away; `next` is
      the node that did not run any more. */
  datatype Cut = Cut(state: State, next: Node)

  function CutOff(max: nat, o: Oracle, k: nat, node: Node, st: State): (c: Cut)
  {
    if k == 0 then Cut(st, node)
    else
      match Advance(max, o, node, st)
      case None => Cut(st, node)
      case Some((st', next)) => CutOff(max, o, k - 1, next, st')
  }

  /** A turn that is cut off was on its way to where the whole turn ends. */
  lemma {:induction false} CutIsOnTheWay(max: nat, o: Oracle, k: nat, node: Node, st: State)
    requires node.Tools? ==> st.iterations < max
    ensures
      var c := CutOff(max, o, k, node, st);
      && (c.next.Tools? ==> c.state.iterations < max)
      && RunFrom(max, o, c.next, c.state).state == RunFrom(max, o, node, st).state
  {
    if k > 0 && Advance(max, o, node, st).Some? {
      var (st', next) := Advance(max, o, node, st).value;
      CutIsOnTheWay(max, o, k - 1, next, st');
    }
  }

  /** The node that is due closes the last message: it answers its calls, or says that it cannot. */
  predicate Closes(node: Node, m: seq<Message>)
  {
    && m != [] && m[|m| - 1].Ai?
    && var ai := m[|m| - 1].ai;
       || (node.Tools? && ai.malformed == [] && ai.calls != [])
       || (node.Limit? && ai.malformed == [] && ai.calls != [])
       || (node.Invalid? && ai.malformed != [])
  }

  /** Between two nodes a history is well-formed, or it is but for a last message that the next node closes. */
  ghost predicate Between(node: Node, m: seq<Message>)
  {
    if Closes(node, m) then WellFormed(m[..|m| - 1]) else WellFormed(m) && !node.Tools? && !node.Limit?
  }

  /** A well-formed history does not end with calls that nothing follows. */
  lemma {:induction false} OpenCallsAreNotWellFormed(m: seq<Message>, ai: AiMessage)
    requires ai.malformed != [] || ai.calls != []
    ensures !WellFormed(m + [Ai(ai)])
    decreases |m|
  {
    var all := m + [Ai(ai)];
    if WellFormed(all) {
      var n := FirstItem(all);
      if n <= |m| {
        assert all[n..] == m[n..] + [Ai(ai)];
        OpenCallsAreNotWellFormed(m[n..], ai);
      } else {
        NoItemEndsOpen(m, ai, n);
      }
    }
  }

  lemma NoItemEndsOpen(m: seq<Message>, ai: AiMessage, n: nat)
    requires n == |m| + 1 && (ai.malformed != [] || ai.calls != [])
    ensures !Item(m + [Ai(ai)], n)
  {
    assert m != [] ==> (m + [Ai(ai)])[1..n][|m| - 1] == Ai(ai);
  }

  lemma ClosingIsWellFormed(before: seq<Message>, ai: AiMessage, closing: seq<Message>)
    requires WellFormed(before)
    requires
      || (ai.malformed != [] && closing == [INVALID_REPLY])
      || (ai.malformed == [] && ai.calls != [] && closing == [LIMIT_REPLY])
      || (ai.malformed == [] && ai.calls != [] && Answer(ai.calls, closing))
      || (ai.malformed == [] && ai.calls == [] && closing == [])
    ensures WellFormed(before + [Ai(ai)] + closing)
  {
    var item := [Ai(ai)] + closing;
    assert item[1..] == closing;
    if ai.malformed == [] && Answer(ai.calls, closing) {
      assert item[1..1 + |ai.calls|] == closing && item[1 + |ai.calls|..] == [];
    } else {
      assert closing[1..] == [];
    }
    assert WellFormed(item);
    WellFormedAppend(before, item);
    assert before + item == before + [Ai(ai)] + closing;
  }

  lemma LastApart(m: seq<Message>)
    requires m != []
    ensures m == m[..|m| - 1] + [m[|m| - 1]]
  {
  }

  lemma ClosedIsWellFormed(m: seq<Message>, node: Node, closing: seq<Message>)
    requires Closes(node, m) && WellFormed(m[..|m| - 1])
    requires node.Limit? ==> closing == [LIMIT_REPLY]
    requires node.Invalid? ==> closing == [INVALID_REPLY]
    requires node.Tools? ==> Answer(m[|m| - 1].ai.calls, closing)
    ensures WellFormed(m + closing)
  {
    LastApart(m);
    ClosingIsWellFormed(m[..|m| - 1], m[|m| - 1].ai, closing);
  }

  lemma PlainIsWellFormed(m: seq<Message>, ai: AiMessage)
    requires WellFormed(m) && ai.malformed == [] && ai.calls == []
    ensures WellFormed(m + [Ai(ai)])
  {
    ClosingIsWellFormed(m, ai, []);
    assert m + [Ai(ai)] + [] == m + [Ai(ai)];
  }

  lemma AgentKeepsBetween(max: nat, iterations: nat, name: AgentName, m: seq<Message>, ai: AiMessage)
    requires WellFormed(m)
    ensures Between(RouteSpecialist(max, iterations, name, ai), m + [Ai(ai)])
  {
    assert (m + [Ai(ai)])[..|m|] == m;
    if ai.malformed == [] && ai.calls == [] {
      PlainIsWellFormed(m, ai);
    }
  }

  lemma WellFormedNeedsNoClosing(node: Node, m: seq<Message>)
    requires WellFormed(m)
    ensures !Closes(node, m)
  {
    if m != [] && m[|m| - 1].Ai? && (m[|m| - 1].ai.malformed != [] || m[|m| - 1].ai.calls != []) {
      LastApart(m);
      OpenCallsAreNotWellFormed(m[..|m| - 1], m[|m| - 1].ai);
    }
  }

  lemma ToolsKeepBetween(o: Oracle, st: State, name: AgentName)
    requires Between(Tools(name), st.messages)
    ensures Between(Agent(name), st.messages + ToolResults(o, st, PendingCalls(st)))
  {
    ClosedIsWellFormed(st.messages, Tools(name), ToolResults(o, st, PendingCalls(st)));
  }

  lemma EndIsBetween(m: seq<Message>)
    requires WellFormed(m)
    ensures Between(End, m)
  {
  }

  lemma ReplyKeepsBetween(node: Node, m: seq<Message>, reply: AiMessage)
    requires (node.Limit? && Ai(reply) == LIMIT_REPLY) || (node.Invalid? && Ai(reply) == INVALID_REPLY)
    requires reply.malformed == [] && reply.calls == []
    requires Between(node, m)
    ensures Between(End, m + [Ai(reply)])
  {
    if Closes(node, m) {
      ClosedIsWellFormed(m, node, [Ai(reply)]);
    } else {
      PlainIsWellFormed(m, reply);
    }
    EndIsBetween(m + [Ai(reply)]);
  }

  ghost predicate BetweenAfter(max: nat, o: Oracle, node: Node, st: State)
  {
    Advance(max, o, node, st).Some? ==>
      Between(Advance(max, o, node, st).value.1, Advance(max, o, node, st).value.0.messages)
  }

  lemma AfterSupervisor(max: nat, o: Oracle, st: State)
    requires WellFormed(st.messages)
    ensures BetweenAfter(max, o, Supervisor, st)
  {
    WellFormedNeedsNoClosing(Invalid, st.messages);
  }

  lemma AfterAgent(max: nat, o: Oracle, name: AgentName, st: State)
    requires WellFormed(st.messages)
    ensures BetweenAfter(max, o, Agent(name), st)
  {
    if o.specialist(name, st).Some? {
      AgentKeepsBetween(max, st.iterations + 1, name, st.messages, o.specialist(name, st).value);
    }
  }

  lemma AfterTools(max: nat, o: Oracle, name: AgentName, st: State)
    requires Between(Tools(name), st.messages)
    ensures BetweenAfter(max, o, Tools(name), st)
  {
    ToolsKeepBetween(o, st, name);
  }

  lemma AfterReply(max: nat, o: Oracle, node: Node, st: State)
    requires (node.Limit? || node.Invalid?) && Between(node, st.messages)
    ensures BetweenAfter(max, o, node, st)
  {
    ReplyKeepsBetween(node, st.messages, if node.Limit? then LIMIT_REPLY.ai else INVALID_REPLY.ai);
  }

  lemma AdvanceKeepsBetween(max: nat, o: Oracle, node: Node, st: State)
    requires Between(node, st.messages)
    ensures BetweenAfter(max, o, node, st)
  {
    match node
    case Supervisor => AfterSupervisor(max, o, st);
    case Agent(name) => AfterAgent(max, o, name, st);
    case Tools(name) => AfterTools(max, o, name, st);
    case Limit => AfterReply(max, o, node, st);
    case Invalid => AfterReply(max, o, node, st);
    case End =>
  }

  lemma {:induction false} CutKeepsBetween(max: nat, o: Oracle, k: nat, node: Node, st: State)
    requires Between(node, st.messages)
    ensures Between(CutOff(max, o, k, node, st).next, CutOff(max, o, k, node, st).state.messages)
  {
    if k > 0 && Advance(max, o, node, st).Some? {
      var (st', next) := Advance(max, o, node, st).value;
      AdvanceKeepsBetween(max, o, node, st);
      CutKeepsBetween(max, o, k - 1, next, st');
    }
  }

  /** A turn that does not run to its end can leave a malformed history behind. It does so exactly when it is cut off
      between a message with calls and the node that closes it. */
  lemma CutOffTurn(max: nat, o: Oracle, k: nat, st: State, userId: string, text: string)
    requires WellFormed(st.messages)
    ensures
      var c := CutOff(max, o, k, Supervisor, State(st.messages + [Human(text)], 0, userId, st.active));
      WellFormed(c.state.messages) <==> !Closes(c.next, c.state.messages)
  {
    var start := State(st.messages + [Human(text)], 0, userId, st.active);
    assert [Human(text)][1..] == [];
    WellFormedAppend(st.messages, [Human(text)]);
    CutKeepsBetween(max, o, k, Supervisor, start);
    var c := CutOff(max, o, k, Supervisor, start);
    if WellFormed(c.state.messages) {
      WellFormedNeedsNoClosing(c.next, c.state.messages);
    }
  }

  /** Calls that the next human message follows directly: nothing answers them any more. */
  lemma {:induction false} LostCallsAreNotWellFormed(m: seq<Message>, ai: AiMessage, text: string, rest: seq<Message>)
    requires ai.malformed != [] || ai.calls != []
    ensures !WellFormed(m + [Ai(ai), Human(text)] + rest)
    decreases |m|
  {
    var all := m + [Ai(ai), Human(text)] + rest;
    if WellFormed(all) {
      var n := FirstItem(all);
      if n <= |m| {
        assert all[n..] == m[n..] + [Ai(ai), Human(text)] + rest;
        LostCallsAreNotWellFormed(m[n..], ai, text, rest);
      } else {
        NoItemHoldsLostCalls(m, ai, text, rest, n);
      }
    }
  }

  lemma NoItemHoldsLostCalls(m: seq<Message>, ai: AiMessage, text: string, rest: seq<Message>, n: nat)
    requires n > |m| && (ai.malformed != [] || ai.calls != [])
    ensures !Item(m + [Ai(ai), Human(text)] + rest, n)
  {
    var all := m + [Ai(ai), Human(text)] + rest;
    assert all[|m|] == Ai(ai) && all[|m| + 1] == Human(text);
    assert m != [] && n <= |all| ==> all[1..n][|m| - 1] == Ai(ai);
    assert m == [] && 2 <= n <= |all| ==> all[1..n][0] == Human(text);
  }

  lemma TurnAppends(max: nat, st: State, request: Request) returns (added: seq<Message>)
    ensures RunTurn(max, request.oracle, st, request.userId, request.text).state.messages
         == st.messages + [Human(request.text)] + added
  {
    var name: AgentName;
    added, name := TurnIsConfined(max, request.oracle, st, request.userId, request.text);
  }

  lemma AppendTurn(m: seq<Message>, first: Message, earlier: seq<Message>, last: Message, added: seq<Message>)
    ensures (m + [first] + earlier) + [last] + added == m + [first] + (earlier + [last] + added)
  {
  }

  lemma {:induction false} ContinueAppends(max: nat, st: State, requests: seq<Request>) returns (rest: seq<Message>)
    requires requests != []
    ensures Continue(max, st, requests).messages == st.messages + [Human(requests[0].text)] + rest
  {
    var front, last := requests[..|requests| - 1], requests[|requests| - 1];
    var added := TurnAppends(max, Continue(max, st, front), last);
    if front == [] {
      rest := added;
    } else {
      var earlier := ContinueAppends(max, st, front);
      rest := earlier + [Human(last.text)] + added;
      AppendTurn(st.messages, Human(requests[0].text), earlier, Human(last.text), added);
    }
  }

  /** And the damage is for all later turns: whatever is asked next and whatever the models answer, the history never
      becomes well-formed again. */
  lemma CutOffIsForEver(max: nat, st: State, next: Node, requests: seq<Request>)
    requires Closes(next, st.messages)
    ensures !WellFormed(Continue(max, st, requests).messages)
  {
    var m := st.messages;
    if requests == [] {
      if WellFormed(m) {
        WellFormedNeedsNoClosing(next, m);
      }
    } else {
      var rest := ContinueAppends(max, st, requests);
      LastApart(m);
      var front, ai, text := m[..|m| - 1], m[|m| - 1].ai, requests[0].text;
      assert m + [Human(text)] + rest == front + [Ai(ai), Human(text)] + rest;
      LostCallsAreNotWellFormed(front, ai, text, rest);
    }
  }

  // ---- The bound is reached ----

  const EAGER_CALL := ToolCall("1", "get_order_status", "{}")

  /** Always asks for a tool. */
  function EagerOracle(): (o: Oracle)
  {
    Oracle(
      st => Some(AiMessage("", [ToolCall("0", "delegate_to_order_tracking", "{}")], [])),
      (name, st) => Some(AiMessage("", [EAGER_CALL], [])),
      (st, call) => "")
  }

  const EAGER_ANSWER := AiMessage("", [EAGER_CALL], [])

  lemma EagerRound(max: nat, o: Oracle, st: State, ai: AiMessage) returns (st2: State)
    requires st.iterations < max && o.specialist(OrderTracking, st) == Some(ai)
    requires ai.malformed == [] && ai.calls != []
    ensures st2.iterations == st.iterations + 1
    ensures
      RunFrom(max, o, Agent(OrderTracking), st).nodes == [Agent(OrderTracking)] +
        if st2.iterations < max then [Tools(OrderTracking)] + RunFrom(max, o, Agent(OrderTracking), st2).nodes
        else [Limit]
  {
    var st1 := State(st.messages + [Ai(ai)], st.iterations + 1, st.userId, Some(OrderTracking));
    st2 := st1.(messages := st1.messages + ToolResults(o, st1, PendingCalls(st1)));
    assert Advance(max, o, Agent(OrderTracking), st)
        == Some((st1, if st1.iterations < max then Tools(OrderTracking) else Limit));
    ReplyEndsTurn(max, o, Limit, st1);
  }

  lemma {:induction false} EagerSpecialist(max: nat, st: State)
    requires st.iterations < max
    ensures |RunFrom(max, EagerOracle(), Agent(OrderTracking), st).nodes| == 2 * (max - st.iterations)
    decreases max - st.iterations
  {
    var st2 := EagerRound(max, EagerOracle(), st, EAGER_ANSWER);
    if st2.iterations < max {
      EagerSpecialist(max, st2);
    }
  }

  /** Cut off before its first tool node, a turn leaves a call that nothing answers. */
  lemma CutOffExample(max: nat, text: string, userId: string)
    requires max >= 2
    ensures
      var c := CutOff(max, EagerOracle(), 2, Supervisor, State([Human(text)], 0, userId, None));
      c.next == Tools(OrderTracking) && !WellFormed(c.state.messages)
  {
    var o, st := EagerOracle(), State([Human(text)], 0, userId, None);
    var st1 := st.(active := Some(OrderTracking));
    var st2 := State(st.messages + [Ai(EAGER_ANSWER)], 1, userId, Some(OrderTracking));
    assert Advance(max, o, Supervisor, st) == Some((st1, Agent(OrderTracking)));
    assert Advance(max, o, Agent(OrderTracking), st1) == Some((st2, Tools(OrderTracking)));
    assert CutOff(max, o, 2, Supervisor, st) == CutOff(max, o, 1, Agent(OrderTracking), st1)
        == CutOff(max, o, 0, Tools(OrderTracking), st2);
    OpenCallsAreNotWellFormed(st.messages, EAGER_ANSWER);
  }

  /** The bound of 2 * MAX + 1 nodes is exact. */
  lemma BoundIsReached(max: nat, st: State, userId: string, text: string)
    requires max >= 1
    ensures |RunTurn(max, EagerOracle(), st, userId, text).nodes| == 2 * max + 1
  {
    var start := State(st.messages + [Human(text)], 0, userId, st.active);
    var response := AiMessage("", [ToolCall("0", "delegate_to_order_tracking", "{}")], []);
    assert EagerOracle().supervisor(start) == Some(response);
    assert SelectAgent(response) == Some(OrderTracking);
    EagerSpecialist(max, start.(active := Some(OrderTracking)));
  }
}
