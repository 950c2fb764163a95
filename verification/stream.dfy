/** The agent's answer on its way to the browser: the server turns what the graph streams into event-stream frames, and
    the client reads the text back. */
module AgentStream {
  import opened Base
  import opened CardScan
  import opened Json
  import opened Sse
  import opened SseFrames
  import Reasoning

  const INPUT_BLOCKED_MESSAGE :=
    "I can't process that message because it may contain unsafe instructions or sensitive information."
  const OUTPUT_BLOCKED_MESSAGE := "I couldn't return that response safely."
  const UNAVAILABLE := "The language model is currently unavailable."
  const MAX_OUTPUT_LENGTH := 10_000

  const USER_RESPONSE_GRAPH_NODES :=
    {"order_tracking_agent", "order_actions_agent", "infrastructure_agent", "limit", "invalid"}

  // ---- What the server depends on ----

  datatype Content = TextContent(text: string) | BlockContent

  /** An item of the graph's stream; `node` is the graph node its metadata names. */
  datatype Event = Event(isMessage: bool, fromAssistant: bool, node: Option<string>, content: Content)

  datatype Ending = Finished | Raised | Cancelled

  datatype Run = Run(events: seq<Event>, ending: Ending)

  datatype Verdict = Allowed | Blocked | CheckRaised | CheckCancelled

  /** What the guards decide about a text. Which texts hold a prompt injection and what the safety model says is not
      modelled; sensitive data is, below, as far as card numbers go. */
  datatype Guards = Guards(
    injection: string -> bool,
    sensitive: string -> bool,
    nemoEnabled: bool,
    nemoInput: string -> Verdict,
    nemoOutput: string -> Verdict)

  predicate ValidOutput(text: string, guards: Guards)
  {
    |text| <= MAX_OUTPUT_LENGTH && !guards.sensitive(text)
  }

  /** `contains_sensitive_data`, from the search for secrets. */
  predicate ContainsSensitiveData(text: string, secret: string -> bool)
  {
    secret(text) || ContainsCard(text)
  }

  // ---- What the server answers ----

  /** Whether an item is part of the answer: text of an assistant message that no internal node produced. */
  predicate IsShown(e: Event)
  {
    && e.isMessage && e.fromAssistant
    && (e.node.Some? && e.node.value != "" ==> e.node.value in USER_RESPONSE_GRAPH_NODES)
    && e.content.TextContent? && e.content.text != ""
  }

  function Parts(events: seq<Event>): (parts: seq<string>)
  {
    if events == [] then []
    else
      var e := events[|events| - 1];
      Parts(events[..|events| - 1]) + if IsShown(e) then [e.content.text] else []
  }

  /** How a request ends: with a text, with no text, with an error, or without another word. */
  datatype Outcome = Shown(text: string) | Empty | Failure(text: string) | Stopped

  function CheckInput(message: string, guards: Guards): (v: Verdict)
  {
    if guards.injection(message) || guards.sensitive(message) then Blocked
    else if guards.nemoEnabled then guards.nemoInput(message)
    else Allowed
  }

  function CheckOutput(text: string, guards: Guards): (v: Verdict)
  {
    if !ValidOutput(text, guards) then Blocked
    else if text != OUTPUT_BLOCKED_MESSAGE && guards.nemoEnabled then guards.nemoOutput(text)
    else Allowed
  }

  function Checked(v: Verdict, blocked: string, text: string): (o: Outcome)
    ensures blocked != "" ==> o != Shown("") && o != Failure("")
  {
    match v
    case Allowed => if text == "" then Empty else Shown(text)
    case Blocked => Shown(blocked)
    case CheckRaised => Failure(UNAVAILABLE)
    case CheckCancelled => Stopped
  }

  function Reply(message: string, parts: seq<string>, ending: Ending, guards: Guards): (o: Outcome)
    ensures o != Shown("") && o != Failure("")
  {
    var input := CheckInput(message, guards);
    if input != Allowed then Checked(input, INPUT_BLOCKED_MESSAGE, "")
    else
      match ending
      case Raised => Failure(UNAVAILABLE)
      case Cancelled => Stopped
      case Finished =>
        var text := Reasoning.StripReasoning(Concat(parts));
        Checked(CheckOutput(text, guards), OUTPUT_BLOCKED_MESSAGE, text)
  }

  function Respond(message: string, run: Run, guards: Guards): (o: Outcome)
    ensures o != Shown("") && o != Failure("")
  {
    Reply(message, Parts(run.events), run.ending, guards)
  }

  const DONE_EVENT := Print("done", "{}")

  function Answer(event: string, key: string, text: string): (frames: seq<string>)
  {
    [Print(event, Dumps(key, text)), DONE_EVENT]
  }

  /** The frames of an outcome. */
  function Emitted(o: Outcome): (frames: seq<string>)
  {
    match o
    case Shown(text) => Answer("message", "content", text)
    case Empty => [DONE_EVENT]
    case Failure(text) => Answer("error", "message", text)
    case Stopped => []
  }

  /** The loop over the graph's stream, which gathers the parts of the answer. */
  method CollectParts(events: seq<Event>) returns (responseParts: seq<string>)
    ensures responseParts == Parts(events)
  {
    responseParts := [];
    for i := 0 to |events|
      invariant responseParts == Parts(events[..i])
    {
      var e := events[i];
      assert events[..i + 1][..i] == events[..i];
      if !e.isMessage {
        continue;
      }
      if !e.fromAssistant {
        continue;
      }
      if e.node.Some? && e.node.value != "" && e.node.value !in USER_RESPONSE_GRAPH_NODES {
        continue;
      }
      if e.content.TextContent? && e.content.text != "" {
        responseParts := responseParts + [e.content.text];
      }
    }
    assert events[..|events|] == events;
  }

  /** The checks of the message before the graph runs. */
  method GuardInput(message: string, guards: Guards) returns (verdict: Verdict)
    ensures verdict == CheckInput(message, guards)
  {
    if guards.injection(message) || guards.sensitive(message) {
      return Blocked;
    }
    verdict := Allowed;
    if guards.nemoEnabled {
      verdict := guards.nemoInput(message);
    }
  }

  /** The checks of the answer. */
  method GuardOutput(text: string, guards: Guards) returns (o: Outcome)
    ensures o == Checked(CheckOutput(text, guards), OUTPUT_BLOCKED_MESSAGE, text)
  {
    var responseText := text;
    if |responseText| > MAX_OUTPUT_LENGTH || guards.sensitive(responseText) {
      responseText := OUTPUT_BLOCKED_MESSAGE;
    }
    if responseText != OUTPUT_BLOCKED_MESSAGE && guards.nemoEnabled {
      match guards.nemoOutput(responseText)
      case Allowed =>
      case Blocked => responseText := OUTPUT_BLOCKED_MESSAGE;
      case CheckRaised => return Failure(UNAVAILABLE);
      case CheckCancelled => return Stopped;
    }
    o := if responseText == "" then Empty else Shown(responseText);
  }

  /** What the generator does inside its `try`. */
  method Decide(message: string, run: Run, guards: Guards) returns (o: Outcome)
    ensures o == Respond(message, run, guards)
  {
    var input := GuardInput(message, guards);
    if input == Blocked {
      return Shown(INPUT_BLOCKED_MESSAGE);
    } else if input == CheckRaised {
      return Failure(UNAVAILABLE);
    } else if input == CheckCancelled {
      return Stopped;
    }
    var responseParts := CollectParts(run.events);
    match run.ending
    case Cancelled => o := Stopped;
    case Raised => o := Failure(UNAVAILABLE);
    case Finished => o := GuardOutput(Reasoning.StripReasoning(Concat(responseParts)), guards);
  }

  method YieldFrames(o: Outcome) returns (frames: seq<string>)
    ensures frames == Emitted(o)
  {
    frames := [];
    if o == Stopped {
      return;
    }
    if o.Shown? {
      frames := frames + [Print("message", Dumps("content", o.text))];
    } else if o.Failure? {
      frames := frames + [Print("error", Dumps("message", o.text))];
    }
    ghost var before := frames;
    frames := frames + [DONE_EVENT];
    assert o.Empty? ==> frames == [DONE_EVENT];
    assert !o.Empty? ==> frames == [before[0], DONE_EVENT];
    assert o.Shown? ==> frames == Answer("message", "content", o.text);
    assert o.Failure? ==> frames == Answer("error", "message", o.text);
  }

  /** The generator, with what it yields in `frames`. */
  method StreamLlmResponse(message: string, run: Run, guards: Guards) returns (frames: seq<string>)
    ensures frames == Emitted(Respond(message, run, guards))
  {
    var o := Decide(message, run, guards);
    frames := YieldFrames(o);
  }

  /** What an outcome is on the wire, byte for byte, down to the escapes inside its text. */
  lemma WireFormat(o: Outcome)
    ensures
      var wire := Concat(Emitted(o));
      match o
      case Shown(text) => wire == "event: message\ndata: {\"content\": \"" + EscapeAll(text) + ("\"}\n\n" + DONE_EVENT)
      case Empty => wire == DONE_EVENT
      case Failure(text) => wire == "event: error\ndata: {\"message\": \"" + EscapeAll(text) + ("\"}\n\n" + DONE_EVENT)
      case Stopped => wire == ""
    ensures DONE_EVENT == "event: done\ndata: {}\n\n"
  {
    DoneOnTheWire(DONE_EVENT);
    match o
    case Shown(text) =>
      PlainIsItself("content");
      Prefixes("message", "content");
      AnswerOnTheWire("message", "content", text, "event: message\ndata: {\"content\": \"");
    case Failure(text) =>
      PlainIsItself("message");
      Prefixes("error", "message");
      AnswerOnTheWire("error", "message", text, "event: error\ndata: {\"message\": \"");
    case Empty =>
      ConcatOfOne(DONE_EVENT);
    case Stopped =>
  }

  lemma DoneOnTheWire(event: string)
    requires event == DONE_EVENT
    ensures event == "event: done\ndata: {}\n\n"
  {
  }

  lemma Prefixes(event: string, key: string)
    ensures event == "message" && key == "content" ==>
      "event: " + event + "\ndata: {\"" + key + "\": \"" == "event: message\ndata: {\"content\": \""
    ensures event == "error" && key == "message" ==>
      "event: " + event + "\ndata: {\"" + key + "\": \"" == "event: error\ndata: {\"message\": \""
  {
  }

  lemma AnswerOnTheWire(event: string, key: string, text: string, prefix: string)
    requires EscapeAll(key) == key && prefix == "event: " + event + "\ndata: {\"" + key + "\": \""
    ensures Concat(Answer(event, key, text)) == prefix + EscapeAll(text) + ("\"}\n\n" + DONE_EVENT)
  {
    ConcatOfTwo(Print(event, Dumps(key, text)), DONE_EVENT);
  }

  // ---- What may be shown ----

  ghost predicate SafeText(text: string, parts: seq<string>, guards: Guards)
  {
    && Reasoning.TagFree(text)
    && ValidOutput(text, guards)
    && (guards.nemoEnabled ==> guards.nemoOutput(text) == Allowed)
    && Reasoning.Subsequence(text, Concat(parts))
  }

  predicate IsRefusal(text: string)
  {
    text == INPUT_BLOCKED_MESSAGE || text == OUTPUT_BLOCKED_MESSAGE
  }

  /** What a message alone decides, whatever the graph would have said: with a prompt injection or sensitive data it is
      refused, with or without a safety model; and else an enabled safety model has the last word. */
  lemma InputDecides(message: string, run: Run, guards: Guards)
    ensures guards.injection(message) || guards.sensitive(message) ==>
      Respond(message, run, guards) == Shown(INPUT_BLOCKED_MESSAGE)
    ensures !guards.injection(message) && !guards.sensitive(message) && guards.nemoEnabled ==>
      match guards.nemoInput(message)
      case Blocked => Respond(message, run, guards) == Shown(INPUT_BLOCKED_MESSAGE)
      case CheckRaised => Respond(message, run, guards) == Failure(UNAVAILABLE)
      case CheckCancelled => Respond(message, run, guards) == Stopped
      case Allowed => true
  {
  }

  /** The outcome of a graph's answer: one that is too long or holds sensitive data is replaced; an enabled safety model
      has the last word on any other; and what is left is shown, unless nothing is left. */
  ghost predicate IsOutcomeOf(o: Outcome, text: string, guards: Guards)
  {
    if |text| > 10_000 || guards.sensitive(text) then o == Shown(OUTPUT_BLOCKED_MESSAGE)
    else if guards.nemoEnabled && text != OUTPUT_BLOCKED_MESSAGE && guards.nemoOutput(text) != Allowed then
      match guards.nemoOutput(text)
      case Blocked => o == Shown(OUTPUT_BLOCKED_MESSAGE)
      case CheckRaised => o == Failure(UNAVAILABLE)
      case _ => o == Stopped
    else o == if text == "" then Empty else Shown(text)
  }

  lemma OutputIsChecked(text: string, guards: Guards, refusal: string)
    requires refusal == OUTPUT_BLOCKED_MESSAGE
    ensures IsOutcomeOf(Checked(CheckOutput(text, guards), refusal, text), text, guards)
  {
  }

  /** What becomes of a message that passed: a graph that fails or is cancelled shows nothing of its answer. */
  lemma OutputDecides(message: string, run: Run, guards: Guards, text: string)
    requires !guards.injection(message) && !guards.sensitive(message)
    requires guards.nemoEnabled ==> guards.nemoInput(message) == Allowed
    requires text == Reasoning.StripReasoning(Concat(Parts(run.events)))
    ensures
      match run.ending
      case Raised => Respond(message, run, guards) == Failure(UNAVAILABLE)
      case Cancelled => Respond(message, run, guards) == Stopped
      case Finished => IsOutcomeOf(Respond(message, run, guards), text, guards)
  {
    OutputIsChecked(text, guards, OUTPUT_BLOCKED_MESSAGE);
  }

  /** A text that is not a refusal is shown exactly when it is the answer of a graph that finished, without its
      reasoning and not empty, and no guard objects to the message or to it. */
  lemma ShownExactlyWhen(message: string, run: Run, guards: Guards, text: string)
    requires !IsRefusal(text)
    ensures Respond(message, run, guards) == Shown(text) <==>
      && !guards.injection(message) && !guards.sensitive(message)
      && (guards.nemoEnabled ==> guards.nemoInput(message) == Allowed)
      && run.ending == Finished
      && text == Reasoning.StripReasoning(Concat(Parts(run.events))) && text != ""
      && |text| <= 10_000 && !guards.sensitive(text)
      && (guards.nemoEnabled ==> guards.nemoOutput(text) == Allowed)
  {
    InputDecides(message, run, guards);
  }

  /** An answer that reaches a customer is one of the two refusals, or has no reasoning tag, is not too long, holds no
      secret and no card number, has passed the safety model if there is one, and consists of characters of the parts
      that the graph meant for the customer, in their order. */
  lemma OnlySafeTextIsShown(message: string, run: Run, guards: Guards, text: string)
    requires !IsRefusal(text)
    ensures Respond(message, run, guards) == Shown(text) ==> SafeText(text, Parts(run.events), guards)
  {
    ShownExactlyWhen(message, run, guards, text);
    Reasoning.NoTagSurvives(Concat(Parts(run.events)));
    Reasoning.OnlyDeletes(Concat(Parts(run.events)));
  }

  /** No shown answer holds a secret; the scan finds nothing in it that passes the Luhn check; and so it has no
      maximal run of 13 to 19 digits, spaces and dashes between them or not, that passes it. A number is judged with
      all the digits of its run, so this is no statement about shorter parts of a run. */
  lemma NoSensitiveDataIsShown(message: string, run: Run, guards: Guards, secret: string -> bool, text: string)
    requires !IsRefusal(text) && forall t :: guards.sensitive(t) == ContainsSensitiveData(t, secret)
    ensures Respond(message, run, guards) == Shown(text) ==>
      && !secret(text)
      && (forall m | 0 <= m < |Scan(text, 0)| :: !IsValidCard(text[Scan(text, 0)[m].0..Scan(text, 0)[m].1]))
      && forall r: nat :: !CardAt(text, r)
  {
    ShownExactlyWhen(message, run, guards, text);
    assert guards.sensitive(text) == ContainsSensitiveData(text, secret);
    forall r: nat | CardAt(text, r)
      ensures ContainsCard(text)
    {
      CardIsDetected(text, r);
    }
  }

  /** A request whose message is refused shows nothing of what the graph would have said. */
  lemma RefusedInputShowsNothing(message: string, one: Run, other: Run, guards: Guards)
    requires guards.injection(message) || guards.sensitive(message)
          || (guards.nemoEnabled && guards.nemoInput(message) != Allowed)
    ensures Respond(message, one, guards) == Respond(message, other, guards)
    ensures forall text | Respond(message, one, guards) == Shown(text) :: text == INPUT_BLOCKED_MESSAGE
  {
    InputDecides(message, one, guards);
    InputDecides(message, other, guards);
  }

  lemma {:induction false} PartsAppend(a: seq<Event>, b: seq<Event>)
    ensures Parts(a + b) == Parts(a) + Parts(b)
  {
    if b == [] {
      assert a + b == a;
    } else {
      PartsAppend(a, b[..|b| - 1]);
      assert (a + b)[..|a + b| - 1] == a + b[..|b| - 1];
    }
  }

  /** The text of one streamed item is part of the answer exactly when the item is a message of the assistant, comes
      from no node or from one of the five that answer customers, and has text. */
  lemma PartIsShown(a: seq<Event>, e: Event, b: seq<Event>)
    ensures Parts(a + [e] + b) == Parts(a) + (
      if e.isMessage && e.fromAssistant && e.content.TextContent? && e.content.text != ""
         && (e.node == None || e.node.value == ""
             || e.node.value == "order_tracking_agent" || e.node.value == "order_actions_agent"
             || e.node.value == "infrastructure_agent" || e.node.value == "limit" || e.node.value == "invalid")
      then [e.content.text] else []) + Parts(b)
  {
    PartsAppend(a + [e], b);
    assert (a + [e])[..|a|] == a;
  }

  /** What internal nodes stream never changes the answer, wherever it arrives. */
  lemma HiddenEventsChangeNothing(message: string, a: seq<Event>, e: Event, b: seq<Event>, ending: Ending,
        guards: Guards)
    requires !IsShown(e)
    ensures Respond(message, Run(a + [e] + b, ending), guards) == Respond(message, Run(a + b, ending), guards)
  {
    HiddenPart(a, e, b);
  }

  lemma HiddenPart(a: seq<Event>, e: Event, b: seq<Event>)
    requires !IsShown(e)
    ensures Parts(a + [e] + b) == Parts(a + b)
  {
    PartsAppend(a + [e], b);
    PartsAppend(a, b);
    assert (a + [e])[..|a|] == a;
  }

  // ---- End to end ----

  const TEXT_KEYS := ["content", "message", "text", "detail"]

  /** `readContent`; `other` is what `JSON.parse` makes of text that the server does not print. */
  function ReadContent(data: string, other: string -> Value): (text: string)
  {
    if data == "" then ""
    else
      match JsonParse(data, other)
      case Text(text) => text
      case Object(members) =>
        (match FirstPresent(members, TEXT_KEYS)
         case Some(Text(text)) => text
         case _ => "")
      case SyntaxError => data
      case _ => ""
  }

  /** The `??` chain: the first key that is there and not null. */
  function FirstPresent(members: map<string, Value>, keys: seq<string>): (v: Option<Value>)
  {
    if keys == [] then None
    else if keys[0] in members && members[keys[0]] != Null then Some(members[keys[0]])
    else FirstPresent(members, keys[1..])
  }

  lemma PresentAt(members: map<string, Value>, keys: seq<string>, i: nat)
    requires i < |keys| && keys[i] in members && members[keys[i]] != Null
    requires forall k :: 0 <= k < i ==> keys[k] !in members
    ensures FirstPresent(members, keys) == Some(members[keys[i]])
  {
    if i > 0 {
      PresentAt(members, keys[1..], i - 1);
    }
  }

  function TextOf(v: Value): (text: string)
  {
    if v.Text? then v.text else ""
  }

  predicate Has(members: map<string, Value>, key: string)
  {
    key in members && members[key] != Null
  }

  /** What the client takes for the text of a frame: a JSON string itself; of a JSON object the first of four members
      that is there and not null, if it is a string; nothing of any other JSON; and the data as it is when it is not
      JSON. */
  lemma ContentOfData(data: string, other: string -> Value)
    ensures ReadContent("", other) == ""
    ensures data != "" ==>
      match JsonParse(data, other)
      case Text(text) => ReadContent(data, other) == text
      case SyntaxError => ReadContent(data, other) == data
      case Object(m) =>
        (Has(m, "content") ==> ReadContent(data, other) == TextOf(m["content"]))
        && (!Has(m, "content") && Has(m, "message") ==> ReadContent(data, other) == TextOf(m["message"]))
        && (!Has(m, "content") && !Has(m, "message") && Has(m, "text") ==>
              ReadContent(data, other) == TextOf(m["text"]))
        && (!Has(m, "content") && !Has(m, "message") && !Has(m, "text") && Has(m, "detail") ==>
              ReadContent(data, other) == TextOf(m["detail"]))
        && (!Has(m, "content") && !Has(m, "message") && !Has(m, "text") && !Has(m, "detail") ==>
              ReadContent(data, other) == "")
      case _ => ReadContent(data, other) == ""
  {
    if data != "" && JsonParse(data, other).Object? {
      FirstOfFour(JsonParse(data, other).members, TEXT_KEYS);
      FourKeys(TEXT_KEYS);
    }
  }

  lemma FourKeys(keys: seq<string>)
    requires keys == TEXT_KEYS
    ensures |keys| == 4
    ensures keys[0] == "content" && keys[1] == "message" && keys[2] == "text" && keys[3] == "detail"
  {
  }

  lemma FirstOfFour(m: map<string, Value>, keys: seq<string>)
    requires |keys| == 4
    ensures FirstPresent(m, keys) ==
      if Has(m, keys[0]) then Some(m[keys[0]])
      else if Has(m, keys[1]) then Some(m[keys[1]])
      else if Has(m, keys[2]) then Some(m[keys[2]])
      else if Has(m, keys[3]) then Some(m[keys[3]])
      else None
  {
    assert keys[0..] == keys;
    FirstFrom(m, keys, 0);
    FirstFrom(m, keys, 1);
    FirstFrom(m, keys, 2);
    FirstFrom(m, keys, 3);
  }

  lemma FirstFrom(m: map<string, Value>, keys: seq<string>, k: nat)
    requires k < |keys|
    ensures FirstPresent(m, keys[k..]) == if Has(m, keys[k]) then Some(m[keys[k]]) else FirstPresent(m, keys[k + 1..])
  {
    assert keys[k..][1..] == keys[k + 1..];
  }

  lemma ContentIsRead(key: string, text: string, other: string -> Value)
    requires key == "content" || key == "message"
    ensures ReadContent(Dumps(key, text), other) == text
  {
    DumpsRoundTrip(key, text, other);
    DumpsFitsOneLine(key, text);
    KeyIsPresent(key, text);
  }

  lemma KeyIsPresent(key: string, text: string)
    requires key == "content" || key == "message"
    ensures FirstPresent(map[key := Text(text)], TEXT_KEYS) == Some(Text(text))
  {
    assert TEXT_KEYS[0][0] != TEXT_KEYS[1][0];
    PresentAt(map[key := Text(text)], TEXT_KEYS, if key == "content" then 0 else 1);
  }

  lemma DumpsIsOneLine(key: string, text: string)
    ensures OneLine(Dumps(key, text))
  {
    DumpsFitsOneLine(key, text);
  }

  /** What the customer sees of an outcome. */
  function Seen(o: Outcome): (p: Progress)
  {
    match o
    case Shown(text) => Progress([text], Done)
    case Empty => Progress([], Done)
    case Failure(text) => Progress([], Failed(text))
    case Stopped => Progress([], Closed)
  }

  lemma LastFrame(rest: string)
    requires rest == DONE_EVENT
    ensures Frames(rest) == [Body("done", "{}")] && Tail(rest) == ""
  {
    PrintedFrameIsCutOff("done", "{}", "");
    assert DONE_EVENT + "" == DONE_EVENT;
    assert Find("", 0, true).None?;
  }

  lemma ConcatOfOne(a: string)
    ensures Concat([a]) == a
  {
    assert [a][..0] == [];
  }

  lemma ConcatOfTwo(a: string, b: string)
    ensures Concat([a, b]) == a + b
  {
    assert [a, b][..1] == [a];
    ConcatOfOne(a);
  }

  lemma AnswerFrames(event: string, key: string, text: string)
    requires OneLine(event)
    ensures Frames(Concat(Answer(event, key, text))) == [Body(event, Dumps(key, text)), Body("done", "{}")]
    ensures Tail(Concat(Answer(event, key, text))) == ""
  {
    var data := Dumps(key, text);
    DumpsIsOneLine(key, text);
    LastFrame(DONE_EVENT);
    PrintedFrameIsCutOff(event, data, DONE_EVENT);
    ConcatOfTwo(Print(event, data), DONE_EVENT);
  }

  lemma DoneEnds(p: Progress, content: string -> string)
    requires p.ending == Open
    ensures Handle(p, Body("done", "{}"), content) == p.(ending := Done)
  {
    ParseUndoesBody("done", "{}");
  }

  lemma HandleOne(a: string, content: string -> string)
    ensures HandleAll(Progress([], Open), [a], content) == Handle(Progress([], Open), a, content)
  {
    assert [a][..0] == [];
  }

  lemma HandleTwo(a: string, b: string, content: string -> string)
    ensures HandleAll(Progress([], Open), [a, b], content) == Handle(Handle(Progress([], Open), a, content), b, content)
  {
    assert [a, b][..1] == [a];
    HandleOne(a, content);
  }

  /** `content` is `readContent`. */
  ghost predicate Reads(content: string -> string, other: string -> Value)
  {
    forall data :: content(data) == ReadContent(data, other)
  }

  lemma AnswerIsHandled(event: string, key: string, text: string, content: string -> string, other: string -> Value)
    requires Reads(content, other)
    requires OneLine(event) && (key == "content" || key == "message") && text != ""
    ensures
      var p := Handle(Progress([], Open), Body(event, Dumps(key, text)), content);
      && (event == "message" ==> p == Progress([text], Open))
      && (event == "error" ==> p == Progress([], Failed(text)))
  {
    var data := Dumps(key, text);
    DumpsIsOneLine(key, text);
    ContentIsRead(key, text, other);
    assert content(data) == ReadContent(data, other) == text;
    FrameIsHandled([], event, data, content);
    assert [] + [text] == [text];
  }

  lemma AnswerIsReceived(event: string, key: string, text: string, content: string -> string, other: string -> Value)
    requires Reads(content, other)
    requires (event == "message" || event == "error") && (key == "content" || key == "message") && text != ""
    ensures Receive(Concat(Answer(event, key, text)), content)
      == if event == "message" then Progress([text], Done) else Progress([], Failed(text))
  {
    assert OneLine(event);
    AnswerFrames(event, key, text);
    AnswerIsHandled(event, key, text, content, other);
    TwoFramesAreReceived(Concat(Answer(event, key, text)), Body(event, Dumps(key, text)), content);
  }

  lemma TwoFramesAreReceived(s: string, body: string, content: string -> string)
    requires Frames(s) == [body, Body("done", "{}")]
    ensures
      var p := Handle(Progress([], Open), body, content);
      Receive(s, content) == if p.ending == Open then p.(ending := Done) else p
  {
    HandleTwo(body, Body("done", "{}"), content);
    var p := Handle(Progress([], Open), body, content);
    if p.ending == Open {
      DoneEnds(p, content);
    }
    NeverClosed(Progress([], Open), [body], content);
    HandleOne(body, content);
  }

  lemma NothingIsReceived(content: string -> string)
    ensures Receive("", content) == Progress([], Closed)
    ensures Receive(DONE_EVENT, content) == Progress([], Done)
  {
    assert Find("", 0, true).None?;
    LastFrame(DONE_EVENT);
    HandleOne(Body("done", "{}"), content);
    DoneEnds(Progress([], Open), content);
  }

  /** End to end: on every cut of the server's output into chunks, the client ends up with exactly the text, the
      error or the silence that the server decided on. */
  lemma ClientSeesOutcome(o: Outcome, chunks: seq<string>, content: string -> string, other: string -> Value)
    requires Reads(content, other)
    requires Concat(chunks) == Concat(Emitted(o)) && o != Shown("") && o != Failure("")
    ensures Receive(Concat(chunks), content) == Seen(o)
  {
    match o
    case Shown(text) => AnswerIsReceived("message", "content", text, content, other);
    case Failure(text) => AnswerIsReceived("error", "message", text, content, other);
    case Empty =>
      ConcatOfOne(DONE_EVENT);
      NothingIsReceived(content);
    case Stopped =>
      NothingIsReceived(content);
  }

  /** The whole path: a request answered by the server, its output cut into chunks anywhere, and read by the client. */
  method Converse(message: string, run: Run, guards: Guards, cut: string -> seq<string>, other: string -> Value)
    returns (texts: seq<string>, ending: Sse.Ending)
    requires forall s :: Concat(cut(s)) == s
    ensures Progress(texts, ending) == Seen(Respond(message, run, guards))
  {
    var frames := StreamLlmResponse(message, run, guards);
    var content := data => ReadContent(data, other);
    ClientSeesOutcome(Respond(message, run, guards), cut(Concat(frames)), content, other);
    texts, ending := StreamAgent(cut(Concat(frames)), content);
  }
}
