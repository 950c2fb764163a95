/** Printing frames of an event stream (section 9.2.6 of the WHATWG HTML Standard), and reading them back. */
module SseFrames {
  import opened Base
  import opened Sse

  // ---- Lines ----

  predicate LineFree(s: string)
  {
    forall i :: 0 <= i < |s| ==> s[i] != '\n' && s[i] != '\r'
  }

  /** A value that fits one line and that trimming leaves alone. */
  predicate OneLine(s: string)
  {
    LineFree(s) && (s != "" ==> !IsJsSpace(s[0]))
  }

  predicate LineEnd(eol: string)
  {
    eol == "\n" || eol == "\r\n"
  }

  function JoinWith(lines: seq<string>, eol: string): (s: string)
    requires lines != []
  {
    if |lines| == 1 then lines[0] else lines[0] + eol + JoinWith(lines[1..], eol)
  }

  lemma FoundAt(s: string, j: nat, blank: bool)
    requires Separator(s, j, blank) > 0 && forall k: nat :: k < j ==> Separator(s, k, blank) == 0
    ensures Find(s, 0, blank) == Some(j)
  {
    var found := Find(s, 0, blank);
    assert found.Some?;
    assert found.value <= j;
  }

  lemma SplitAt(s: string, j: nat, n: nat, rest: string, blank: bool)
    requires Find(s, 0, blank) == Some(j) && n == Separator(s, j, blank) && j + n <= |s| && rest == s[j + n..]
    ensures Split(s, blank) == [s[..j]] + Split(rest, blank)
  {
  }

  lemma NoBreaks(s: string)
    requires forall i :: 0 <= i < |s| ==> s[i] != '\n'
    ensures Split(s, false) == [s]
  {
    assert Find(s, 0, false).None?;
  }

  lemma FirstLine(x: string, eol: string, s: string)
    requires LineFree(x) && LineEnd(eol)
    ensures Split(x + eol + s, false) == [x] + Split(s, false)
  {
    var all, j := x + eol + s, |x|;
    assert forall k: nat :: k < j ==> all[k] == x[k];
    assert all[j] == eol[0] && (|eol| == 2 ==> all[j + 1] == eol[1]);
    assert Separator(all, j, false) == |eol|;
    forall k: nat | k < j
      ensures Separator(all, k, false) == 0
    {
      assert all[k] != '\n' && all[k] != '\r';
    }
    FoundAt(all, j, false);
    assert all[..j] == x && all[j + |eol|..] == s;
    SplitAt(all, j, |eol|, s, false);
  }

  /** Splitting by lines undoes joining them, with either line ending. */
  lemma {:induction false} SplitUndoesJoin(lines: seq<string>, eol: string)
    requires lines != [] && LineEnd(eol) && forall i :: 0 <= i < |lines| ==> LineFree(lines[i])
    ensures Split(JoinWith(lines, eol), false) == lines
  {
    if |lines| == 1 {
      NoBreaks(lines[0]);
    } else {
      FirstLine(lines[0], eol, JoinWith(lines[1..], eol));
      SplitUndoesJoin(lines[1..], eol);
    }
  }

  lemma {:induction false} JoinLinesIsJoinWith(lines: seq<string>)
    requires lines != []
    ensures JoinLines(lines) == JoinWith(lines, "\n")
  {
    if |lines| > 1 {
      var front, last := lines[..|lines| - 1], lines[|lines| - 1];
      JoinLinesIsJoinWith(front);
      JoinLast(front, last, "\n");
      assert lines == front + [last];
    }
  }

  lemma {:induction false} JoinLast(front: seq<string>, last: string, eol: string)
    requires front != []
    ensures JoinWith(front + [last], eol) == JoinWith(front, eol) + eol + last
  {
    var all := front + [last];
    if |front| == 1 {
      assert all[1..] == [last];
    } else {
      JoinLast(front[1..], last, eol);
      assert all[1..] == front[1..] + [last];
      assert front[0] + eol + (JoinWith(front[1..], eol) + eol + last)
          == front[0] + eol + JoinWith(front[1..], eol) + eol + last;
    }
  }

  /** Joining by line feeds undoes splitting, for text without carriage returns. */
  lemma {:induction false} JoinUndoesSplit(text: string)
    requires '\r' !in text
    ensures JoinWith(Split(text, false), "\n") == text
    decreases |text|
  {
    match Find(text, 0, false)
    case None =>
    case Some(j) =>
      assert Separator(text, j, false) == 1 && text[j] == '\n';
      var rest := text[j + 1..];
      SplitAt(text, j, 1, rest, false);
      JoinUndoesSplit(rest);
      assert Split(text, false)[1..] == Split(rest, false);
      assert text == text[..j] + "\n" + rest;
  }

  // ---- Frames ----

  lemma ColonIsAt(s: string, i: nat)
    requires i < |s| && s[i] == ':' && forall k :: 0 <= k < i ==> s[k] != ':'
    ensures IndexOfColon(s) == i
  {
    var j := IndexOfColon(s);
    assert j >= i;
    assert j <= i;
  }

  function Line(name: string, value: string): (s: string)
  {
    name + ": " + value
  }

  /** A line that the server prints sets its field to the printed value. */
  lemma LineSetsField(fields: Fields, name: string, value: string)
    requires name != "" && ':' !in name && OneLine(value)
    ensures
      ReadLine(fields, Line(name, value)) ==
        if name == "event" then fields.(event := value)
        else if name == "data" then fields.(data := fields.data + [value])
        else fields
  {
    var line := Line(name, value);
    assert forall k :: 0 <= k < |name| ==> line[k] == name[k];
    ColonIsAt(line, |name|);
    assert line[..|name|] == name;
    var rest := line[|name| + 1..];
    assert rest == " " + value && rest[1..] == value;
    assert TrimStart(rest) == TrimStart(value);
  }

  /** Blanks and tabs, and whatever else `trimStart` removes. */
  predicate Blank(pad: string)
  {
    forall i :: 0 <= i < |pad| ==> pad[i] == ' ' || pad[i] == '\t' || IsJsSpace(pad[i])
  }

  /** A value that `trimStart` leaves alone, as it does any that begins with visible ASCII. */
  predicate Unpadded(value: string)
  {
    value != "" ==> '!' <= value[0] <= '~' || !IsJsSpace(value[0])
  }

  lemma {:induction false} PaddingIsTrimmed(pad: string, value: string)
    requires Blank(pad) && Unpadded(value)
    ensures TrimStart(pad + value) == value
  {
    if pad == "" {
      assert pad + value == value;
    } else {
      assert (pad + value)[1..] == pad[1..] + value;
      PaddingIsTrimmed(pad[1..], value);
    }
  }

  function SetField(fields: Fields, name: string, value: string): (r: Fields)
  {
    if name == "event" then Fields(value, fields.data)
    else if name == "data" then Fields(fields.event, fields.data + [value])
    else fields
  }

  /** What one line does: with any number of blanks behind its first colon, or none; without a colon, for an empty
      value; and nothing for a comment or an empty line. Values may hold colons. */
  lemma LineIsRead(fields: Fields, name: string, pad: string, value: string)
    requires name != "" && ':' !in name && Blank(pad) && Unpadded(value)
    ensures ReadLine(fields, name + ":" + pad + value) == SetField(fields, name, value)
    ensures ReadLine(fields, name) == SetField(fields, name, "")
    ensures ReadLine(fields, ":" + value) == fields && ReadLine(fields, "") == fields
  {
    var line := name + ":" + pad + value;
    assert forall k :: 0 <= k < |name| ==> line[k] == name[k];
    ColonIsAt(line, |name|);
    assert line[..|name|] == name && line[|name| + 1..] == pad + value;
    PaddingIsTrimmed(pad, value);
    assert IndexOfColon(name) == |name| && name[..|name|] == name;
  }

  lemma ReadLast(lines: seq<string>, line: string)
    ensures ReadLines(lines + [line]) == ReadLine(ReadLines(lines), line)
  {
    assert (lines + [line])[..|lines|] == lines;
  }

  /** A blank line, a comment or a line with another field name. */
  predicate Ignored(line: string)
  {
    line == "" || line[0] == ':' || line[..IndexOfColon(line)] !in {"event", "data"}
  }

  /** Lines that are ignored make no difference, wherever they stand. */
  lemma {:induction false} IgnoredLinesAreIgnored(a: seq<string>, line: string, b: seq<string>)
    requires Ignored(line)
    ensures ReadLines(a + [line] + b) == ReadLines(a + b)
  {
    if b == [] {
      assert a + [line] + b == a + [line] && a + b == a;
      ReadLast(a, line);
    } else {
      var front, last := b[..|b| - 1], b[|b| - 1];
      IgnoredLinesAreIgnored(a, line, front);
      assert a + [line] + b == (a + [line] + front) + [last] && a + b == (a + front) + [last];
      ReadLast(a + [line] + front, last);
      ReadLast(a + front, last);
    }
  }

  predicate SetsEvent(line: string)
  {
    line == "event" || "event:" <= line
  }

  lemma EventIsNamed(line: string, name: string)
    requires name != "" && ':' !in name
    ensures (line == name || name + ":" <= line) <==> line != "" && line[0] != ':' && line[..IndexOfColon(line)] == name
  {
    if line == name || name + ":" <= line {
      assert forall k :: 0 <= k < |name| ==> line[k] == (name + ":")[k] == name[k];
      if line != name {
        assert line[|name|] == (name + ":")[|name|] == ':';
      }
      assert IndexOfColon(line) == |name| && line[..|name|] == name;
    }
  }

  lemma FieldsAreKept(fields: Fields, line: string)
    ensures ReadLine(fields, line).data == fields.data + ReadLine(Fields("", []), line).data
    ensures ReadLine(fields, line).event ==
      if SetsEvent(line) then ReadLine(Fields("", []), line).event else fields.event
  {
    EventIsNamed(line, "event");
  }

  lemma LastSets(b: seq<string>, last: string)
    ensures SomeSetsEvent(b + [last]) <==> SomeSetsEvent(b) || SetsEvent(last)
  {
    var all := b + [last];
    assert all[|b|] == last;
    assert forall k :: 0 <= k < |b| ==> all[k] == b[k];
  }

  predicate SomeSetsEvent(lines: seq<string>)
  {
    exists k :: 0 <= k < |lines| && SetsEvent(lines[k])
  }

  /** The lines of a frame one after the other: data adds up in order, the last event counts, and without any the event
      is "message". */
  lemma {:induction false} ReadLinesAppend(a: seq<string>, b: seq<string>)
    ensures ReadLines([]) == Fields("message", [])
    ensures ReadLines(a + b).data == ReadLines(a).data + ReadLines(b).data
    ensures ReadLines(a + b).event == if SomeSetsEvent(b) then ReadLines(b).event else ReadLines(a).event
  {
    if b == [] {
      assert a + b == a;
    } else {
      ReadLinesAppend(a, b[..|b| - 1]);
      AppendLine(a, b[..|b| - 1], b[|b| - 1]);
      assert b == b[..|b| - 1] + [b[|b| - 1]];
    }
  }

  lemma AppendLine(a: seq<string>, front: seq<string>, last: string)
    requires ReadLines(a + front).data == ReadLines(a).data + ReadLines(front).data
    requires ReadLines(a + front).event == if SomeSetsEvent(front) then ReadLines(front).event else ReadLines(a).event
    ensures ReadLines(a + (front + [last])).data == ReadLines(a).data + ReadLines(front + [last]).data
    ensures ReadLines(a + (front + [last])).event ==
      if SomeSetsEvent(front + [last]) then ReadLines(front + [last]).event else ReadLines(a).event
  {
    assert a + (front + [last]) == (a + front) + [last];
    ReadLast(a + front, last);
    ReadLast(front, last);
    LastSets(front, last);
    AppendField(ReadLines(a), ReadLines(front), ReadLines(a + front), SomeSetsEvent(front), last);
  }

  lemma AppendField(x: Fields, y: Fields, z: Fields, sets: bool, last: string)
    requires z.data == x.data + y.data && z.event == if sets then y.event else x.event
    ensures ReadLine(z, last).data == x.data + ReadLine(y, last).data
    ensures ReadLine(z, last).event == if sets || SetsEvent(last) then ReadLine(y, last).event else x.event
  {
    FieldsAreKept(z, last);
    FieldsAreKept(y, last);
    var added := ReadLine(Fields("", []), last).data;
    assert x.data + y.data + added == x.data + (y.data + added);
  }

  /** The lines of a frame: its event, then its data line by line. */
  function FrameLines(event: string, data: seq<string>): (lines: seq<string>)
    ensures |lines| == |data| + 1
  {
    if data == [] then [Line("event", event)]
    else FrameLines(event, data[..|data| - 1]) + [Line("data", data[|data| - 1])]
  }

  predicate AllOneLine(data: seq<string>)
  {
    forall i :: 0 <= i < |data| ==> OneLine(data[i])
  }

  lemma {:induction false} FrameLinesAreLineFree(event: string, data: seq<string>)
    requires OneLine(event) && AllOneLine(data)
    ensures forall i :: 0 <= i < |data| + 1 ==> LineFree(FrameLines(event, data)[i])
  {
    if data == [] {
    } else {
      FrameLinesAreLineFree(event, data[..|data| - 1]);
    }
  }

  lemma ReadDataLine(lines: seq<string>, event: string, data: seq<string>, last: string)
    requires ReadLines(lines) == Fields(event, data) && OneLine(last)
    ensures ReadLines(lines + [Line("data", last)]) == Fields(event, data + [last])
  {
    ReadLast(lines, Line("data", last));
    LineSetsField(Fields(event, data), "data", last);
  }

  lemma ReadEventLine(event: string)
    requires OneLine(event)
    ensures ReadLines([Line("event", event)]) == Fields(event, [])
  {
    ReadLast([], Line("event", event));
    assert [] + [Line("event", event)] == [Line("event", event)];
    LineSetsField(Fields("message", []), "event", event);
  }

  lemma FrameStep(event: string, front: seq<string>, last: string)
    requires ReadLines(FrameLines(event, front)) == Fields(event, front) && OneLine(last)
    ensures ReadLines(FrameLines(event, front + [last])) == Fields(event, front + [last])
  {
    ReadDataLine(FrameLines(event, front), event, front, last);
    FrameLinesSnoc(event, front, last);
  }

  lemma FrameLinesSnoc(event: string, front: seq<string>, last: string)
    ensures FrameLines(event, front + [last]) == FrameLines(event, front) + [Line("data", last)]
  {
    assert (front + [last])[..|front|] == front;
  }

  lemma {:induction false} FrameLinesAreRead(event: string, data: seq<string>)
    requires OneLine(event) && AllOneLine(data)
    ensures ReadLines(FrameLines(event, data)) == Fields(event, data)
  {
    if data == [] {
      ReadEventLine(event);
    } else {
      var front, last := data[..|data| - 1], data[|data| - 1];
      assert data == front + [last];
      FrameLinesAreRead(event, front);
      FrameStep(event, front, last);
    }
  }

  /** The parser undoes the printer, for any number of data lines and either line ending. */
  lemma ParseUndoesPrint(event: string, data: seq<string>, eol: string)
    requires OneLine(event) && AllOneLine(data) && LineEnd(eol)
    ensures Parse(JoinWith(FrameLines(event, data), eol)) ==
      if data == [] && event == "message" then None else Some(Frame(event, JoinLines(data)))
  {
    FrameLinesAreRead(event, data);
    FrameLinesAreLineFree(event, data);
    SplitUndoesJoin(FrameLines(event, data), eol);
  }

  /** Any text without carriage returns whose lines have no leading blank survives being sent line by line. */
  lemma TextSurvives(event: string, text: string, eol: string)
    requires OneLine(event) && '\r' !in text && AllOneLine(Split(text, false)) && LineEnd(eol)
    ensures Parse(JoinWith(FrameLines(event, Split(text, false)), eol)) == Some(Frame(event, text))
  {
    ParseUndoesPrint(event, Split(text, false), eol);
    JoinLinesIsJoinWith(Split(text, false));
    JoinUndoesSplit(text);
  }

  // ---- Frames of one data line, as the server prints them ----

  function Print(event: string, data: string): (s: string)
  {
    "event: " + event + "\ndata: " + data + "\n\n"
  }

  function Body(event: string, data: string): (s: string)
  {
    "event: " + event + "\ndata: " + data
  }

  lemma BodyIsJoined(event: string, data: string)
    ensures Body(event, data) == JoinWith(FrameLines(event, [data]), "\n")
  {
    var first, second := Line("event", event), Line("data", data);
    assert [data][..0] == [];
    assert FrameLines(event, [data]) == FrameLines(event, []) + [second] == [first, second];
    JoinLast([first], second, "\n");
    assert [first] + [second] == [first, second];
    assert Body(event, data) == first + "\n" + second;
  }

  lemma ParseUndoesBody(event: string, data: string)
    requires OneLine(event) && OneLine(data)
    ensures Parse(Body(event, data)) == Some(Frame(event, data))
  {
    ParseUndoesPrint(event, [data], "\n");
    BodyIsJoined(event, data);
  }

  /** A printed frame is cut off whole, whatever follows it. */
  lemma PrintedFrameIsCutOff(event: string, data: string, rest: string)
    requires OneLine(event) && OneLine(data)
    ensures Frames(Print(event, data) + rest) == [Body(event, data)] + Frames(rest)
    ensures Tail(Print(event, data) + rest) == Tail(rest)
  {
    var body := Body(event, data);
    var s := Print(event, data) + rest;
    assert s == body + "\n\n" + rest;
    BodyHasNoBlankLine(event, data, "\n\n" + rest);
    assert s == body + ("\n\n" + rest);
    assert s[|body|] == '\n' && s[|body| + 1] == '\n';
    assert Separator(s, |body|, true) == 2;
    forall k: nat | k < |body|
      ensures Separator(s, k, true) == 0
    {
      assert BlankLine(s, k) == 0;
    }
    FoundAt(s, |body|, true);
    SplitOnce(s, |body|);
    assert s[..|body|] == body && s[|body| + 2..] == rest;
  }

  lemma BodyHasNoBlankLine(event: string, data: string, rest: string)
    requires OneLine(event) && OneLine(data)
    ensures forall k: nat :: k < |Body(event, data)| ==> BlankLine(Body(event, data) + rest, k) == 0
  {
    var body := Body(event, data);
    var s := body + rest;
    var first := "event: " + event;
    assert body == first + "\n" + "data: " + data;
    assert forall k: nat :: k < |body| ==> s[k] == body[k];
    assert forall k: nat :: k < |body| && k != |first| ==> body[k] != '\n' && body[k] != '\r';
    assert body[|first|] == '\n' && body[|first| + 1] == 'd';
  }

  /** The four forms of a blank line behind a line. */
  predicate BlankLines(gap: string)
  {
    gap == "\n\n" || gap == "\r\n\r\n" || gap == "\n\r\n" || gap == "\r\n\n"
  }

  predicate AreLines(lines: seq<string>)
  {
    lines != [] && forall i :: 0 <= i < |lines| ==> lines[i] != "" && LineFree(lines[i])
  }

  lemma FirstCharacter(lines: seq<string>, eol: string)
    requires AreLines(lines)
    ensures JoinWith(lines, eol) != "" && JoinWith(lines, eol)[0] == lines[0][0]
  {
  }

  lemma NoBlankLineInFirst(line: string, eol: string, s: string)
    requires LineFree(line) && (eol == "" || LineEnd(eol)) && (eol != "" ==> s != "" && s[0] != '\n' && s[0] != '\r')
    ensures forall k: nat :: k < |line| + |eol| ==> BlankLine(line + eol + s, k) == 0
  {
    var all := line + eol + s;
    assert forall k: nat :: k < |line| ==> all[k] == line[k];
    assert forall k: nat :: k < |eol| ==> all[|line| + k] == eol[k];
    assert eol != "" ==> all[|line| + |eol|] == s[0];
    assert all[|line| + |eol|..] == s;
  }

  lemma BlankLineShifts(before: string, s: string, k: nat)
    ensures BlankLine(before + s, |before| + k) == BlankLine(s, k)
  {
  }

  lemma {:induction false} LinesHaveNoBlankLine(lines: seq<string>, eol: string, rest: string)
    requires AreLines(lines) && LineEnd(eol)
    ensures forall k: nat :: k < |JoinWith(lines, eol)| ==> BlankLine(JoinWith(lines, eol) + rest, k) == 0
  {
    if |lines| == 1 {
      NoBlankLineInFirst(lines[0], "", rest);
      assert lines[0] + "" + rest == lines[0] + rest;
    } else {
      var first, tail := lines[0] + eol, JoinWith(lines[1..], eol);
      LinesHaveNoBlankLine(lines[1..], eol, rest);
      FirstCharacter(lines[1..], eol);
      NoBlankLineInFirst(lines[0], eol, tail + rest);
      assert JoinWith(lines, eol) + rest == first + (tail + rest);
      forall k: nat | k < |JoinWith(lines, eol)|
        ensures BlankLine(first + (tail + rest), k) == 0
      {
        if k >= |first| {
          BlankLineShifts(first, tail + rest, k - |first|);
        }
      }
    }
  }

  /** A frame of any lines, joined with either line ending, is cut off whole by a blank line in any of its forms. */
  lemma FrameIsCutOff(lines: seq<string>, eol: string, gap: string, rest: string)
    requires AreLines(lines) && LineEnd(eol) && BlankLines(gap)
    ensures Frames(JoinWith(lines, eol) + gap + rest) == [JoinWith(lines, eol)] + Frames(rest)
    ensures Tail(JoinWith(lines, eol) + gap + rest) == Tail(rest)
  {
    var body := JoinWith(lines, eol);
    var s := body + (gap + rest);
    assert body + gap + rest == s;
    LinesHaveNoBlankLine(lines, eol, gap + rest);
    BlankLineShifts(body, gap + rest, 0);
    assert BlankLine(gap + rest, 0) == |gap|;
    assert forall k: nat :: k < |body| ==> Separator(s, k, true) == BlankLine(s, k);
    FoundAt(s, |body|, true);
    SplitOnce(s, |body|);
    assert s[..|body|] == body && s[|body| + |gap|..] == rest;
  }

  // ---- What a client makes of frames ----

  /** The effect of one frame on a stream that is still open: "done" and "error" end it, the latter with its text or a
      fixed one; any other event shows its text, if it has one. */
  lemma FrameIsHandled(texts: seq<string>, event: string, data: string, content: string -> string)
    requires OneLine(event) && OneLine(data)
    ensures Handle(Progress(texts, Open), Body(event, data), content) ==
      if event == "done" then Progress(texts, Done)
      else if event == "error" then
        Progress(texts, Failed(if content(data) == "" then "The agent stream failed." else content(data)))
      else if content(data) == "" then Progress(texts, Open)
      else Progress(texts + [content(data)], Open)
  {
    ParseUndoesBody(event, data);
  }

  /** Frames as a server prints them, one after the other. */
  function PrintAll(frames: seq<Frame>): (s: string)
  {
    if frames == [] then ""
    else
      var last := frames[|frames| - 1];
      PrintAll(frames[..|frames| - 1]) + Print(last.event, last.data)
  }

  function Contents(frames: seq<Frame>, content: string -> string): (texts: seq<string>)
  {
    seq(|frames|, i requires 0 <= i < |frames| => content(frames[i].data))
  }

  /** Frames with a text that do not end the stream. */
  predicate Chatting(frames: seq<Frame>, content: string -> string)
  {
    forall i :: 0 <= i < |frames| ==>
      OneLine(frames[i].event) && OneLine(frames[i].data) && frames[i].event != "done" && frames[i].event != "error"
      && content(frames[i].data) != ""
  }

  lemma FirstIsHandled(texts: seq<string>, f: Frame, frames: seq<string>, content: string -> string)
    requires Chatting([f], content)
    ensures HandleAll(Progress(texts, Open), [Body(f.event, f.data)] + frames, content)
      == HandleAll(Progress(texts + [content(f.data)], Open), frames, content)
  {
    var body := Body(f.event, f.data);
    assert [f][0] == f;
    FrameIsHandled(texts, f.event, f.data, content);
    HandleAllAppend(Progress(texts, Open), [body], frames, content);
    assert [body][..0] == [];
    assert HandleAll(Progress(texts, Open), [body], content) == Handle(Progress(texts, Open), body, content);
  }

  lemma PrintedLast(front: seq<Frame>, last: Frame, rest: string)
    ensures PrintAll(front + [last]) + rest == PrintAll(front) + (Print(last.event, last.data) + rest)
  {
    assert (front + [last])[..|front|] == front;
    Reassociate(PrintAll(front), Print(last.event, last.data), rest);
  }

  lemma Reassociate(a: string, b: string, c: string)
    ensures a + b + c == a + (b + c)
  {
  }

  lemma ContentsLast(front: seq<Frame>, last: Frame, content: string -> string)
    ensures Contents(front + [last], content) == Contents(front, content) + [content(last.data)]
  {
  }

  lemma ChattingApart(front: seq<Frame>, last: Frame, content: string -> string)
    requires Chatting(front + [last], content)
    ensures Chatting(front, content) && Chatting([last], content)
  {
    assert (front + [last])[|front|] == last;
    assert forall i :: 0 <= i < |front| ==> (front + [last])[i] == front[i];
  }

  lemma ChattingStep(start: Progress, front: seq<Frame>, last: Frame, rest: string, content: string -> string)
    requires Chatting([last], content)
    requires HandleAll(start, Frames(PrintAll(front) + (Print(last.event, last.data) + rest)), content)
      == HandleAll(Progress(Contents(front, content), Open), Frames(Print(last.event, last.data) + rest), content)
    ensures HandleAll(start, Frames(PrintAll(front + [last]) + rest), content)
      == HandleAll(Progress(Contents(front + [last], content), Open), Frames(rest), content)
  {
    assert [last][0] == last;
    PrintedLast(front, last, rest);
    PrintedFrameIsCutOff(last.event, last.data, rest);
    FirstIsHandled(Contents(front, content), last, Frames(rest), content);
    ContentsLast(front, last, content);
  }

  lemma {:induction false} ChattingFrames(frames: seq<Frame>, rest: string, content: string -> string)
    requires Chatting(frames, content)
    ensures HandleAll(Progress([], Open), Frames(PrintAll(frames) + rest), content)
      == HandleAll(Progress(Contents(frames, content), Open), Frames(rest), content)
  {
    if frames == [] {
      assert "" + rest == rest && Contents(frames, content) == [];
    } else {
      var front, last := frames[..|frames| - 1], frames[|frames| - 1];
      assert frames == front + [last];
      ChattingApart(front, last, content);
      ChattingFrames(front, Print(last.event, last.data) + rest, content);
      ChattingStep(Progress([], Open), front, last, rest, content);
    }
  }

  /** A conversation of any length: a client emits the text of every frame in order, is done at a done frame whatever
      follows it, and closed if the stream breaks off, be it in the middle of a frame. */
  lemma EveryTextIsEmitted(frames: seq<Frame>, rest: string, content: string -> string)
    requires Chatting(frames, content)
    ensures Receive(PrintAll(frames) + (Print("done", "{}") + rest), content)
      == Progress(Contents(frames, content), Done)
    ensures Split(rest, true) == [rest] ==>
      Receive(PrintAll(frames) + rest, content) == Progress(Contents(frames, content), Closed)
  {
    ChattingFrames(frames, Print("done", "{}") + rest, content);
    DoneFirst(Contents(frames, content), rest, content);
    ChattingFrames(frames, rest, content);
  }

  lemma DoneFirst(texts: seq<string>, rest: string, content: string -> string)
    ensures HandleAll(Progress(texts, Open), Frames(Print("done", "{}") + rest), content) == Progress(texts, Done)
  {
    var p := Progress(texts, Open);
    var body := Body("done", "{}");
    PrintedFrameIsCutOff("done", "{}", rest);
    FrameIsHandled(texts, "done", "{}", content);
    HandleAllAppend(p, [body], Frames(rest), content);
    assert [body][..0] == [];
    assert HandleAll(p, [body], content) == Handle(p, body, content);
    EndedStaysEnded(Progress(texts, Done), Frames(rest), content);
  }
}
