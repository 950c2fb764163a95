/** The browser's side of the event stream: splitting text into frames, reading a frame, and the read loop. */
module Sse {
  import opened Base

  // ---- Splitting, as String.prototype.split does with these two patterns ----

  /** The length of a match of \r?\n at `i`, or 0. */
  function LineBreak(s: string, i: nat): (n: nat)
  {
    if i < |s| && s[i] == '\n' then 1
    else if i + 1 < |s| && s[i] == '\r' && s[i + 1] == '\n' then 2
    else 0
  }

  /** The length of a match of \r?\n\r?\n at `i`, or 0. */
  function BlankLine(s: string, i: nat): (n: nat)
    ensures n > 0 ==> i + n <= |s| && n >= 2
  {
    var first := LineBreak(s, i);
    if first == 0 || LineBreak(s, i + first) == 0 then 0 else first + LineBreak(s, i + first)
  }

  function Separator(s: string, i: nat, blank: bool): (n: nat)
    ensures n > 0 ==> i + n <= |s|
  {
    if blank then BlankLine(s, i) else LineBreak(s, i)
  }

  /** The first position from `i` on where a separator begins. */
  function Find(s: string, i: nat, blank: bool): (j: Option<nat>)
    ensures j.Some? ==> i <= j.value && Separator(s, j.value, blank) > 0
    ensures j.Some? ==> forall k :: i <= k < j.value ==> Separator(s, k, blank) == 0
    ensures j.None? ==> forall k :: i <= k ==> Separator(s, k, blank) == 0
    decreases |s| - i
  {
    if Separator(s, i, blank) > 0 then Some(i)
    else if i >= |s| then None
    else Find(s, i + 1, blank)
  }

  function Split(s: string, blank: bool): (pieces: seq<string>)
    ensures |pieces| >= 1
    decreases |s|
  {
    match Find(s, 0, blank)
    case None => [s]
    case Some(j) => [s[..j]] + Split(s[j + Separator(s, j, blank)..], blank)
  }

  /** `split` by blank lines, then `pop`: the complete frames and the partial tail. */
  function Frames(s: string): (frames: seq<string>)
  {
    var pieces := Split(s, true);
    pieces[..|pieces| - 1]
  }

  function Tail(s: string): (tail: string)
  {
    var pieces := Split(s, true);
    pieces[|pieces| - 1]
  }

  // ---- One frame ----

  datatype Frame = Frame(event: string, data: string)

  /** What `trimStart` removes: white space and line terminators of ECMAScript. */
  predicate IsJsSpace(c: char)
  {
    var k := c as int;
    || 0x09 <= k <= 0x0D || k == 0x20 || k == 0xA0 || k == 0x1680 || 0x2000 <= k <= 0x200A
    || k == 0x2028 || k == 0x2029 || k == 0x202F || k == 0x205F || k == 0x3000 || k == 0xFEFF
  }

  function TrimStart(s: string): (r: string)
  {
    if s != "" && IsJsSpace(s[0]) then TrimStart(s[1..]) else s
  }

  function IndexOfColon(s: string): (i: nat)
    ensures i <= |s|
    ensures i < |s| ==> s[i] == ':'
    ensures forall k :: 0 <= k < i ==> s[k] != ':'
  {
    if s == "" || s[0] == ':' then 0 else 1 + IndexOfColon(s[1..])
  }

  datatype Fields = Fields(event: string, data: seq<string>)

  /** The effect of one line. */
  function ReadLine(fields: Fields, line: string): (r: Fields)
  {
    if line == "" || line[0] == ':' then fields
    else
      var colon := IndexOfColon(line);
      var field := line[..colon];
      var value := if colon == |line| then "" else TrimStart(line[colon + 1..]);
      if field == "event" then fields.(event := value)
      else if field == "data" then fields.(data := fields.data + [value])
      else fields
  }

  function ReadLines(lines: seq<string>): (r: Fields)
  {
    if lines == [] then Fields("message", [])
    else ReadLine(ReadLines(lines[..|lines| - 1]), lines[|lines| - 1])
  }

  function JoinLines(data: seq<string>): (s: string)
  {
    if data == [] then ""
    else if |data| == 1 then data[0]
    else JoinLines(data[..|data| - 1]) + "\n" + data[|data| - 1]
  }

  function Parse(frame: string): (r: Option<Frame>)
  {
    var fields := ReadLines(Split(frame, false));
    if fields.data != [] || fields.event != "message" then Some(Frame(fields.event, JoinLines(fields.data))) else None
  }

  method ParseSseFrame(frame: string) returns (r: Option<Frame>)
    ensures r == Parse(frame)
  {
    var event, data := "message", [];
    var lines := Split(frame, false);
    for i := 0 to |lines|
      invariant Fields(event, data) == ReadLines(lines[..i])
    {
      var line := lines[i];
      assert lines[..i + 1][..i] == lines[..i];
      if line == "" || line[0] == ':' {
        continue;
      }
      var separator := IndexOfColon(line);
      var value := if separator == |line| then "" else TrimStart(line[separator + 1..]);
      if line[..separator] == "event" {
        event := value;
      } else if line[..separator] == "data" {
        data := data + [value];
      }
    }
    assert lines[..|lines|] == lines;
    r := if data != [] || event != "message" then Some(Frame(event, JoinLines(data))) else None;
  }

  // ---- The read loop ----

  /** A stream is `Open` while it is read; it ends with a done event, an error event, or the end of the body. */
  datatype Ending = Open | Done | Failed(message: string) | Closed

  datatype Progress = Progress(texts: seq<string>, ending: Ending)

  const STREAM_FAILED := "The agent stream failed."

  /** The effect of one frame; `content` is `readContent`. */
  function Handle(p: Progress, frame: string, content: string -> string): (r: Progress)
  {
    if p.ending != Open then p
    else
      match Parse(frame)
      case None => p
      case Some(f) =>
        var text := content(f.data);
        if f.event == "done" then p.(ending := Done)
        else if f.event == "error" then p.(ending := Failed(if text == "" then STREAM_FAILED else text))
        else if text == "" then p
        else p.(texts := p.texts + [text])
  }

  function HandleAll(p: Progress, frames: seq<string>, content: string -> string): (r: Progress)
  {
    if frames == [] then p
    else Handle(HandleAll(p, frames[..|frames| - 1], content), frames[|frames| - 1], content)
  }

  /** What a client would emit that had the whole text at once. */
  function Receive(text: string, content: string -> string): (r: Progress)
  {
    var p := HandleAll(Progress([], Open), Frames(text), content);
    if p.ending == Open then p.(ending := Closed) else p
  }

  /** A separator that is complete stays where it is when more text arrives, and no earlier one appears. */
  lemma FindExtends(a: string, b: string, j: nat)
    requires Find(a, 0, true) == Some(j)
    ensures Find(a + b, 0, true) == Some(j) && BlankLine(a + b, j) == BlankLine(a, j)
  {
    var s := a + b;
    assert BlankLine(s, j) == BlankLine(a, j);
    forall k | 0 <= k < j
      ensures BlankLine(s, k) == 0
    {
      assert Separator(a, k, true) == 0;
    }
    assert forall k | 0 <= k < j :: Separator(s, k, true) == BlankLine(s, k);
    assert Separator(s, j, true) > 0;
  }

  lemma ConsFrontLast(x: string, pieces: seq<string>)
    requires pieces != []
    ensures ([x] + pieces)[..|pieces|] == [x] + pieces[..|pieces| - 1]
    ensures ([x] + pieces)[|pieces|] == pieces[|pieces| - 1]
  {
  }

  lemma SplitOnce(s: string, j: nat)
    requires Find(s, 0, true) == Some(j)
    ensures
      var rest := s[j + BlankLine(s, j)..];
      Frames(s) == [s[..j]] + Frames(rest) && Tail(s) == Tail(rest)
  {
    var rest := s[j + BlankLine(s, j)..];
    assert Split(s, true) == [s[..j]] + Split(rest, true);
    ConsFrontLast(s[..j], Split(rest, true));
  }

  /** Splitting can be resumed: the frames of a longer text are those of its beginning, then those of the kept tail with
      the rest. */
  lemma {:induction false} SplitResumes(a: string, b: string)
    ensures Frames(a + b) == Frames(a) + Frames(Tail(a) + b)
    ensures Tail(a + b) == Tail(Tail(a) + b)
    decreases |a|
  {
    match Find(a, 0, true)
    case None =>
      assert Frames(a) == [] && Tail(a) == a;
    case Some(j) =>
      FindExtends(a, b, j);
      var n := j + BlankLine(a, j);
      assert (a + b)[..j] == a[..j] && (a + b)[n..] == a[n..] + b;
      SplitResumes(a[n..], b);
      SplitOnce(a, j);
      SplitOnce(a + b, j);
  }

  lemma {:induction false} HandleAllAppend(p: Progress, a: seq<string>, b: seq<string>, content: string -> string)
    ensures HandleAll(p, a + b, content) == HandleAll(HandleAll(p, a, content), b, content)
  {
    if b == [] {
      assert a + b == a;
    } else {
      HandleAllAppend(p, a, b[..|b| - 1], content);
      assert (a + b)[..|a + b| - 1] == a + b[..|b| - 1];
    }
  }

  lemma {:induction false} EndedStaysEnded(p: Progress, frames: seq<string>, content: string -> string)
    requires p.ending != Open
    ensures HandleAll(p, frames, content) == p
  {
    if frames != [] {
      EndedStaysEnded(p, frames[..|frames| - 1], content);
    }
  }

  lemma EndedAt(p: Progress, frames: seq<string>, k: nat, content: string -> string)
    requires k <= |frames| && HandleAll(p, frames[..k], content).ending != Open
    ensures HandleAll(p, frames, content) == HandleAll(p, frames[..k], content)
  {
    assert frames == frames[..k] + frames[k..];
    HandleAllAppend(p, frames[..k], frames[k..], content);
    EndedStaysEnded(HandleAll(p, frames[..k], content), frames[k..], content);
  }

  lemma {:induction false} ConcatSplits(chunks: seq<string>, k: nat)
    requires k <= |chunks|
    ensures Concat(chunks) == Concat(chunks[..k]) + Concat(chunks[k..])
  {
    if k == |chunks| {
      assert chunks[..k] == chunks && Concat(chunks[k..]) == "";
    } else {
      var front := chunks[..|chunks| - 1];
      ConcatSplits(front, k);
      assert front[..k] == chunks[..k];
      assert chunks[k..][..|chunks[k..]| - 1] == front[k..];
    }
  }

  /** After the frames of a beginning have ended the stream, the rest of the text does not matter. */
  lemma EndedEarly(chunks: seq<string>, k: nat, content: string -> string)
    requires k <= |chunks|
    requires HandleAll(Progress([], Open), Frames(Concat(chunks[..k])), content).ending != Open
    ensures Receive(Concat(chunks), content) == HandleAll(Progress([], Open), Frames(Concat(chunks[..k])), content)
  {
    var a, b := Concat(chunks[..k]), Concat(chunks[k..]);
    ConcatSplits(chunks, k);
    SplitResumes(a, b);
    var p := HandleAll(Progress([], Open), Frames(a), content);
    HandleAllAppend(Progress([], Open), Frames(a), Frames(Tail(a) + b), content);
    EndedStaysEnded(p, Frames(Tail(a) + b), content);
  }

  lemma {:induction false} HandleAllGrows(p: Progress, frames: seq<string>, content: string -> string)
    ensures p.texts <= HandleAll(p, frames, content).texts
  {
    if frames != [] {
      HandleAllGrows(p, frames[..|frames| - 1], content);
    }
  }

  /** A stream cut short shows a beginning of what the whole one shows; and if it ended with a done or an error, it
      shows all of it. */
  lemma CutShort(a: string, b: string, content: string -> string)
    ensures Receive(a, content).texts <= Receive(a + b, content).texts
    ensures Receive(a, content).ending != Closed ==> Receive(a + b, content) == Receive(a, content)
  {
    var start := Progress([], Open);
    var more := Frames(Tail(a) + b);
    SplitResumes(a, b);
    HandleAllAppend(start, Frames(a), more, content);
    var p := HandleAll(start, Frames(a), content);
    HandleAllGrows(p, more, content);
    NeverClosed(start, Frames(a), content);
    if p.ending != Open {
      EndedStaysEnded(p, more, content);
    }
  }

  lemma {:induction false} NeverClosed(p: Progress, frames: seq<string>, content: string -> string)
    requires p.ending != Closed
    ensures HandleAll(p, frames, content).ending != Closed
  {
    if frames != [] {
      NeverClosed(p, frames[..|frames| - 1], content);
    }
  }

  /** The inner loop: the complete frames of a buffer, up to one that ends the stream. */
  method DispatchFrames(before: seq<string>, frames: seq<string>, content: string -> string)
    returns (texts: seq<string>, ending: Ending)
    ensures Progress(texts, ending) == HandleAll(Progress(before, Open), frames, content)
  {
    texts, ending := before, Open;
    for k := 0 to |frames|
      invariant ending == Open
      invariant Progress(texts, Open) == HandleAll(Progress(before, Open), frames[..k], content)
    {
      assert frames[..k + 1][..k] == frames[..k];
      var frame := ParseSseFrame(frames[k]);
      if frame.None? {
        continue;
      }
      var text := content(frame.value.data);
      if frame.value.event == "done" || frame.value.event == "error" {
        ending := if frame.value.event == "done" then Done else Failed(if text == "" then STREAM_FAILED else text);
        EndedAt(Progress(before, Open), frames, k + 1, content);
        return;
      }
      if text != "" {
        texts := texts + [text];
      }
    }
    assert frames[..|frames|] == frames;
  }

  /** Chunk independence: however the text is cut into chunks, the loop that appends a chunk to its buffer, splits, and
      keeps the tail emits what a client emits that splits the whole text once, and ends the same way. */
  method StreamAgent(chunks: seq<string>, content: string -> string) returns (texts: seq<string>, ending: Ending)
    ensures Progress(texts, ending) == Receive(Concat(chunks), content)
  {
    texts, ending := [], Open;
    var buffer := "";
    assert Find("", 0, true).None?;
    for i := 0 to |chunks|
      invariant ending == Open
      invariant buffer == Tail(Concat(chunks[..i]))
      invariant Progress(texts, Open) == HandleAll(Progress([], Open), Frames(Concat(chunks[..i])), content)
    {
      assert chunks[..i + 1][..i] == chunks[..i];
      SplitResumes(Concat(chunks[..i]), chunks[i]);
      buffer := buffer + chunks[i];
      HandleAllAppend(Progress([], Open), Frames(Concat(chunks[..i])), Frames(buffer), content);
      texts, ending := DispatchFrames(texts, Frames(buffer), content);
      buffer := Tail(buffer);
      if ending != Open {
        EndedEarly(chunks, i + 1, content);
        return;
      }
    }
    assert chunks[..|chunks|] == chunks;
    ending := Closed;
  }
}
