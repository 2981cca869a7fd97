/**
 Server-Sent Event frames, read back by the event stream interpretation of the WHATWG HTML
 Living Standard, sections 9.2.5 and 9.2.6.
 */
module Sse {
  import opened Text

  const LF := "\n"

  /** Python's `s.split("\n")`: never empty. */
  function SplitLf(s: string): (lines: seq<string>)
    ensures |lines| >= 1
  {
    if s == "" then [""]
    else
      var rest := SplitLf(s[1..]);
      if s[0] == '\n' then [""] + rest else [[s[0]] + rest[0]] + rest[1..]
  }

  function DataLines(lines: seq<string>): seq<string> {
    if lines == [] then [] else ["data: " + lines[0]] + DataLines(lines[1..])
  }

  /** The lines of one frame: the event name, then one data line per payload line. */
  function FrameLines(event: string, payload: string): seq<string> {
    ["event: " + event] + DataLines(SplitLf(payload))
  }

  function EventFrame(event: string, payload: string): string {
    Join(LF, FrameLines(event, payload)) + "\n\n"
  }

  function CommentFrame(text: string): string {
    ": " + text + "\n\n"
  }

  /** Encodes one frame for a payload that is already text. */
  method FormatSse(event: string, payload: string) returns (frame: string)
    ensures frame == EventFrame(event, payload)
  {
    var lines := ["event: " + event];
    var parts := SplitLf(payload);
    for i := 0 to |parts|
      invariant lines + DataLines(parts[i..]) == FrameLines(event, payload)
    {
      assert parts[i..][1..] == parts[i + 1..];
      lines := lines + ["data: " + parts[i]];
    }
    assert parts[|parts|..] == [] && lines + [] == lines;
    frame := Join(LF, lines) + "\n\n";
  }

  // ----- the receiving side -----

  predicate IsBreak(c: char) { c == '\n' || c == '\r' }

  /** The number of characters before the first line break. */
  function LineLength(s: string): (n: nat)
    ensures n <= |s|
    ensures forall i :: 0 <= i < n ==> !IsBreak(s[i])
    ensures n < |s| ==> IsBreak(s[n])
  {
    if s == "" || IsBreak(s[0]) then 0 else 1 + LineLength(s[1..])
  }

  /** The terminated lines of a stream: LF, CR and CR LF each end one; an unfinished line is dropped. */
  function Lines(s: string): seq<string>
    decreases |s|
  {
    var n := LineLength(s);
    if n == |s| then []
    else
      var skip := if s[n] == '\r' && n + 1 < |s| && s[n + 1] == '\n' then 2 else 1;
      [s[..n]] + Lines(s[n + skip..])
  }

  datatype Message = Message(event: string, data: string)

  /** The event type and data buffers. */
  datatype Buffers = Buffers(event: string, data: string)

  const EMPTY := Buffers("", "")

  function ColonAt(line: string): (n: nat)
    ensures n <= |line|
  {
    if line == "" || line[0] == ':' then 0 else 1 + ColonAt(line[1..])
  }

  function DropSpace(value: string): string {
    if value != "" && value[0] == ' ' then value[1..] else value
  }

  /** Sets the event type, appends a data line, or ignores any other field. */
  function Process(b: Buffers, field: string, value: string): Buffers {
    if field == "event" then b.(event := value)
    else if field == "data" then b.(data := b.data + value + LF)
    else b
  }

  function FieldLine(b: Buffers, line: string): Buffers {
    var n := ColonAt(line);
    if n == |line| then Process(b, line, "")
    else if n == 0 then b
    else Process(b, line[..n], DropSpace(line[n + 1..]))
  }

  /** What an empty line dispatches: nothing without data, otherwise the data without its last line break. */
  function Dispatch(b: Buffers): seq<Message> {
    if b.data == "" then []
    else [Message(if b.event == "" then "message" else b.event, b.data[..|b.data| - 1])]
  }

  function Interpret(b: Buffers, lines: seq<string>): seq<Message>
    decreases lines
  {
    if lines == [] then []
    else if lines[0] == "" then Dispatch(b) + Interpret(EMPTY, lines[1..])
    else Interpret(FieldLine(b, lines[0]), lines[1..])
  }

  /** The messages a client receives from a stream. */
  function Receive(stream: string): seq<Message> {
    Interpret(EMPTY, Lines(stream))
  }

  // ----- the round trip -----

  ghost predicate OneLine(s: string) {
    forall i :: 0 <= i < |s| ==> !IsBreak(s[i])
  }

  lemma {:induction false} LineLengthOf(line: string, rest: string)
    requires OneLine(line)
    ensures LineLength(line + LF + rest) == |line|
  {
    var s := line + LF + rest;
    assert s[|line|] == '\n';
    assert forall i :: 0 <= i < |line| ==> s[i] == line[i];
  }

  /** A line ended by LF is read back whole. */
  lemma FirstLine(line: string, rest: string)
    requires OneLine(line)
    ensures Lines(line + LF + rest) == [line] + Lines(rest)
  {
    hide IsBreak, LineLength;
    var s := line + LF + rest;
    LineLengthOf(line, rest);
    assert s[..|line|] == line && s[|line| + 1..] == rest && s[|line|] == '\n';
  }

  lemma {:induction false} ReadJoined(lines: seq<string>, rest: string)
    requires lines != [] && forall i :: 0 <= i < |lines| ==> OneLine(lines[i])
    ensures Lines(Join(LF, lines) + "\n\n" + rest) == lines + [""] + Lines(rest)
  {
    hide OneLine, Lines;
    if |lines| == 1 {
      assert lines == [lines[0]];
      assert Join(LF, lines) + "\n\n" + rest == lines[0] + LF + (LF + rest);
      FirstLine(lines[0], LF + rest);
      BlankLine(rest);
    } else {
      var tail := lines[1..];
      ReadJoined(tail, rest);
      assert Join(LF, lines) + "\n\n" + rest == lines[0] + LF + (Join(LF, tail) + "\n\n" + rest);
      FirstLine(lines[0], Join(LF, tail) + "\n\n" + rest);
      assert [lines[0]] + (tail + [""] + Lines(rest)) == lines + [""] + Lines(rest);
    }
  }

  lemma BlankLine(rest: string)
    ensures Lines(LF + rest) == [""] + Lines(rest)
  {
    hide Lines;
    FirstLine("", rest);
    assert "" + LF + rest == LF + rest;
  }

  lemma {:induction false} SplitLines(s: string)
    requires '\r' !in s
    ensures forall i :: 0 <= i < |SplitLf(s)| ==> OneLine(SplitLf(s)[i])
  {
    if s != "" {
      SplitLines(s[1..]);
      assert forall i :: 0 <= i < |s[1..]| ==> s[1..][i] in s;
    }
  }

  lemma {:induction false} ColonAfter(name: string, rest: string)
    requires ':' !in name
    ensures ColonAt(name + [':'] + rest) == |name|
  {
    var line := name + [':'] + rest;
    if name == "" {
      assert line[0] == ':';
    } else {
      ColonAfter(name[1..], rest);
      assert line[1..] == name[1..] + [':'] + rest;
      assert line[0] == name[0];
    }
  }

  /** A written field line is read back as that field and value. */
  lemma ReadField(b: Buffers, name: string, value: string)
    requires ':' !in name && name != ""
    ensures FieldLine(b, name + ": " + value) == Process(b, name, value)
  {
    hide Process, ColonAt;
    var line := name + ": " + value;
    assert line == name + [':'] + (" " + value);
    ColonAfter(name, " " + value);
    assert line[..|name|] == name && line[|name| + 1..] == " " + value;
    assert (" " + value)[1..] == value;
  }

  /** The data buffer after the data lines: every line followed by a line break. */
  function Buffered(data: string, lines: seq<string>): string
    decreases lines
  {
    if lines == [] then data else Buffered(data + lines[0] + LF, lines[1..])
  }

  lemma {:induction false} ReadData(b: Buffers, lines: seq<string>, rest: seq<string>)
    ensures Interpret(b, DataLines(lines) + rest) == Interpret(Buffers(b.event, Buffered(b.data, lines)), rest)
    decreases lines
  {
    hide FieldLine;
    if lines == [] {
      assert DataLines(lines) + rest == rest;
    } else {
      ReadField(b, "data", lines[0]);
      var all := DataLines(lines) + rest;
      assert all[0] == "data" + ": " + lines[0];
      assert all[1..] == DataLines(lines[1..]) + rest;
      ReadData(Process(b, "data", lines[0]), lines[1..], rest);
    }
  }

  lemma {:induction false} BufferedSplit(data: string, s: string)
    ensures Buffered(data, SplitLf(s)) == data + s + LF
    decreases s
  {
    if s == "" {
      assert [""][1..] == [];
      assert data + "" + LF == data + s + LF;
    } else {
      var rest := SplitLf(s[1..]);
      if s[0] == '\n' {
        assert ([""] + rest)[1..] == rest;
        BufferedSplit(data + "" + LF, s[1..]);
        assert data + "" + LF + s[1..] + LF == data + s + LF;
      } else {
        BufferedSplit(data + [s[0]], s[1..]);
        assert Buffered(data + [s[0]], rest) == Buffered(data + [s[0]] + rest[0] + LF, rest[1..]);
        assert data + [s[0]] + rest[0] + LF == data + ([s[0]] + rest[0]) + LF;
        assert ([[s[0]] + rest[0]] + rest[1..])[1..] == rest[1..];
        assert data + [s[0]] + s[1..] + LF == data + s + LF;
      }
    }
  }

  /** The frames a server sends: events, and comments that keep the connection warm. */
  datatype Frame = Sent(event: string, payload: string) | Comment(text: string)

  ghost predicate Sendable(f: Frame) {
    match f
    case Sent(event, payload) => event != "" && OneLine(event) && '\r' !in payload
    case Comment(text) => OneLine(text)
  }

  function EncodeFrame(f: Frame): string {
    match f
    case Sent(event, payload) => EventFrame(event, payload)
    case Comment(text) => CommentFrame(text)
  }

  function Encode(frames: seq<Frame>): string {
    if frames == [] then "" else EncodeFrame(frames[0]) + Encode(frames[1..])
  }

  function MessagesOf(frames: seq<Frame>): seq<Message> {
    if frames == [] then []
    else (if frames[0].Sent? then [Message(frames[0].event, frames[0].payload)] else []) + MessagesOf(frames[1..])
  }

  lemma DataLinesOneLine(lines: seq<string>)
    requires forall i :: 0 <= i < |lines| ==> OneLine(lines[i])
    ensures forall i :: 0 <= i < |DataLines(lines)| ==> OneLine(DataLines(lines)[i])
  {
    if lines != [] { DataLinesOneLine(lines[1..]); }
  }

  /** One event frame at the head of a stream is read as its event and payload. */
  lemma ReadEventFrame(event: string, payload: string, rest: string)
    requires event != "" && OneLine(event) && '\r' !in payload
    ensures Receive(EventFrame(event, payload) + rest) == [Message(event, payload)] + Receive(rest)
  {
    hide Lines, FieldLine, SplitLf, DataLines, Join;
    var split := SplitLf(payload);
    var data := DataLines(split);
    var lines := ["event: " + event] + data;
    SplitLines(payload);
    DataLinesOneLine(split);
    assert OneLine("event: " + event);
    ReadJoined(lines, rest);
    var remaining := [""] + Lines(rest);
    assert lines + [""] + Lines(rest) == ["event: " + event] + (data + remaining);
    assert "event: " + event == "event" + ": " + event;
    ReadField(EMPTY, "event", event);
    assert (["event: " + event] + (data + remaining))[1..] == data + remaining;
    assert Interpret(EMPTY, ["event: " + event] + (data + remaining))
      == Interpret(Buffers(event, ""), data + remaining);
    ReadData(Buffers(event, ""), split, remaining);
    BufferedSplit("", payload);
    DispatchFrame(event, payload, remaining);
    assert remaining[1..] == Lines(rest);
  }

  lemma DispatchFrame(event: string, payload: string, remaining: seq<string>)
    requires event != "" && remaining != [] && remaining[0] == ""
    ensures Interpret(Buffers(event, "" + payload + LF), remaining)
      == [Message(event, payload)] + Interpret(EMPTY, remaining[1..])
  {
    var data := "" + payload + LF;
    assert data[..|data| - 1] == payload;
  }

  lemma SkipComment(line: string, rest: seq<string>)
    requires line != "" && line[0] == ':'
    ensures Interpret(EMPTY, [line] + ([""] + rest)) == Interpret(EMPTY, rest)
  {
    var lines := [line] + ([""] + rest);
    assert lines[1..] == [""] + rest;
    assert ([""] + rest)[1..] == rest;
    assert FieldLine(EMPTY, line) == EMPTY;
    assert Interpret(EMPTY, [""] + rest) == Interpret(EMPTY, rest);
  }

  lemma ReadCommentFrame(text: string, rest: string)
    requires OneLine(text)
    ensures Receive(CommentFrame(text) + rest) == Receive(rest)
  {
    hide Lines, Interpret;
    var line := ": " + text;
    assert OneLine(line);
    assert CommentFrame(text) + rest == line + LF + (LF + rest);
    FirstLine(line, LF + rest);
    BlankLine(rest);
    SkipComment(line, Lines(rest));
  }

  /**
   A stream of event and comment frames is received as exactly the list of events and payloads
   that were sent, in order, including empty and multi-line payloads.
   */
  lemma {:induction false} StreamRoundTrip(frames: seq<Frame>)
    requires forall f :: f in frames ==> Sendable(f)
    ensures Receive(Encode(frames)) == MessagesOf(frames)
  {
    hide Receive, EventFrame, CommentFrame, OneLine;
    if frames == [] {
      NothingReceived();
    } else {
      var f, rest := frames[0], frames[1..];
      assert frames == [f] + rest;
      assert f in frames && forall g :: g in rest ==> g in frames;
      assert Sendable(f);
      StreamRoundTrip(rest);
      match f
      case Sent(event, payload) => ReadEventFrame(event, payload, Encode(rest));
      case Comment(text) => ReadCommentFrame(text, Encode(rest));
    }
  }

  lemma NothingReceived()
    ensures Receive("") == []
  {
  }

  // ----- exactly when one frame survives -----

  ghost predicate CleanBuffers(b: Buffers) {
    OneLine(b.event) && '\r' !in b.data
  }

  ghost predicate CleanMessage(m: Message) {
    m.event != "" && OneLine(m.event) && '\r' !in m.data
  }

  lemma {:induction false} LinesAreLines(s: string)
    ensures forall l :: l in Lines(s) ==> OneLine(l)
    decreases |s|
  {
    var n := LineLength(s);
    if n < |s| {
      var skip := if s[n] == '\r' && n + 1 < |s| && s[n + 1] == '\n' then 2 else 1;
      LinesAreLines(s[n + skip..]);
    }
  }

  lemma FieldLineClean(b: Buffers, line: string)
    requires CleanBuffers(b) && OneLine(line)
    ensures CleanBuffers(FieldLine(b, line))
  {
    hide ColonAt;
    var n := ColonAt(line);
    if 0 < n < |line| {
      var value := DropSpace(line[n + 1..]);
      assert forall i :: 0 <= i < |value| ==> value[i] in line;
      assert OneLine(value);
    }
  }

  lemma DispatchClean(b: Buffers)
    requires CleanBuffers(b)
    ensures forall m :: m in Dispatch(b) ==> CleanMessage(m)
  {
    assert OneLine("message");
  }

  lemma {:induction false} InterpretClean(b: Buffers, lines: seq<string>)
    requires CleanBuffers(b) && forall l :: l in lines ==> OneLine(l)
    ensures forall m :: m in Interpret(b, lines) ==> CleanMessage(m)
    decreases lines
  {
    hide FieldLine, CleanMessage, OneLine, Dispatch;
    if lines != [] {
      assert forall l :: l in lines[1..] ==> l in lines;
      if lines[0] == "" {
        DispatchClean(b);
        assert CleanBuffers(EMPTY) by { EmptyIsClean(); }
        InterpretClean(EMPTY, lines[1..]);
      } else {
        FieldLineClean(b, lines[0]);
        InterpretClean(FieldLine(b, lines[0]), lines[1..]);
      }
    }
  }

  lemma EmptyIsClean()
    ensures CleanBuffers(EMPTY)
  {
  }

  /**
   A single frame is received unchanged exactly when the event name is non-empty and has no line
   break, and the payload has no carriage return.
   */
  lemma FrameSurvivesExactly(event: string, payload: string)
    ensures Receive(EventFrame(event, payload)) == [Message(event, payload)]
      <==> event != "" && OneLine(event) && '\r' !in payload
  {
    hide Interpret, Lines, EventFrame, OneLine;
    var stream := EventFrame(event, payload);
    if Receive(stream) == [Message(event, payload)] {
      LinesAreLines(stream);
      EmptyIsClean();
      InterpretClean(EMPTY, Lines(stream));
      assert Message(event, payload) in Receive(stream);
      assert CleanMessage(Message(event, payload));
    }
    if event != "" && OneLine(event) && '\r' !in payload {
      ReadEventFrame(event, payload, "");
      assert stream + "" == stream;
      NothingReceived();
    }
  }

  /** A line feed ends the first line; what follows is split the same way. */
  lemma {:induction false} SplitAfterLine(line: string, rest: string)
    requires '\n' !in line
    ensures SplitLf(line) == [line]
    ensures SplitLf(line + LF + rest) == [line] + SplitLf(rest)
  {
    var s := line + LF + rest;
    if line == "" {
      assert s[1..] == rest;
    } else {
      SplitAfterLine(line[1..], rest);
      assert s[1..] == line[1..] + LF + rest && s[0] == line[0] != '\n';
      assert [line[0]] + line[1..] == line;
      assert ([line[1..]] + SplitLf(rest))[1..] == SplitLf(rest);
      assert [line[1..]][1..] == [];
    }
  }

  /** The frame of a one-line payload as text, and how each further payload line adds a data line. */
  lemma FramesAsText(event: string, line: string, rest: string)
    requires '\n' !in line
    ensures EventFrame(event, line) == "event: " + event + "\n" + ("data: " + line) + "\n\n"
    ensures FrameLines(event, line + "\n" + rest)
         == ["event: " + event, "data: " + line] + FrameLines(event, rest)[1..]
    ensures CommentFrame(line) == ": " + line + "\n\n"
  {
    hide SplitLf;
    SplitAfterLine(line, rest);
    assert [line][1..] == [];
    assert DataLines([line]) == ["data: " + line];
    var lines := ["event: " + event, "data: " + line];
    assert FrameLines(event, line) == lines && lines[1..] == ["data: " + line];
    assert Join(LF, lines) == "event: " + event + LF + ("data: " + line);
    assert ([line] + SplitLf(rest))[1..] == SplitLf(rest);
    assert FrameLines(event, rest)[1..] == DataLines(SplitLf(rest));
  }
}
