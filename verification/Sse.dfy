/** Server-sent events: the printer the stream handler uses, and the client's parser as sections 9.2.5 and
    9.2.6 of the WHATWG HTML Standard define it. */
module Sse {

  datatype Message = Message(kind: string, data: string)

  // ---- the client ----

  predicate IsBreak(c: char) {
    c == '\n' || c == '\r'
  }

  function FirstBreak(s: string): (i: nat)
    ensures i <= |s| && (i < |s| ==> IsBreak(s[i]))
    ensures forall k | 0 <= k < i :: !IsBreak(s[k])
  {
    if s == "" || IsBreak(s[0]) then 0 else 1 + FirstBreak(s[1..])
  }

  /** The complete lines of a stream; a line ends in CRLF, LF or CR. */
  function Lines(s: string): seq<string>
    decreases |s|
  {
    var i := FirstBreak(s);
    if i == |s| then []
    else [s[..i]] + Lines(s[i + (if s[i] == '\r' && i + 1 < |s| && s[i + 1] == '\n' then 2 else 1)..])
  }

  /** The event type and data buffers. */
  datatype Buffers = Buffers(kind: string, data: string)

  const CLEAR := Buffers("", "")

  function IndexOf(s: string, c: char): (i: nat)
    ensures i <= |s| && (i < |s| ==> s[i] == c)
    ensures forall k | 0 <= k < i :: s[k] != c
  {
    if s == "" || s[0] == c then 0 else 1 + IndexOf(s[1..], c)
  }

  function FieldValue(line: string, colon: nat): string
    requires colon < |line|
  {
    var value := line[colon + 1..];
    if value != "" && value[0] == ' ' then value[1..] else value
  }

  /** The fields `id` and `retry` touch neither buffer. */
  function SetField(b: Buffers, field: string, value: string): Buffers {
    if field == "event" then b.(kind := value)
    else if field == "data" then b.(data := b.data + value + "\n")
    else b
  }

  function ReadLine(b: Buffers, line: string): Buffers
    requires line != ""
  {
    var colon := IndexOf(line, ':');
    if colon == 0 then b
    else if colon < |line| then SetField(b, line[..colon], FieldValue(line, colon))
    else SetField(b, line, "")
  }

  /** Dispatch at an empty line; nothing is dispatched when no data was collected. */
  function Dispatch(b: Buffers): seq<Message> {
    if b.data == "" then []
    else
      var data := if b.data[|b.data| - 1] == '\n' then b.data[..|b.data| - 1] else b.data;
      [Message(if b.kind == "" then "message" else b.kind, data)]
  }

  /** What is collected when the stream ends is discarded. */
  function Interpret(b: Buffers, lines: seq<string>): seq<Message>
    decreases |lines|
  {
    if lines == [] then []
    else if lines[0] == "" then Dispatch(b) + Interpret(CLEAR, lines[1..])
    else Interpret(ReadLine(b, lines[0]), lines[1..])
  }

  /** A client's view of a stream; one leading byte order mark is skipped. */
  function Parse(s: string): seq<Message> {
    Interpret(CLEAR, Lines(if s != "" && s[0] == '\U{FEFF}' then s[1..] else s))
  }

  // ---- the server ----

  function Split(data: string): (parts: seq<string>)
    ensures parts != []
  {
    if data == "" then [""]
    else
      var rest := Split(data[1..]);
      if data[0] == '\n' then [""] + rest else [[data[0]] + rest[0]] + rest[1..]
  }

  function DataText(parts: seq<string>): string {
    if parts == [] then "" else "data: " + parts[0] + "\n" + DataText(parts[1..])
  }

  function EventText(m: Message): string {
    "event: " + m.kind + "\n" + DataText(Split(m.data)) + "\n"
  }

  const HEARTBEAT: string := ": heartbeat\n\n"

  /** What the handler writes between flushes: a heartbeat comment or an event. */
  datatype Item = Heartbeat | Event(message: Message)

  function Text(items: seq<Item>): string {
    if items == [] then ""
    else (if items[0].Heartbeat? then HEARTBEAT else EventText(items[0].message)) + Text(items[1..])
  }

  function Messages(items: seq<Item>): seq<Message> {
    if items == [] then [] else (if items[0].Event? then [items[0].message] else []) + Messages(items[1..])
  }

  // ---- printed text, line by line ----

  predicate OneLine(s: string) {
    forall i | 0 <= i < |s| :: !IsBreak(s[i])
  }

  predicate CrFree(s: string) {
    '\r' !in s
  }

  lemma LinesStep(line: string, rest: string)
    requires OneLine(line)
    ensures Lines(line + "\n" + rest) == [line] + Lines(rest)
  {
    var s := line + "\n" + rest;
    assert s[|line|] == '\n';
    assert forall k | 0 <= k < |line| :: s[k] == line[k];
    assert FirstBreak(s) == |line|;
    assert s[..|line|] == line && s[|line| + 1..] == rest;
  }

  lemma Regroup(a: string, b: string, c: string, d: string)
    ensures a + b + c + d == a + b + (c + d)
  {}

  lemma LabelledOneLine(name: string, s: string)
    requires OneLine(name) && OneLine(s)
    ensures OneLine(name + s)
  {}

  function Prefixed(parts: seq<string>): seq<string> {
    if parts == [] then [] else ["data: " + parts[0]] + Prefixed(parts[1..])
  }

  lemma PrefixedStep(parts: seq<string>, rest: seq<string>)
    requires parts != []
    ensures Prefixed(parts) + rest == ["data: " + parts[0]] + (Prefixed(parts[1..]) + rest)
  {}

  lemma DataTextStep(parts: seq<string>, rest: string)
    requires parts != []
    ensures DataText(parts) + rest == ("data: " + parts[0]) + "\n" + (DataText(parts[1..]) + rest)
  {
    Regroup("data: " + parts[0], "\n", DataText(parts[1..]), rest);
  }

  lemma {:induction false} DataLines(parts: seq<string>, rest: string)
    requires forall i | 0 <= i < |parts| :: OneLine(parts[i])
    ensures Lines(DataText(parts) + rest) == Prefixed(parts) + Lines(rest)
  {
    if parts == [] {
      assert DataText(parts) + rest == rest;
    } else {
      var line, tail := "data: " + parts[0], DataText(parts[1..]) + rest;
      LabelledOneLine("data: ", parts[0]);
      calc {
        Lines(DataText(parts) + rest);
        { DataTextStep(parts, rest); }
        Lines(line + "\n" + tail);
        { LinesStep(line, tail); }
        [line] + Lines(tail);
        { DataLines(parts[1..], rest); }
        [line] + (Prefixed(parts[1..]) + Lines(rest));
        { PrefixedStep(parts, Lines(rest)); }
        Prefixed(parts) + Lines(rest);
      }
    }
  }

  lemma {:induction false} SplitParts(data: string)
    requires CrFree(data)
    ensures forall i | 0 <= i < |Split(data)| :: OneLine(Split(data)[i])
  {
    if data != "" { SplitParts(data[1..]); }
  }

  lemma BlankLine(rest: string)
    ensures Lines("\n" + rest) == [""] + Lines(rest)
  {
    assert "\n" + rest == "" + "\n" + rest;
    LinesStep("", rest);
  }

  lemma EventLines(m: Message, rest: string)
    requires OneLine(m.kind) && CrFree(m.data)
    ensures Lines(EventText(m) + rest) == ["event: " + m.kind] + (Prefixed(Split(m.data)) + ([""] + Lines(rest)))
  {
    var line, body := "event: " + m.kind, DataText(Split(m.data));
    SplitParts(m.data);
    LabelledOneLine("event: ", m.kind);
    Regroup(line, "\n", body, "\n");
    Regroup(line, "\n", body + "\n", rest);
    assert body + "\n" + rest == body + ("\n" + rest);
    LinesStep(line, body + ("\n" + rest));
    DataLines(Split(m.data), "\n" + rest);
    BlankLine(rest);
  }

  // ---- reading the lines back ----

  function Unsplit(parts: seq<string>): string {
    if parts == [] then "" else parts[0] + "\n" + Unsplit(parts[1..])
  }

  lemma {:induction false} UnsplitSplit(data: string)
    ensures Unsplit(Split(data)) == data + "\n"
  {
    if data == "" {
      assert Unsplit([""]) == "" + "\n" + Unsplit([]);
    } else {
      UnsplitSplit(data[1..]);
      var first, rest := [data[0]], Split(data[1..]);
      assert data == first + data[1..];
      if data[0] == '\n' {
        UnsplitCons("", rest);
        assert "" + "\n" + (data[1..] + "\n") == data + "\n";
      } else {
        UnsplitCons(first + rest[0], rest[1..]);
        UnsplitCons(rest[0], rest[1..]);
        assert first + rest[0] + "\n" + Unsplit(rest[1..]) == first + (rest[0] + "\n" + Unsplit(rest[1..]));
        assert [rest[0]] + rest[1..] == rest;
        assert first + (data[1..] + "\n") == data + "\n";
      }
    }
  }

  lemma UnsplitCons(part: string, parts: seq<string>)
    ensures Unsplit([part] + parts) == part + "\n" + Unsplit(parts)
  {
    assert ([part] + parts)[1..] == parts;
  }

  lemma ReadData(b: Buffers, part: string)
    ensures ReadLine(b, "data: " + part) == b.(data := b.data + part + "\n")
  {
    var line := "data: " + part;
    assert line[0] == 'd' && line[1] == 'a' && line[2] == 't' && line[3] == 'a' && line[4] == ':' && line[5] == ' ';
    assert IndexOf(line, ':') == 4;
    assert line[..4] == "data";
    assert line[5..][1..] == part;
  }

  lemma ReadKind(b: Buffers, kind: string)
    ensures ReadLine(b, "event: " + kind) == b.(kind := kind)
  {
    var line := "event: " + kind;
    assert line[0] == 'e' && line[1] == 'v' && line[2] == 'e' && line[3] == 'n' && line[4] == 't'
        && line[5] == ':' && line[6] == ' ';
    assert IndexOf(line, ':') == 5;
    assert line[..5] == "event";
    assert line[6..][1..] == kind;
  }

  lemma InterpretOne(b: Buffers, part: string, rest: seq<string>)
    ensures Interpret(b, ["data: " + part] + rest) == Interpret(Buffers(b.kind, b.data + part + "\n"), rest)
  {
    var lines := ["data: " + part] + rest;
    assert lines[0] != "" && lines[1..] == rest;
    ReadData(b, part);
  }

  lemma UnsplitAppend(before: string, parts: seq<string>)
    requires parts != []
    ensures (before + parts[0] + "\n") + Unsplit(parts[1..]) == before + Unsplit(parts)
  {
    assert before + parts[0] + "\n" + Unsplit(parts[1..]) == before + (parts[0] + "\n" + Unsplit(parts[1..]));
  }

  lemma {:induction false} InterpretData(b: Buffers, parts: seq<string>, rest: seq<string>)
    ensures Interpret(b, Prefixed(parts) + rest) == Interpret(Buffers(b.kind, b.data + Unsplit(parts)), rest)
    decreases |parts|
  {
    if parts == [] {
      assert Prefixed(parts) + rest == rest;
      assert b.data + Unsplit(parts) == b.data;
    } else {
      var data := b.data + parts[0] + "\n";
      calc {
        Interpret(b, Prefixed(parts) + rest);
        { PrefixedStep(parts, rest); }
        Interpret(b, ["data: " + parts[0]] + (Prefixed(parts[1..]) + rest));
        { InterpretOne(b, parts[0], Prefixed(parts[1..]) + rest); }
        Interpret(Buffers(b.kind, data), Prefixed(parts[1..]) + rest);
        { InterpretData(Buffers(b.kind, data), parts[1..], rest); }
        Interpret(Buffers(b.kind, data + Unsplit(parts[1..])), rest);
        { UnsplitAppend(b.data, parts); }
        Interpret(Buffers(b.kind, b.data + Unsplit(parts)), rest);
      }
    }
  }

  lemma DispatchEvent(m: Message, rest: seq<string>)
    requires m.kind != ""
    ensures Interpret(Buffers(m.kind, m.data + "\n"), [""] + rest) == [m] + Interpret(CLEAR, rest)
  {
    var data, lines := m.data + "\n", [""] + rest;
    assert data[..|data| - 1] == m.data;
    assert lines[1..] == rest;
  }

  lemma InterpretEvent(m: Message, rest: seq<string>)
    requires m.kind != ""
    ensures Interpret(CLEAR, ["event: " + m.kind] + (Prefixed(Split(m.data)) + ([""] + rest)))
            == [m] + Interpret(CLEAR, rest)
  {
    var tail := Prefixed(Split(m.data)) + ([""] + rest);
    var lines := ["event: " + m.kind] + tail;
    assert lines[0] != "" && lines[1..] == tail;
    ReadKind(CLEAR, m.kind);
    InterpretData(Buffers(m.kind, ""), Split(m.data), [""] + rest);
    UnsplitSplit(m.data);
    assert "" + (m.data + "\n") == m.data + "\n";
    DispatchEvent(m, rest);
  }

  lemma InterpretHeartbeat(rest: string)
    ensures Interpret(CLEAR, Lines(HEARTBEAT + rest)) == Interpret(CLEAR, Lines(rest))
  {
    assert HEARTBEAT + rest == ": heartbeat" + "\n" + ("" + "\n" + rest);
    LinesStep(": heartbeat", "" + "\n" + rest);
    LinesStep("", rest);
    var lines := [": heartbeat"] + ([""] + Lines(rest));
    assert lines[1..] == [""] + Lines(rest) && lines[1..][1..] == Lines(rest);
    assert ReadLine(CLEAR, ": heartbeat") == CLEAR;
  }

  /** Every message has a kind, on one line. */
  predicate Printable(messages: seq<Message>) {
    forall i | 0 <= i < |messages| :: messages[i].kind != "" && OneLine(messages[i].kind)
  }

  predicate AllCrFree(messages: seq<Message>) {
    forall i | 0 <= i < |messages| :: CrFree(messages[i].data)
  }

  lemma {:induction false} InterpretItems(items: seq<Item>)
    requires Printable(Messages(items)) && AllCrFree(Messages(items))
    ensures Interpret(CLEAR, Lines(Text(items))) == Messages(items)
  {
    if items == [] {
    } else {
      var rest := Text(items[1..]);
      if items[0].Heartbeat? {
        InterpretHeartbeat(rest);
        assert Messages(items) == Messages(items[1..]);
        InterpretItems(items[1..]);
      } else {
        var m := items[0].message;
        assert Messages(items)[0] == m && Messages(items)[1..] == Messages(items[1..]);
        assert forall i | 0 <= i < |Messages(items[1..])| :: Messages(items[1..])[i] == Messages(items)[i + 1];
        InterpretItems(items[1..]);
        EventLines(m, rest);
        InterpretEvent(m, Lines(rest));
      }
    }
  }

  // ---- carriage returns ----

  lemma {:induction false} LinesAreCrFree(s: string)
    ensures forall i | 0 <= i < |Lines(s)| :: CrFree(Lines(s)[i])
    decreases |s|
  {
    var i := FirstBreak(s);
    if i < |s| {
      LinesAreCrFree(s[i + (if s[i] == '\r' && i + 1 < |s| && s[i + 1] == '\n' then 2 else 1)..]);
    }
  }

  lemma {:induction false} ParsedIsCrFree(b: Buffers, lines: seq<string>)
    requires CrFree(b.data) && forall i | 0 <= i < |lines| :: CrFree(lines[i])
    ensures AllCrFree(Interpret(b, lines))
    decreases |lines|
  {
    if lines != [] {
      if lines[0] == "" {
        ParsedIsCrFree(CLEAR, lines[1..]);
      } else {
        ParsedIsCrFree(ReadLine(b, lines[0]), lines[1..]);
      }
    }
  }

  lemma TextStart(items: seq<Item>)
    requires Text(items) != ""
    ensures Text(items)[0] == ':' || Text(items)[0] == 'e'
  {}

  /** The whole stream: whatever the placement of heartbeats, a conforming client recovers exactly the
      messages that were written, precisely when none of their data holds a carriage return. */
  lemma ClientRecoversIffCrFree(items: seq<Item>)
    requires Printable(Messages(items))
    ensures Parse(Text(items)) == Messages(items) <==> AllCrFree(Messages(items))
  {
    if Text(items) != "" { TextStart(items); }
    if AllCrFree(Messages(items)) {
      InterpretItems(items);
    } else {
      LinesAreCrFree(Text(items));
      ParsedIsCrFree(CLEAR, Lines(Text(items)));
    }
  }
}
