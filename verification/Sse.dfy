/**
 The incremental server-sent-events reader and the printers of its frames
 (the event-stream format of section 9.2.6 of the WHATWG HTML Living Standard).
 A chunk is the text its bytes decode to.
 */
module Sse {
  import opened Wrappers
  import opened Lines

  datatype Event = Event(name: string, data: string)

  /** Complete frames, and the text after the last of them. */
  datatype Split = Split(frames: seq<string>, rest: string)

  const TEXT_LINES := LineRule(
    (c: char) => c in "\n\r\U{B}\U{C}\U{1C}\U{1D}\U{1E}\U{85}\U{2028}\U{2029}", '\r', '\n')

  predicate IsSpace(c: char) {
    || c in "\t\n\U{B}\U{C}\r\U{1C}\U{1D}\U{1E}\U{1F} \U{85}\U{A0}\U{1680}\U{2028}\U{2029}\U{202F}\U{205F}\U{3000}"
    || '\U{2000}' <= c <= '\U{200A}'
  }

  function StripLeft(text: string): string {
    if text != "" && IsSpace(text[0]) then StripLeft(text[1..]) else text
  }

  function StripRight(text: string): string {
    if text != "" && IsSpace(text[|text| - 1]) then StripRight(text[..|text| - 1]) else text
  }

  function Strip(text: string): string {
    StripRight(StripLeft(text))
  }

  /** `\r\n` becomes `\n`. */
  function Normalize(text: string): string {
    if text == "" then ""
    else if text[0] == '\r' && |text| >= 2 && text[1] == '\n' then "\n" + Normalize(text[2..])
    else [text[0]] + Normalize(text[1..])
  }

  /** Where the first blank line starts. */
  function FirstBlank(text: string): (r: Option<nat>)
    ensures r.Some? ==> r.value + 2 <= |text|
  {
    if |text| < 2 then None
    else if text[0] == '\n' && text[1] == '\n' then Some(0)
    else match FirstBlank(text[1..])
      case Some(i) => Some(i + 1)
      case None => None
  }

  /** Cuts the buffer at its blank lines. */
  function Blocks(buffer: string): Split
    decreases |buffer|
  {
    match FirstBlank(buffer)
    case None => Split([], buffer)
    case Some(i) =>
      var later := Blocks(buffer[i + 2..]);
      Split([buffer[..i]] + later.frames, later.rest)
  }

  /** The fields of a frame after its first lines. */
  datatype Fields = Fields(event: string, data: seq<string>)

  function FieldsOf(lines: seq<string>): Fields {
    if lines == [] then Fields("message", [])
    else AddLine(FieldsOf(lines[..|lines| - 1]), lines[|lines| - 1])
  }

  function AddLine(fields: Fields, line: string): Fields {
    if "event:" <= line then fields.(event := Strip(line[6..]))
    else if "data:" <= line then fields.(data := fields.data + [StripLeft(line[5..])])
    else fields
  }

  /** The event of a frame, if it has a data line. */
  function FrameEvents(frame: string): seq<Event> {
    var fields := FieldsOf(SplitLines(TEXT_LINES, frame));
    if fields.data == [] then [] else [Event(fields.event, Join(fields.data, "\n"))]
  }

  function EventsOf(frames: seq<string>): seq<Event> {
    if frames == [] then [] else FrameEvents(frames[0]) + EventsOf(frames[1..])
  }

  /** All events, with the unterminated frame at the end of the stream. */
  function Events(split: Split): seq<Event> {
    EventsOf(split.frames) + (if Strip(split.rest) != "" then FrameEvents(split.rest) else [])
  }

  /** The reader's buffer and frames after a run of chunks. */
  function Read(buffer: string, chunks: seq<string>): Split
    decreases |chunks|
  {
    if chunks == [] then Split([], buffer)
    else
      var first := Blocks(buffer + Normalize(chunks[0]));
      var later := Read(first.rest, chunks[1..]);
      Split(first.frames + later.frames, later.rest)
  }

  /** What the reader yields for a chunked stream. */
  function SseEvents(chunks: seq<string>): seq<Event> {
    Events(Read("", chunks))
  }

  /** The text the reader works on: every chunk normalised on its own. */
  function Seen(chunks: seq<string>): string {
    if chunks == [] then "" else Normalize(chunks[0]) + Seen(chunks[1..])
  }

  predicate SplitsCrLf(a: string, b: string) {
    a != "" && a[|a| - 1] == '\r' && b != "" && b[0] == '\n'
  }

  /** No chunk boundary falls inside a `\r\n`. */
  predicate CutsCleanly(chunks: seq<string>) {
    chunks == [] || (!SplitsCrLf(chunks[0], Concat(chunks[1..])) && CutsCleanly(chunks[1..]))
  }

  // ---------- The reader depends on the text it sees, not on the cuts

  lemma {:induction false} FirstBlankExtends(text: string, more: string)
    requires FirstBlank(text).Some?
    ensures FirstBlank(text + more) == FirstBlank(text)
  {
    if !(text[0] == '\n' && text[1] == '\n') {
      assert (text + more)[1..] == text[1..] + more;
      FirstBlankExtends(text[1..], more);
    }
  }

  lemma {:induction false} BlocksExtend(buffer: string, more: string)
    ensures var first := Blocks(buffer);
            var later := Blocks(first.rest + more);
            Blocks(buffer + more) == Split(first.frames + later.frames, later.rest)
    decreases |buffer|
  {
    match FirstBlank(buffer) {
      case None =>
        assert [] + Blocks(buffer + more).frames == Blocks(buffer + more).frames;
      case Some(i) =>
        FirstBlankExtends(buffer, more);
        var after := buffer[i + 2..];
        assert (buffer + more)[i + 2..] == after + more && (buffer + more)[..i] == buffer[..i];
        BlocksExtend(after, more);
        Assoc([buffer[..i]], Blocks(after).frames, Blocks(Blocks(after).rest + more).frames);
    }
  }

  lemma {:induction false} RestHasNoBlank(buffer: string)
    ensures Blocks(Blocks(buffer).rest) == Split([], Blocks(buffer).rest)
    decreases |buffer|
  {
    if FirstBlank(buffer).Some? {
      RestHasNoBlank(buffer[FirstBlank(buffer).value + 2..]);
    }
  }

  lemma {:induction false} ReadIsBlocks(buffer: string, chunks: seq<string>)
    requires FirstBlank(buffer).None?
    ensures Read(buffer, chunks) == Blocks(buffer + Seen(chunks))
    decreases |chunks|
  {
    if chunks == [] {
      assert buffer + Seen(chunks) == buffer;
    } else {
      var joined := buffer + Normalize(chunks[0]);
      RestHasNoBlank(joined);
      ReadIsBlocks(Blocks(joined).rest, chunks[1..]);
      BlocksExtend(joined, Seen(chunks[1..]));
      Assoc(buffer, Normalize(chunks[0]), Seen(chunks[1..]));
    }
  }

  /** For every chunking, the events are those of the seen text cut at its blank lines. */
  lemma ReaderIsChunkIndependent(chunks: seq<string>)
    ensures SseEvents(chunks) == Events(Blocks(Seen(chunks)))
  {
    ReadIsBlocks("", chunks);
    assert "" + Seen(chunks) == Seen(chunks);
  }

  lemma NormalizeStep(c: char, text: string)
    ensures text != "" && c == '\r' && text[0] == '\n' ==> Normalize([c] + text) == ['\n'] + Normalize(text[1..])
    ensures !(text != "" && c == '\r' && text[0] == '\n') ==> Normalize([c] + text) == [c] + Normalize(text)
  {
    assert ([c] + text)[1..] == text;
    if text != "" {
      assert ([c] + text)[2..] == text[1..];
    }
  }

  lemma {:induction false} NormalizeAppend(a: string, b: string)
    ensures !SplitsCrLf(a, b) ==> Normalize(a + b) == Normalize(a) + Normalize(b)
    ensures SplitsCrLf(a, b) ==> |Normalize(a + b)| + 1 == |Normalize(a)| + |Normalize(b)|
    decreases |a|
  {
    hide Normalize;
    if a == "" {
      NormalizeEmpty();
      assert a + b == b && Normalize(a) + Normalize(b) == Normalize(b);
    } else {
      var c, rest := a[0], a[1..];
      assert a == [c] + rest && a + b == [c] + (rest + b);
      NormalizeStep(c, rest);
      NormalizeStep(c, rest + b);
      if rest == "" {
        NormalizeEmpty();
        assert rest + b == b && [c] + "" == [c];
        if b != "" {
          assert b == [b[0]] + b[1..];
          NormalizeStep(b[0], b[1..]);
        }
      } else if c == '\r' && rest[0] == '\n' {
        assert (rest + b)[1..] == rest[1..] + b;
        NormalizeAppend(rest[1..], b);
        Assoc(['\n'], Normalize(rest[1..]), Normalize(b));
      } else {
        NormalizeAppend(rest, b);
        Assoc([c], Normalize(rest), Normalize(b));
      }
    }
  }

  lemma NormalizeEmpty()
    ensures Normalize("") == ""
  {
  }

  /** The seen text is the normalised whole text exactly when no cut splits a `\r\n`. */
  lemma {:induction false} SeenIsNormalizedIffCutsCleanly(chunks: seq<string>)
    ensures Seen(chunks) == Normalize(Concat(chunks)) <==> CutsCleanly(chunks)
    ensures |Normalize(Concat(chunks))| <= |Seen(chunks)|
  {
    if chunks == [] {
    } else {
      SeenIsNormalizedIffCutsCleanly(chunks[1..]);
      NormalizeAppend(chunks[0], Concat(chunks[1..]));
      var head, tail := Normalize(chunks[0]), Normalize(Concat(chunks[1..]));
      assert |head + tail| == |head| + |tail|;
      if head + Seen(chunks[1..]) == head + tail {
        assert (head + Seen(chunks[1..]))[|head|..] == Seen(chunks[1..]);
        assert (head + tail)[|head|..] == tail;
      }
    }
  }

  /** A stream cut outside every `\r\n` reads like the whole text in one chunk. */
  lemma CleanCutsReadAlike(chunks: seq<string>)
    requires CutsCleanly(chunks)
    ensures SseEvents(chunks) == SseEvents([Concat(chunks)])
  {
    var whole := [Concat(chunks)];
    ConcatOne(Concat(chunks));
    assert whole[1..] == [];
    assert CutsCleanly(whole) by { assert Concat(whole[1..]) == ""; }
    SeenIsNormalizedIffCutsCleanly(chunks);
    SeenIsNormalizedIffCutsCleanly(whole);
    ReaderIsChunkIndependent(chunks);
    ReaderIsChunkIndependent(whole);
  }

  // ---------- The printers, and the round trip

  /** A frame as one of the three printers writes it. */
  datatype Printed = Data(data: string) | EventData(name: string, data: string) | SafeFrame(name: string, data: string)

  predicate IsNameChar(c: char) {
    'A' <= c <= 'Z' || 'a' <= c <= 'z' || '0' <= c <= '9' || c in "_.:-"
  }

  /** The names `_sse_frame` lets through. */
  predicate IsName(name: string) {
    1 <= |name| <= 64 && forall i | 0 <= i < |name| :: IsNameChar(name[i])
  }

  function SafeName(name: string): string {
    if IsName(name) then name else "message"
  }

  function EventLine(name: string): string {
    "event: " + name
  }

  function DataLine(data: string): string {
    "data: " + data
  }

  /** A printed frame without the blank line that ends it. */
  function Body(frame: Printed): string {
    match frame
    case Data(data) => DataLine(data)
    case EventData(name, data) => EventLine(name) + ['\n'] + DataLine(data)
    case SafeFrame(name, data) =>
      if SafeName(name) != "message" then EventLine(SafeName(name)) + ['\n'] + DataLine(data) else DataLine(data)
  }

  function Print(frame: Printed): string {
    Body(frame) + "\n\n"
  }

  function PrintAll(frames: seq<Printed>): string {
    if frames == [] then "" else Print(frames[0]) + PrintAll(frames[1..])
  }

  /** The event a printed frame stands for. */
  function Meaning(frame: Printed): Event {
    match frame
    case Data(data) => Event("message", data)
    case EventData(name, data) => Event(name, data)
    case SafeFrame(name, data) => Event(SafeName(name), data)
  }

  function Meanings(frames: seq<Printed>): seq<Event> {
    if frames == [] then [] else [Meaning(frames[0])] + Meanings(frames[1..])
  }

  /** Single-line text that does not start with a space, as JSON objects and `[DONE]` are. */
  ghost predicate Printable(frame: Printed) {
    && OneLine(TEXT_LINES, frame.data)
    && (frame.data == "" || !IsSpace(frame.data[0]))
    && (frame.EventData? ==> IsName(frame.name))
  }

  lemma {:induction false} NameIsPlain(name: string)
    requires IsName(name)
    ensures OneLine(TEXT_LINES, EventLine(name)) && Strip(" " + name) == name
  {
    forall i | 0 <= i < |name| ensures !TEXT_LINES.breaks(name[i]) && !IsSpace(name[i]) {
      assert IsNameChar(name[i]);
    }
    assert (" " + name)[1..] == name && IsSpace(' ');
    assert StripLeft(" " + name) == StripLeft(name) == name;
    assert StripRight(name) == name;
  }

  lemma DataIsPlain(data: string)
    requires OneLine(TEXT_LINES, data) && (data == "" || !IsSpace(data[0]))
    ensures OneLine(TEXT_LINES, DataLine(data)) && StripLeft(" " + data) == data
  {
    assert (" " + data)[1..] == data;
  }

  lemma DataLineIsNotEmpty(data: string)
    ensures DataLine(data) != ""
  {
  }

  lemma AddEventLine(fields: Fields, name: string)
    requires IsName(name)
    ensures AddLine(fields, EventLine(name)) == fields.(event := name)
  {
    NameIsPlain(name);
    assert "event:" <= EventLine(name) && EventLine(name)[6..] == " " + name;
  }

  lemma AddDataLine(fields: Fields, data: string)
    requires OneLine(TEXT_LINES, data) && (data == "" || !IsSpace(data[0]))
    ensures AddLine(fields, DataLine(data)) == fields.(data := fields.data + [data])
  {
    DataIsPlain(data);
    assert DataLine(data)[0] == 'd' && "data:" <= DataLine(data) && DataLine(data)[5..] == " " + data;
  }

  lemma OneField(line: string)
    ensures FieldsOf([line]) == AddLine(Fields("message", []), line)
  {
    assert [line][..0] == [];
  }

  lemma {:induction false} FieldsSnoc(lines: seq<string>, line: string)
    ensures FieldsOf(lines + [line]) == AddLine(FieldsOf(lines), line)
  {
    assert (lines + [line])[..|lines|] == lines;
  }

  lemma DataBodyReadsBack(data: string)
    requires OneLine(TEXT_LINES, data) && (data == "" || !IsSpace(data[0]))
    ensures FrameEvents(DataLine(data)) == [Event("message", data)]
  {
    DataIsPlain(data);
    SplitLastLine(TEXT_LINES, DataLine(data));
    OneField(DataLine(data));
    AddDataLine(Fields("message", []), data);
    assert [] + [data] == [data];
  }

  lemma EventBodyReadsBack(name: string, data: string)
    requires IsName(name) && OneLine(TEXT_LINES, data) && (data == "" || !IsSpace(data[0]))
    ensures FrameEvents(EventLine(name) + ['\n'] + DataLine(data)) == [Event(name, data)]
  {
    hide AddLine, IsName, IsSpace, Strip, StripLeft, EventLine, DataLine;
    DataIsPlain(data);
    NameIsPlain(name);
    DataLineIsNotEmpty(data);
    SplitLastLine(TEXT_LINES, DataLine(data));
    SplitFirstLine(TEXT_LINES, EventLine(name), DataLine(data));
    OneField(EventLine(name));
    FieldsSnoc([EventLine(name)], DataLine(data));
    AddEventLine(Fields("message", []), name);
    AddDataLine(Fields(name, []), data);
    assert [] + [data] == [data];
  }

  /** A printed frame reads back as its event. */
  lemma BodyReadsBack(frame: Printed)
    requires Printable(frame)
    ensures FrameEvents(Body(frame)) == [Meaning(frame)]
  {
    hide FrameEvents, OneLine, EventLine, DataLine;
    var name := Meaning(frame).name;
    if frame.Data? || (frame.SafeFrame? && name == "message") {
      DataBodyReadsBack(frame.data);
    } else {
      EventBodyReadsBack(name, frame.data);
    }
  }

  /** No blank line, and no line feed at the end. */
  predicate Compact(text: string) {
    text != "" && FirstBlank(text + "\n").None?
  }

  lemma {:induction false} PlainIsCompact(line: string)
    requires line != "" && forall i | 0 <= i < |line| :: line[i] != '\n'
    ensures Compact(line)
  {
    assert (line + "\n")[1..] == line[1..] + "\n";
    if |line| <= 1 {
    } else {
      PlainIsCompact(line[1..]);
    }
  }

  lemma {:induction false} LineThenCompact(line: string, text: string)
    requires line != "" && forall i | 0 <= i < |line| :: line[i] != '\n'
    requires Compact(text) && text[0] != '\n'
    ensures Compact(line + ['\n'] + text)
  {
    var whole := line + ['\n'] + text + "\n";
    if |line| == 1 {
      assert whole[1..] == ['\n'] + (text + "\n") && whole[1..][1..] == text + "\n";
    } else {
      LineThenCompact(line[1..], text);
      assert whole[1..] == line[1..] + ['\n'] + text + "\n";
    }
  }

  lemma {:induction false} BlankAfterCompact(text: string, rest: string)
    requires Compact(text)
    ensures FirstBlank(text + "\n\n" + rest) == Some(|text|)
  {
    var whole := text + "\n\n" + rest;
    assert (text + "\n")[1..] == text[1..] + "\n";
    if |text| == 1 {
      assert whole[1..] == "\n\n" + rest;
      assert text[0] != '\n' by { assert (text + "\n")[0] == text[0] && (text + "\n")[1] == '\n'; }
    } else {
      assert whole[1..] == text[1..] + "\n\n" + rest;
      assert whole[..2] == (text + "\n")[..2];
      BlankAfterCompact(text[1..], rest);
    }
  }

  lemma BodyIsCompact(frame: Printed)
    requires Printable(frame)
    ensures Compact(Body(frame))
  {
    var name, data := Meaning(frame).name, DataLine(frame.data);
    DataIsPlain(frame.data);
    forall i | 0 <= i < |data| ensures data[i] != '\n' {
      assert !TEXT_LINES.breaks(data[i]);
    }
    PlainIsCompact(data);
    if Body(frame) != data {
      NameIsPlain(name);
      forall i | 0 <= i < |EventLine(name)| ensures EventLine(name)[i] != '\n' {
        assert !TEXT_LINES.breaks(EventLine(name)[i]);
      }
      LineThenCompact(EventLine(name), data);
    }
  }

  ghost predicate AllPrintable(frames: seq<Printed>) {
    forall i | 0 <= i < |frames| :: Printable(frames[i])
  }

  lemma OneBlock(body: string, rest: string)
    requires Compact(body)
    ensures Events(Blocks(body + "\n\n" + rest)) == FrameEvents(body) + Events(Blocks(rest))
  {
    var text, later := body + "\n\n" + rest, Blocks(rest);
    BlankAfterCompact(body, rest);
    assert text[..|body|] == body && text[|body| + 2..] == rest;
    EventsAppend([body], later);
    assert [body][1..] == [] && FrameEvents(body) + [] == FrameEvents(body);
  }

  lemma {:induction false} PrintedReadsBack(frames: seq<Printed>)
    requires AllPrintable(frames)
    ensures Events(Blocks(PrintAll(frames))) == Meanings(frames)
  {
    hide Body, Compact, Printable, FrameEvents, Events, Blocks, Meaning;
    if frames == [] {
      NothingLeft();
    } else {
      BodyIsCompact(frames[0]);
      OneBlock(Body(frames[0]), PrintAll(frames[1..]));
      PrintedReadsBack(frames[1..]);
      BodyReadsBack(frames[0]);
    }
  }

  lemma {:induction false} PrintedHasNoCr(frames: seq<Printed>)
    requires AllPrintable(frames)
    ensures '\r' !in PrintAll(frames)
  {
    if frames == [] {
    } else {
      PrintedHasNoCr(frames[1..]);
      var frame := frames[0];
      DataIsPlain(frame.data);
      assert forall i | 0 <= i < |DataLine(frame.data)| :: !TEXT_LINES.breaks(DataLine(frame.data)[i]);
      if Body(frame) != DataLine(frame.data) {
        var line := EventLine(Meaning(frame).name);
        NameIsPlain(Meaning(frame).name);
        assert forall i | 0 <= i < |line| :: !TEXT_LINES.breaks(line[i]);
      }
    }
  }

  lemma {:induction false} WithoutCr(chunks: seq<string>)
    requires '\r' !in Concat(chunks)
    ensures Seen(chunks) == Concat(chunks)
  {
    if chunks == [] {
    } else {
      assert Concat(chunks) == chunks[0] + Concat(chunks[1..]);
      forall c | c in chunks[0] || c in Concat(chunks[1..]) ensures c in Concat(chunks) {}
      NormalizeWithoutCr(chunks[0]);
      WithoutCr(chunks[1..]);
    }
  }

  lemma {:induction false} NormalizeWithoutCr(text: string)
    requires '\r' !in text
    ensures Normalize(text) == text
  {
    if text == "" {
    } else {
      NormalizeWithoutCr(text[1..]);
    }
  }

  /** Printing frames and reading the text back, cut into any chunks, gives their events. */
  lemma PrintThenRead(frames: seq<Printed>, chunks: seq<string>)
    requires AllPrintable(frames) && Concat(chunks) == PrintAll(frames)
    ensures SseEvents(chunks) == Meanings(frames)
  {
    PrintedHasNoCr(frames);
    WithoutCr(chunks);
    ReaderIsChunkIndependent(chunks);
    PrintedReadsBack(frames);
  }

  lemma GluedLines(a: string, b: string)
    requires OneLine(TEXT_LINES, a) && OneLine(TEXT_LINES, b) && b != ""
    ensures SplitLines(TEXT_LINES, a + ['\n'] + (['\r', '\n'] + b)) == [a] + ([""] + [b])
  {
    var tail := ['\r', '\n'] + b;
    SplitFirstLine(TEXT_LINES, a, tail);
    SplitLastLine(TEXT_LINES, b);
    assert FirstBreak(TEXT_LINES, tail) == 0 && tail[2..] == b && tail[..0] == "";
  }

  /** Two data lines with a split `\r\n` between them make one event. */
  lemma GluedFrame(a: string, b: string)
    requires OneLine(TEXT_LINES, a) && (a == "" || !IsSpace(a[0]))
    requires OneLine(TEXT_LINES, b) && (b == "" || !IsSpace(b[0]))
    ensures FrameEvents(DataLine(a) + ['\n'] + (['\r', '\n'] + DataLine(b))) == [Event("message", a + "\n" + b)]
  {
    hide DataLine, SplitLines, OneLine, IsSpace;
    DataIsPlain(a);
    DataIsPlain(b);
    DataLineIsNotEmpty(b);
    GluedLines(DataLine(a), DataLine(b));
    assert [DataLine(a)] + ([""] + [DataLine(b)]) == ([DataLine(a)] + [""]) + [DataLine(b)];
    OneField(DataLine(a));
    FieldsSnoc([DataLine(a)], "");
    FieldsSnoc([DataLine(a)] + [""], DataLine(b));
    AddDataLine(Fields("message", []), a);
    assert AddLine(Fields("message", [a]), "") == Fields("message", [a]);
    AddDataLine(Fields("message", [a]), b);
    assert [] + [a] == [a] && [a] + [b] == [a, b];
    assert FieldsOf([DataLine(a)] + ([""] + [DataLine(b)])) == Fields("message", [a, b]);
    assert [a, b][1..] == [b] && Join([b], "\n") == b;
  }

  lemma SeenOfTwo(a: string, b: string)
    ensures Seen([a, b]) == Normalize(a) + Normalize(b) && Seen([a]) == Normalize(a)
  {
    hide Normalize;
    assert [a, b][1..] == [b];
    assert [b][1..] == [];
    assert [a][1..] == [];
    assert Seen([b]) == Normalize(b) by { assert Normalize(b) + "" == Normalize(b); }
    assert Normalize(a) + "" == Normalize(a);
  }

  lemma NormalizeLineBreaks()
    ensures Normalize(['\r', '\n', '\r']) == ['\n', '\r']
    ensures Normalize(['\r', '\n', '\r', '\n']) == "\n\n"
  {
    var two, one := ['\r', '\n'], ['\r'];
    assert ['\r', '\n', '\r'][2..] == one && ['\r', '\n', '\r', '\n'][2..] == two;
    assert two[2..] == "" && one[1..] == "";
  }

  lemma SeenWhenSplit(a: string, b: string)
    requires '\r' !in a && '\r' !in b
    ensures Seen([a + ['\r', '\n', '\r'], ['\n'] + b + "\n\n"]) == a + ['\n'] + (['\r', '\n'] + b) + "\n\n"
  {
    hide Normalize, Seen;
    var end, second := ['\r', '\n', '\r'], ['\n'] + b + "\n\n";
    NormalizeLineBreaks();
    NormalizeAppend(a, end);
    NormalizeWithoutCr(a);
    NormalizeWithoutCr(second);
    SeenOfTwo(a + end, second);
    assert (a + ['\n', '\r']) + second == a + ['\n'] + (['\r', '\n'] + b) + "\n\n";
  }

  lemma SeenWhenWhole(a: string, b: string)
    requires '\r' !in a && '\r' !in b
    ensures Seen([a + ['\r', '\n', '\r'] + (['\n'] + b + "\n\n")]) == a + "\n\n" + (b + "\n\n")
  {
    hide Normalize, Seen;
    var mid, end := ['\r', '\n', '\r', '\n'], b + "\n\n";
    var whole := a + ['\r', '\n', '\r'] + (['\n'] + b + "\n\n");
    assert whole == a + (mid + end);
    NormalizeLineBreaks();
    NormalizeWithoutCr(a);
    NormalizeWithoutCr(end);
    NormalizeAppend(mid, end);
    NormalizeAppend(a, mid + end);
    SeenOfTwo(whole, "");
    Assoc(a, "\n\n", end);
  }

  lemma TwoBlocks(x: string, y: string)
    requires Compact(x) && Compact(y)
    ensures Events(Blocks(x + "\n\n")) == FrameEvents(x)
    ensures Events(Blocks(x + "\n\n" + (y + "\n\n"))) == FrameEvents(x) + FrameEvents(y)
  {
    hide FrameEvents, Compact;
    OneBlock(x, "");
    OneBlock(y, "");
    OneBlock(x, y + "\n\n");
    NothingLeft();
    assert x + "\n\n" + "" == x + "\n\n" && y + "\n\n" + "" == y + "\n\n";
    assert FrameEvents(x) + [] == FrameEvents(x) && FrameEvents(y) + [] == FrameEvents(y);
  }

  /** A cut inside the `\r\n` that closes an event glues it to the next one. */
  lemma SplitCrLfGluesEvents(a: string, b: string)
    requires OneLine(TEXT_LINES, a) && (a == "" || !IsSpace(a[0]))
    requires OneLine(TEXT_LINES, b) && (b == "" || !IsSpace(b[0]))
    ensures var chunks := [DataLine(a) + ['\r', '\n', '\r'], ['\n'] + DataLine(b) + "\n\n"];
            && SseEvents(chunks) == [Event("message", a + "\n" + b)]
            && SseEvents([Concat(chunks)]) == [Event("message", a), Event("message", b)]
  {
    var x, y := DataLine(a), DataLine(b);
    var first, second := x + ['\r', '\n', '\r'], ['\n'] + y + "\n\n";
    PlainLine(a);
    PlainLine(b);
    hide DataLine, OneLine, IsSpace, FrameEvents, Seen, Blocks, Compact, Events, SseEvents, Concat;
    ConcatTwo(first, second);
    ReaderIsChunkIndependent([first, second]);
    SeenWhenSplit(x, y);
    GluedIsCompact(x, y);
    TwoBlocks(x + ['\n'] + (['\r', '\n'] + y), y);
    GluedFrame(a, b);
    ReaderIsChunkIndependent([first + second]);
    SeenWhenWhole(x, y);
    TwoBlocks(x, y);
    DataBodyReadsBack(a);
    DataBodyReadsBack(b);
  }

  lemma NothingLeft()
    ensures Events(Blocks("")) == []
  {
  }

  lemma PlainLine(data: string)
    requires OneLine(TEXT_LINES, data) && (data == "" || !IsSpace(data[0]))
    ensures Compact(DataLine(data)) && '\r' !in DataLine(data) && '\n' !in DataLine(data)
  {
    DataIsPlain(data);
    forall i | 0 <= i < |DataLine(data)| ensures DataLine(data)[i] != '\n' && DataLine(data)[i] != '\r' {
      assert !TEXT_LINES.breaks(DataLine(data)[i]);
    }
    PlainIsCompact(DataLine(data));
  }

  lemma GluedIsCompact(x: string, y: string)
    requires x != "" && '\n' !in x && Compact(y) && '\n' !in y
    ensures Compact(x + ['\n'] + (['\r', '\n'] + y))
  {
    LineThenCompact(['\r'], y);
    assert ['\r'] + ['\n'] + y == ['\r', '\n'] + y;
    LineThenCompact(x, ['\r', '\n'] + y);
  }

  // ---------- The reader itself

  /** Reads one frame line by line. */
  method ReadFrame(frame: string) returns (events: seq<Event>)
    ensures events == FrameEvents(frame)
  {
    var event, data := "message", [];
    var lines := SplitLines(TEXT_LINES, frame);
    for i := 0 to |lines|
      invariant FieldsOf(lines[..i]) == Fields(event, data)
    {
      assert lines[..i + 1][..i] == lines[..i];
      var line := lines[i];
      if "event:" <= line {
        event := Strip(line[6..]);
      } else if "data:" <= line {
        data := data + [StripLeft(line[5..])];
      }
    }
    assert lines[..|lines|] == lines;
    events := if data != [] then [Event(event, Join(data, "\n"))] else [];
  }

  /** The incremental reader: a buffer, cut at every blank line as soon as it appears. */
  method ReadEvents(chunks: seq<string>) returns (events: seq<Event>)
    ensures events == SseEvents(chunks)
  {
    hide FrameEvents, Normalize, FirstBlank, Strip;
    var buffer := "";
    events := [];
    for c := 0 to |chunks|
      invariant events + Events(Read(buffer, chunks[c..])) == SseEvents(chunks)
    {
      ghost var was := buffer + Normalize(chunks[c]);
      ghost var later := Read(Blocks(was).rest, chunks[c + 1..]);
      assert chunks[c..][1..] == chunks[c + 1..];
      buffer := buffer + Normalize(chunks[c]);
      EventsAppend(Blocks(was).frames, later);
      Assoc(events, EventsOf(Blocks(was).frames), Events(later));
      while FirstBlank(buffer).Some?
        invariant Blocks(buffer).rest == Blocks(was).rest
        invariant events + EventsOf(Blocks(buffer).frames) + Events(later) == SseEvents(chunks)
        decreases |buffer|
      {
        ghost var whole, sofar := buffer, events;
        var cut := FirstBlank(buffer).value;
        var frame := buffer[..cut];
        buffer := buffer[cut + 2..];
        var found := ReadFrame(frame);
        events := events + found;
        assert Blocks(whole).frames[1..] == Blocks(buffer).frames;
        Assoc(sofar, found, EventsOf(Blocks(buffer).frames));
      }
      assert events + [] == events;
    }
    assert chunks[|chunks|..] == [];
    if Strip(buffer) != "" {
      var found := ReadFrame(buffer);
      assert [] + found == found;
      events := events + found;
    }
  }

  lemma {:induction false} EventsAppend(frames: seq<string>, later: Split)
    ensures Events(Split(frames + later.frames, later.rest)) == EventsOf(frames) + Events(later)
  {
    if frames == [] {
      assert frames + later.frames == later.frames && [] + Events(later) == Events(later);
    } else {
      assert (frames + later.frames)[1..] == frames[1..] + later.frames;
      EventsAppend(frames[1..], later);
      var tail := if Strip(later.rest) != "" then FrameEvents(later.rest) else [];
      Assoc(FrameEvents(frames[0]), EventsOf(frames[1..] + later.frames), tail);
      Assoc(FrameEvents(frames[0]), EventsOf(frames[1..]), Events(later));
    }
  }
}
