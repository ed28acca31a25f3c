/**
 Rewriting the model name in a server-sent event stream: read, rename one field, print.
 */
module ModelRewrite {
  import opened Wrappers
  import opened Lines
  import opened Sse

  datatype Protocol = Anthropic | Chat | Responses

  /** A nested object, known by its model field and the rest; or something else under that key. */
  datatype Nested = Absent | Other(value: int) | Object(model: Option<string>, rest: int)

  /** A JSON object, known by the fields the rewriter looks at and all the rest. */
  datatype Payload = Payload(model: Option<string>, message: Nested, response: Nested, rest: int)

  datatype Codec = Codec(dumps: Payload -> string, loads: string -> Option<Payload>, protocolError: int) {
    /** Objects print as one line, not starting with a space and never the end marker, and read back. */
    ghost predicate Valid() {
      forall p: Payload ::
        && loads(dumps(p)) == Some(p) && dumps(p) != DONE && dumps(p) != ""
        && OneLine(TEXT_LINES, dumps(p)) && !IsSpace(dumps(p)[0])
    }

    /** The object that reports invalid data. */
    function ErrorPayload(): Payload {
      Payload(None, Absent, Absent, protocolError)
    }
  }

  const DONE := "[DONE]"

  predicate Names(nested: Nested) {
    nested.Object? && nested.model.Some?
  }

  function Rename(protocol: Protocol, model: string, p: Payload): Payload {
    if protocol == Anthropic && Names(p.message) then p.(message := p.message.(model := Some(model)))
    else if protocol == Responses && Names(p.response) then p.(response := p.response.(model := Some(model)))
    else if p.model.Some? then p.(model := Some(model))
    else p
  }

  /** The frames written for a run of events; invalid data ends it with an error. */
  function Rewritten(codec: Codec, protocol: Protocol, model: string, events: seq<Event>): seq<Printed> {
    if events == [] then []
    else
      var event := events[0];
      if event.data == DONE then [SafeFrame(event.name, DONE)] + Rewritten(codec, protocol, model, events[1..])
      else match codec.loads(event.data)
        case None => [Data(codec.dumps(codec.ErrorPayload()))]
        case Some(p) =>
          [SafeFrame(event.name, codec.dumps(Rename(protocol, model, p)))] + Rewritten(codec, protocol, model, events[1..])
  }

  /** The bytes written for a chunked stream. */
  function Output(codec: Codec, protocol: Protocol, model: string, chunks: seq<string>): string {
    PrintAll(Rewritten(codec, protocol, model, SseEvents(chunks)))
  }

  // ---------- Only one model name changes

  /** No model name is added or removed, and nothing but model names differs. */
  lemma RenameTouchesOneName(protocol: Protocol, model: string, p: Payload)
    ensures var r := Rename(protocol, model, p);
            && r.rest == p.rest && (r.model.Some? <==> p.model.Some?)
            && (Names(r.message) <==> Names(p.message)) && (Names(r.response) <==> Names(p.response))
            && (r == p || r == p.(model := Some(model))
                || (Names(p.message) && r == p.(message := p.message.(model := Some(model))))
                || (Names(p.response) && r == p.(response := p.response.(model := Some(model)))))
    ensures forall last: string :: Rename(protocol, last, Rename(protocol, model, p)) == Rename(protocol, last, p)
  {
  }

  /** The model a client of the protocol sees: the one in the message or the response, else the one at the top. */
  function ShownModel(protocol: Protocol, p: Payload): Option<string> {
    match protocol
    case Anthropic => if Names(p.message) then p.message.model else p.model
    case Responses => if Names(p.response) then p.response.model else p.model
    case Chat => p.model
  }

  /** A client that saw a model sees the new one; one that saw none sees none. */
  lemma ClientsSeeTheNewModel(protocol: Protocol, model: string, p: Payload)
    ensures ShownModel(protocol, Rename(protocol, model, p)) == if ShownModel(protocol, p).Some? then Some(model) else None
  {
  }

  // ---------- Which frames are written

  predicate Readable(codec: Codec, event: Event) {
    event.data == DONE || codec.loads(event.data).Some?
  }

  /** The events before the first one whose data is invalid. */
  function ReadablePart(codec: Codec, events: seq<Event>): seq<Event> {
    if events == [] || !Readable(codec, events[0]) then [] else [events[0]] + ReadablePart(codec, events[1..])
  }

  /** The frame passes the event on: the end marker as it is, and any other object with nothing but the model replaced. */
  ghost predicate PassesOn(codec: Codec, protocol: Protocol, model: string, event: Event, frame: Printed) {
    && frame.SafeFrame? && frame.name == event.name
    && (event.data == DONE ==> frame.data == DONE)
    && (event.data != DONE && codec.loads(event.data).Some? ==>
          var p := codec.loads(event.data).value;
          exists r :: codec.dumps(r) == frame.data && r.rest == p.rest
                      && ShownModel(protocol, r) == (if ShownModel(protocol, p).Some? then Some(model) else None))
  }

  /** One frame for each event up to the first invalid one, and for that an error frame, which is the last. */
  lemma {:induction false} FramesPassOn(codec: Codec, protocol: Protocol, model: string, events: seq<Event>)
    ensures var frames, part := Rewritten(codec, protocol, model, events), ReadablePart(codec, events);
            && |part| <= |events| && part == events[..|part|]
            && |frames| == |part| + (if |part| < |events| then 1 else 0)
            && (forall k | 0 <= k < |part| :: PassesOn(codec, protocol, model, events[k], frames[k]))
            && (|part| < |events| ==> frames[|part|] == Data(codec.dumps(Payload(None, Absent, Absent, codec.protocolError))))
  {
    hide PassesOn;
    if events == [] {
    } else if Readable(codec, events[0]) {
      FramesPassOn(codec, protocol, model, events[1..]);
      FirstPassesOn(codec, protocol, model, events);
      var frames, part := Rewritten(codec, protocol, model, events), ReadablePart(codec, events);
      assert frames[1..] == Rewritten(codec, protocol, model, events[1..]);
      assert part == [events[0]] + events[1..][..|part| - 1];
      forall k | 0 <= k < |part| ensures PassesOn(codec, protocol, model, events[k], frames[k]) {
        if k > 0 {
          assert PassesOn(codec, protocol, model, events[1..][k - 1], frames[1..][k - 1]);
        }
      }
    }
  }

  lemma FirstPassesOn(codec: Codec, protocol: Protocol, model: string, events: seq<Event>)
    ensures events != [] && Readable(codec, events[0]) ==>
              var frames := Rewritten(codec, protocol, model, events);
              frames != [] && PassesOn(codec, protocol, model, events[0], frames[0])
  {
    if events != [] && events[0].data != DONE && codec.loads(events[0].data).Some? {
      var p := codec.loads(events[0].data).value;
      RenameTouchesOneName(protocol, model, p);
      ClientsSeeTheNewModel(protocol, model, p);
      assert codec.dumps(Rename(protocol, model, p)) == Rewritten(codec, protocol, model, events)[0].data;
    }
  }

  // ---------- What is written reads back

  lemma DoneIsPlain()
    ensures OneLine(TEXT_LINES, DONE) && !IsSpace(DONE[0])
  {
  }

  lemma {:induction false} RewrittenIsPrintable(codec: Codec, protocol: Protocol, model: string, events: seq<Event>)
    requires codec.Valid()
    ensures AllPrintable(Rewritten(codec, protocol, model, events))
  {
    if events == [] {
    } else {
      DoneIsPlain();
      RewrittenIsPrintable(codec, protocol, model, events[1..]);
    }
  }

  /** However the output is cut, its events are those of the frames written. */
  lemma OutputReadsBack(codec: Codec, protocol: Protocol, model: string, chunks: seq<string>, later: seq<string>)
    requires codec.Valid() && Concat(later) == Output(codec, protocol, model, chunks)
    ensures SseEvents(later) == Meanings(Rewritten(codec, protocol, model, SseEvents(chunks)))
  {
    RewrittenIsPrintable(codec, protocol, model, SseEvents(chunks));
    PrintThenRead(Rewritten(codec, protocol, model, SseEvents(chunks)), later);
  }

  lemma SafeNameIsSafe(name: string)
    ensures SafeName(SafeName(name)) == SafeName(name)
  {
  }

  lemma {:induction false} RewrittenTwice(codec: Codec, protocol: Protocol, first: string, last: string, events: seq<Event>)
    requires codec.Valid()
    ensures PrintAll(Rewritten(codec, protocol, last, Meanings(Rewritten(codec, protocol, first, events))))
         == PrintAll(Rewritten(codec, protocol, last, events))
  {
    if events == [] {
    } else {
      var event, rest := events[0], Rewritten(codec, protocol, first, events[1..]);
      RewrittenTwice(codec, protocol, first, last, events[1..]);
      if event.data != DONE && codec.loads(event.data).None? {
        ErrorAgain(codec, protocol, last);
      } else {
        var frame := Rewritten(codec, protocol, first, events)[0];
        MeaningsCons(frame, rest);
        FrameAgain(codec, protocol, first, last, event, frame);
        RewrittenCons(codec, protocol, last, Meaning(frame), Meanings(rest));
        RewrittenCons(codec, protocol, last, event, events[1..]);
      }
    }
  }

  /** The frame of one event whose data is readable. */
  function Frame(codec: Codec, protocol: Protocol, model: string, event: Event): Printed
    requires event.data == DONE || codec.loads(event.data).Some?
  {
    if event.data == DONE then SafeFrame(event.name, DONE)
    else SafeFrame(event.name, codec.dumps(Rename(protocol, model, codec.loads(event.data).value)))
  }

  lemma RewrittenCons(codec: Codec, protocol: Protocol, model: string, event: Event, events: seq<Event>)
    requires event.data == DONE || codec.loads(event.data).Some?
    ensures PrintAll(Rewritten(codec, protocol, model, [event] + events))
         == Print(Frame(codec, protocol, model, event)) + PrintAll(Rewritten(codec, protocol, model, events))
  {
    assert ([event] + events)[1..] == events;
    var frame, frames := Frame(codec, protocol, model, event), Rewritten(codec, protocol, model, events);
    assert ([frame] + frames)[1..] == frames;
  }

  lemma MeaningsCons(frame: Printed, frames: seq<Printed>)
    ensures Meanings([frame] + frames) == [Meaning(frame)] + Meanings(frames)
  {
    assert ([frame] + frames)[1..] == frames;
  }

  lemma FrameAgain(codec: Codec, protocol: Protocol, first: string, last: string, event: Event, frame: Printed)
    requires codec.Valid() && (event.data == DONE || codec.loads(event.data).Some?)
    requires frame == Frame(codec, protocol, first, event)
    ensures Meaning(frame).data == DONE || codec.loads(Meaning(frame).data).Some?
    ensures Print(Frame(codec, protocol, last, Meaning(frame))) == Print(Frame(codec, protocol, last, event))
  {
    SafeNameIsSafe(event.name);
    if event.data != DONE {
      var p := codec.loads(event.data).value;
      RenameTouchesOneName(protocol, first, p);
      assert codec.loads(codec.dumps(Rename(protocol, first, p))) == Some(Rename(protocol, first, p));
      assert codec.dumps(Rename(protocol, first, p)) != DONE;
    }
  }

  lemma ErrorAgain(codec: Codec, protocol: Protocol, last: string)
    requires codec.Valid()
    ensures var error := [Data(codec.dumps(codec.ErrorPayload()))];
            PrintAll(Rewritten(codec, protocol, last, Meanings(error))) == PrintAll(error)
  {
    var text := codec.dumps(codec.ErrorPayload());
    var event := Event("message", text);
    assert codec.loads(text) == Some(codec.ErrorPayload()) && text != DONE;
    MeaningsCons(Data(text), []);
    assert [Data(text)] + [] == [Data(text)] && [event] + [] == [event];
    assert Meanings([Data(text)]) == [event];
    RewrittenCons(codec, protocol, last, event, []);
    assert Body(SafeFrame("message", text)) == Body(Data(text));
  }

  /**
   The last rewrite wins: rewriting a rewritten stream, however it is cut on the way, writes the very text
   that the last rewrite alone would have written. In particular, rewriting is idempotent.
   */
  lemma LastRewriteWins(codec: Codec, protocol: Protocol, first: string, last: string, chunks: seq<string>, later: seq<string>)
    requires codec.Valid() && Concat(later) == Output(codec, protocol, first, chunks)
    ensures Output(codec, protocol, last, later) == Output(codec, protocol, last, chunks)
  {
    OutputReadsBack(codec, protocol, first, chunks, later);
    RewrittenTwice(codec, protocol, first, last, SseEvents(chunks));
  }

  lemma RewrittenStops(codec: Codec, protocol: Protocol, model: string, event: Event, events: seq<Event>)
    requires event.data != DONE && codec.loads(event.data).None?
    ensures PrintAll(Rewritten(codec, protocol, model, [event] + events)) == Print(Data(codec.dumps(codec.ErrorPayload())))
  {
    hide Print;
    var error := Data(codec.dumps(codec.ErrorPayload()));
    assert Print(error) + "" == Print(error) && [error][1..] == [];
  }

  /** The rewriting loop. */
  method RewriteAs(codec: Codec, protocol: Protocol, model: string, chunks: seq<string>) returns (written: string)
    ensures written == Output(codec, protocol, model, chunks)
  {
    hide Rename, Print, SseEvents;
    var events := ReadEvents(chunks);
    written := "";
    for i := 0 to |events|
      invariant PrintAll(Rewritten(codec, protocol, model, events))
             == written + PrintAll(Rewritten(codec, protocol, model, events[i..]))
    {
      hide Rewritten, PrintAll;
      var event, rest := events[i], events[i + 1..];
      assert events[i..] == [event] + rest;
      if event.data == DONE {
        RewrittenCons(codec, protocol, model, event, rest);
        Assoc(written, Print(SafeFrame(event.name, DONE)), PrintAll(Rewritten(codec, protocol, model, rest)));
        written := written + Print(SafeFrame(event.name, DONE));
      } else {
        match codec.loads(event.data)
        case None =>
          RewrittenStops(codec, protocol, model, event, rest);
          return written + Print(Data(codec.dumps(codec.ErrorPayload())));
        case Some(p) =>
          var frame := SafeFrame(event.name, codec.dumps(Rename(protocol, model, p)));
          RewrittenCons(codec, protocol, model, event, rest);
          Assoc(written, Print(frame), PrintAll(Rewritten(codec, protocol, model, rest)));
          written := written + Print(frame);
      }
    }
  }

  datatype RewriteError = UnsupportedProtocol

  function ProtocolNamed(name: string): Option<Protocol> {
    if name == "anthropic" then Some(Anthropic)
    else if name == "chat" then Some(Chat)
    else if name == "responses" then Some(Responses)
    else None
  }

  /** Only three protocol names are known. */
  method RewriteModel(codec: Codec, name: string, model: string, chunks: seq<string>) returns (r: Result<string, RewriteError>)
    ensures name in {"anthropic", "chat", "responses"} <==> r.Ok?
    ensures name == "anthropic" ==> r == Ok(Output(codec, Anthropic, model, chunks))
    ensures name == "chat" ==> r == Ok(Output(codec, Chat, model, chunks))
    ensures name == "responses" ==> r == Ok(Output(codec, Responses, model, chunks))
  {
    hide Output;
    match ProtocolNamed(name)
    case None => return Err(UnsupportedProtocol);
    case Some(protocol) =>
      var written := RewriteAs(codec, protocol, model, chunks);
      return Ok(written);
  }
}
